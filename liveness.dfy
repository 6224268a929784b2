/**
 * Liveness over the straight-line chain of statements 0..n-1, where the only
 * successor of statement i is statement i + 1 and the last statement has none.
 * Sets are kept in maps keyed by statement id, as the analyzer keeps them.
 */
module Liveness {

  type NameSets = map<nat, set<string>>

  /** Every statement of the chain has an entry. */
  predicate Covers(m: NameSets, n: nat)
  {
    forall k :: 0 <= k < n ==> k in m
  }

  /** `OUT[i]` for the chain: the successor's `IN`, or nothing for the last statement. */
  function OutOf(n: nat, liveIn: NameSets, i: nat): set<string>
    requires Covers(liveIn, n) && i < n
  {
    if i + 1 < n then liveIn[i + 1] else {}
  }

  /**
   * `liveIn`/`liveOut` satisfy the dataflow equations at every statement:
   * `OUT[i] = IN[i + 1]` (empty for the last) and `IN[i] = GEN[i] ∪ (OUT[i] \ KILL[i])`.
   */
  predicate Solves(n: nat, gen: NameSets, kill: NameSets, liveIn: NameSets, liveOut: NameSets)
  {
    Covers(gen, n) && Covers(kill, n) && Covers(liveIn, n) && Covers(liveOut, n) &&
    forall i :: 0 <= i < n ==> SolvesAt(n, gen, kill, liveIn, liveOut, i)
  }

  /** The two equations at statement `i`. */
  predicate SolvesAt(n: nat, gen: NameSets, kill: NameSets, liveIn: NameSets, liveOut: NameSets, i: nat)
    requires Covers(gen, n) && Covers(kill, n) && Covers(liveIn, n) && Covers(liveOut, n) && i < n
  {
    liveOut[i] == OutOf(n, liveIn, i) && liveIn[i] == gen[i] + (liveOut[i] - kill[i])
  }

  /** The names live on entry to statement `i`, computed from the end of the chain. */
  function LiveFrom(n: nat, gen: NameSets, kill: NameSets, i: nat): set<string>
    requires Covers(gen, n) && Covers(kill, n) && i <= n
    decreases n - i
  {
    if i == n then {} else gen[i] + (LiveFrom(n, gen, kill, i + 1) - kill[i])
  }

  /**
   * What liveness means: `x` is live on entry to statement `i` exactly when some
   * statement `j >= i` reads it and no statement from `i` up to `j` (exclusive)
   * redefines it.
   */
  lemma {:induction false} LiveFromExactly(n: nat, gen: NameSets, kill: NameSets, i: nat, x: string)
    requires Covers(gen, n) && Covers(kill, n) && i <= n
    ensures x in LiveFrom(n, gen, kill, i) <==>
      exists j :: i <= j < n && x in gen[j] && forall k :: i <= k < j ==> x !in kill[k]
    decreases n - i
  {
    if i < n {
      LiveFromExactly(n, gen, kill, i + 1, x);
      if x in LiveFrom(n, gen, kill, i) && x !in gen[i] {
        var j :| i + 1 <= j < n && x in gen[j] && forall k :: i + 1 <= k < j ==> x !in kill[k];
        assert forall k :: i <= k < j ==> x !in kill[k];
      }
      if exists j :: i <= j < n && x in gen[j] && forall k :: i <= k < j ==> x !in kill[k] {
        var j :| i <= j < n && x in gen[j] && forall k :: i <= k < j ==> x !in kill[k];
        if j > i {
          assert x !in kill[i];
          assert forall k :: i + 1 <= k < j ==> x !in kill[k];
        }
      }
    }
  }

  /** The equations have exactly one solution on a chain: the one `LiveFrom` computes. */
  lemma {:induction false} SolutionIsLiveFrom(n: nat, gen: NameSets, kill: NameSets,
                                              liveIn: NameSets, liveOut: NameSets, i: nat)
    requires Solves(n, gen, kill, liveIn, liveOut) && i < n
    ensures liveIn[i] == LiveFrom(n, gen, kill, i)
    ensures liveOut[i] == LiveFrom(n, gen, kill, i + 1)
    decreases n - i
  {
    assert SolvesAt(n, gen, kill, liveIn, liveOut, i);
    if i + 1 < n {
      SolutionIsLiveFrom(n, gen, kill, liveIn, liveOut, i + 1);
    }
    assert liveOut[i] == LiveFrom(n, gen, kill, i + 1);
  }

  /** `liveIn`/`liveOut` hold at statement `i` the sets `LiveFrom` gives. */
  predicate LiveAt(n: nat, gen: NameSets, kill: NameSets, liveIn: NameSets, liveOut: NameSets, i: nat)
    requires Covers(gen, n) && Covers(kill, n) && i < n
  {
    i in liveIn && i in liveOut &&
    liveIn[i] == LiveFrom(n, gen, kill, i) && liveOut[i] == LiveFrom(n, gen, kill, i + 1)
  }

  /** Updating statement `i`'s sets leaves the equations at `j` as they were, unless they read them. */
  lemma SolvesAtUpdate(n: nat, gen: NameSets, kill: NameSets, liveIn: NameSets, liveOut: NameSets,
                       i: nat, newIn: set<string>, newOut: set<string>, j: nat)
    requires Covers(gen, n) && Covers(kill, n) && Covers(liveIn, n) && Covers(liveOut, n)
    requires i < j < n
    ensures SolvesAt(n, gen, kill, liveIn[i := newIn], liveOut[i := newOut], j) ==
            SolvesAt(n, gen, kill, liveIn, liveOut, j)
  {
  }

  /**
   * Recomputing statement `i` from the solved statements after it extends the
   * solved part of the chain to `i`.
   */
  lemma SolvesFrom(n: nat, gen: NameSets, kill: NameSets, liveIn: NameSets, liveOut: NameSets,
                   i: nat, newIn: set<string>, newOut: set<string>, liveIn': NameSets, liveOut': NameSets)
    requires Covers(gen, n) && Covers(kill, n) && Covers(liveIn, n) && Covers(liveOut, n) && i < n
    requires forall j :: i < j < n ==> SolvesAt(n, gen, kill, liveIn, liveOut, j)
    requires newOut == OutOf(n, liveIn, i) && newIn == gen[i] + (newOut - kill[i])
    requires liveIn' == liveIn[i := newIn] && liveOut' == liveOut[i := newOut]
    ensures Covers(liveIn', n) && Covers(liveOut', n)
    ensures forall j :: i <= j < n ==> SolvesAt(n, gen, kill, liveIn', liveOut', j)
  {
    forall j | i < j < n
      ensures SolvesAt(n, gen, kill, liveIn', liveOut', j)
    {
      SolvesAtUpdate(n, gen, kill, liveIn, liveOut, i, newIn, newOut, j);
    }
  }

  /** Some statement from `lo` on holds a different `IN` or `OUT` set in the two pairs of maps. */
  predicate Differ(n: nat, in1: NameSets, out1: NameSets, in2: NameSets, out2: NameSets, lo: nat)
    requires Covers(in1, n) && Covers(out1, n) && Covers(in2, n) && Covers(out2, n)
  {
    exists j :: lo <= j < n && (in1[j] != in2[j] || out1[j] != out2[j])
  }

  /**
   * One step of a reverse sweep that started from `liveIn`/`liveOut`: statement `i`
   * is recomputed in the current maps `curIn`/`curOut`, which are solved after `i`
   * and untouched up to `i`. Afterwards they are solved from `i` on and untouched
   * before `i`, and they differ from the start from `i` on exactly when they did
   * after `i` or statement `i` got a new set.
   */
  lemma SweepStep(n: nat, gen: NameSets, kill: NameSets, liveIn: NameSets, liveOut: NameSets,
                  curIn: NameSets, curOut: NameSets, i: nat, newIn: set<string>, newOut: set<string>,
                  curIn': NameSets, curOut': NameSets)
    requires Covers(gen, n) && Covers(kill, n) && Covers(liveIn, n) && Covers(liveOut, n) && i < n
    requires Covers(curIn, n) && Covers(curOut, n)
    requires forall j :: i < j < n ==> SolvesAt(n, gen, kill, curIn, curOut, j)
    requires forall j :: 0 <= j <= i ==> curIn[j] == liveIn[j] && curOut[j] == liveOut[j]
    requires newOut == OutOf(n, curIn, i) && newIn == gen[i] + (newOut - kill[i])
    requires curIn' == curIn[i := newIn] && curOut' == curOut[i := newOut]
    ensures Covers(curIn', n) && Covers(curOut', n)
    ensures forall j :: i <= j < n ==> SolvesAt(n, gen, kill, curIn', curOut', j)
    ensures forall j :: 0 <= j < i ==> curIn'[j] == liveIn[j] && curOut'[j] == liveOut[j]
    ensures Differ(n, curIn', curOut', liveIn, liveOut, i) <==>
            Differ(n, curIn, curOut, liveIn, liveOut, i + 1) ||
            newIn != liveIn[i] || newOut != liveOut[i]
  {
    SolvesFrom(n, gen, kill, curIn, curOut, i, newIn, newOut, curIn', curOut');
    if Differ(n, curIn, curOut, liveIn, liveOut, i + 1) {
      var j :| i + 1 <= j < n && (curIn[j] != liveIn[j] || curOut[j] != liveOut[j]);
      assert curIn'[j] == curIn[j] && curOut'[j] == curOut[j];
    }
    if Differ(n, curIn', curOut', liveIn, liveOut, i) {
      var j :| i <= j < n && (curIn'[j] != liveIn[j] || curOut'[j] != liveOut[j]);
      if j > i {
        assert curIn'[j] == curIn[j] && curOut'[j] == curOut[j];
      }
    }
  }

  /** Two solutions of the equations agree at every statement. */
  lemma SolutionsAgree(n: nat, gen: NameSets, kill: NameSets,
                       in1: NameSets, out1: NameSets, in2: NameSets, out2: NameSets)
    requires Solves(n, gen, kill, in1, out1) && Solves(n, gen, kill, in2, out2)
    ensures forall j :: 0 <= j < n ==> in1[j] == in2[j] && out1[j] == out2[j]
  {
    forall j | 0 <= j < n
      ensures in1[j] == in2[j] && out1[j] == out2[j]
    {
      SolutionIsLiveFrom(n, gen, kill, in1, out1, j);
      SolutionIsLiveFrom(n, gen, kill, in2, out2, j);
    }
  }

  /** Conversely, the sets `LiveFrom` gives solve the equations. */
  lemma LiveFromSolves(n: nat, gen: NameSets, kill: NameSets, liveIn: NameSets, liveOut: NameSets)
    requires Covers(gen, n) && Covers(kill, n)
    requires forall i :: 0 <= i < n ==> LiveAt(n, gen, kill, liveIn, liveOut, i)
    ensures Solves(n, gen, kill, liveIn, liveOut)
  {
    forall i | 0 <= i < n
      ensures i in liveIn && i in liveOut
    {
      assert LiveAt(n, gen, kill, liveIn, liveOut, i);
    }
    forall i | 0 <= i < n
      ensures SolvesAt(n, gen, kill, liveIn, liveOut, i)
    {
      assert LiveAt(n, gen, kill, liveIn, liveOut, i);
      if i + 1 < n {
        assert LiveAt(n, gen, kill, liveIn, liveOut, i + 1);
      }
    }
  }

  lemma SubsetOfSameSize(a: set<string>, b: set<string>)
    requires a <= b && |a| == |b|
    ensures a == b
  {
    assert b == a + (b - a);
    assert |b| == |a| + |b - a|;
  }

  /** `setsEqual(set1, set2)`: same size, and every element of the first is in the second. */
  method SetsEqual(set1: set<string>, set2: set<string>) returns (equal: bool)
    ensures equal <==> set1 == set2
  {
    if |set1| != |set2| {
      return false;
    }
    var rest := set1;
    while rest != {}
      invariant rest <= set1
      invariant set1 - rest <= set2
      decreases |rest|
    {
      var item :| item in rest;
      if item !in set2 {
        return false;
      }
      rest := rest - {item};
    }
    SubsetOfSameSize(set1, set2);
    return true;
  }
}
