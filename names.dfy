/**
 * Variable names and their order. `Array.prototype.sort()` without a comparator
 * orders strings by their code units; the model orders them lexicographically by
 * character, a string coming before every longer string it is a prefix of.
 */
module Names {

  /** `a` sorts strictly before `b`. */
  predicate Less(a: string, b: string)
  {
    if |a| == 0 then |b| > 0
    else if |b| == 0 then false
    else if a[0] != b[0] then a[0] < b[0]
    else Less(a[1..], b[1..])
  }

  lemma {:induction false} LessIrreflexive(a: string)
    ensures !Less(a, a)
  {
    if |a| > 0 { LessIrreflexive(a[1..]); }
  }

  lemma {:induction false} LessTransitive(a: string, b: string, c: string)
    requires Less(a, b) && Less(b, c)
    ensures Less(a, c)
  {
    if |a| > 0 && |b| > 0 && |c| > 0 && a[0] == b[0] && b[0] == c[0] {
      LessTransitive(a[1..], b[1..], c[1..]);
    }
  }

  lemma {:induction false} LessTotal(a: string, b: string)
    requires a != b
    ensures Less(a, b) != Less(b, a)
  {
    if |a| > 0 && |b| > 0 {
      if a[0] == b[0] {
        assert a == [a[0]] + a[1..] && b == [b[0]] + b[1..];
        LessTotal(a[1..], b[1..]);
      }
    }
  }

  /** Strictly increasing, hence free of duplicates. */
  predicate StrictlySorted(r: seq<string>)
  {
    forall i, j :: 0 <= i < j < |r| ==> Less(r[i], r[j])
  }

  /** `r` lists the names of `s`, sorted, each once: `Array.from(s).sort()`. */
  predicate IsListing(r: seq<string>, s: set<string>)
  {
    StrictlySorted(r) &&
    (forall k :: 0 <= k < |r| ==> r[k] in s) &&
    (forall x :: x in s ==> x in r)
  }

  /** A set has exactly one sorted listing, so the emitted lists are deterministic. */
  lemma {:induction false} ListingUnique(r1: seq<string>, r2: seq<string>, s: set<string>)
    requires IsListing(r1, s) && IsListing(r2, s)
    ensures r1 == r2
  {
    if r1 == [] {
      assert s == {};
    } else {
      assert r1[0] in r2;
      assert r2 != [];
      assert r2[0] in r1;
      if r1[0] != r2[0] {
        var i :| 0 <= i < |r2| && r2[i] == r1[0];
        var j :| 0 <= j < |r1| && r1[j] == r2[0];
        assert i > 0 && j > 0;
        assert Less(r2[0], r1[0]) && Less(r1[0], r2[0]);
        LessTotal(r1[0], r2[0]);
        assert false;
      }
      var x := r1[0];
      forall k | 0 <= k < |r1[1..]| ensures r1[1..][k] in s - {x} {
        assert Less(r1[0], r1[k + 1]);
        LessIrreflexive(x);
      }
      forall k | 0 <= k < |r2[1..]| ensures r2[1..][k] in s - {x} {
        assert Less(r2[0], r2[k + 1]);
        LessIrreflexive(x);
      }
      forall y | y in s - {x} ensures y in r1[1..] && y in r2[1..] {
        assert y in r1 && y in r2;
      }
      ListingUnique(r1[1..], r2[1..], s - {x});
      assert r1 == [x] + r1[1..] && r2 == [x] + r2[1..];
    }
  }

  lemma ListingLength(r: seq<string>, s: set<string>)
    requires IsListing(r, s)
    ensures |r| == |s|
  {
    var t := set k | 0 <= k < |r| :: r[k];
    assert t == s;
    DistinctCard(r);
  }

  lemma {:induction false} DistinctCard(r: seq<string>)
    requires StrictlySorted(r)
    ensures |set k | 0 <= k < |r| :: r[k]| == |r|
  {
    if r != [] {
      var rest := r[1..];
      DistinctCard(rest);
      var t := set k | 0 <= k < |r| :: r[k];
      var u := set k | 0 <= k < |rest| :: rest[k];
      assert t == {r[0]} + u;
      if r[0] in u {
        var k :| 0 <= k < |rest| && rest[k] == r[0];
        assert Less(r[0], r[k + 1]);
        LessIrreflexive(r[0]);
      }
    }
  }

  /** Every non-empty set of names has a least one. */
  lemma {:induction false} LeastExists(s: set<string>)
    requires s != {}
    ensures exists m :: m in s && forall y :: y in s && y != m ==> Less(m, y)
    decreases |s|
  {
    var x :| x in s;
    if s - {x} != {} {
      LeastExists(s - {x});
      var m :| m in s - {x} && forall y :: y in s - {x} && y != m ==> Less(m, y);
      LessTotal(x, m);
      if Less(x, m) {
        forall y | y in s && y != x ensures Less(x, y) {
          if y != m { LessTransitive(x, m, y); }
        }
      }
    } else {
      assert s == {x};
    }
  }

  ghost function Least(s: set<string>): (m: string)
    requires s != {}
    ensures m in s && forall y :: y in s && y != m ==> Less(m, y)
  {
    LeastExists(s);
    var m :| m in s && forall y :: y in s && y != m ==> Less(m, y);
    m
  }

  /** The sorted listing of a set: its least name, then the listing of the rest. */
  ghost function Listing(s: set<string>): seq<string>
    decreases |s|
  {
    if s == {} then []
    else
      var m := Least(s);
      [m] + Listing(s - {m})
  }

  /** `Listing` lists the set: sorted, each name once, nothing else. */
  lemma {:induction false} ListingLists(s: set<string>)
    ensures IsListing(Listing(s), s)
    decreases |s|
  {
    if s != {} {
      var m := Least(s);
      ListingLists(s - {m});
      var rest := Listing(s - {m});
      assert forall k :: 0 <= k < |rest| ==> Less(m, rest[k]);
    }
  }

  /** Insert a new name into a sorted listing at its place. */
  function Insert(r: seq<string>, x: string): (r': seq<string>)
    requires StrictlySorted(r) && x !in r
    ensures StrictlySorted(r')
    ensures forall y :: y in r' <==> y in r || y == x
    decreases |r|
  {
    if r == [] then [x]
    else if Less(x, r[0]) then
      assert forall k :: 0 <= k < |r| ==> Less(x, r[k]) by {
        forall k | 0 <= k < |r| ensures Less(x, r[k]) {
          if k > 0 { LessTransitive(x, r[0], r[k]); }
        }
      }
      [x] + r
    else
      LessTotal(x, r[0]);
      var tail := Insert(r[1..], x);
      assert forall k :: 0 <= k < |tail| ==> Less(r[0], tail[k]) by {
        forall k | 0 <= k < |tail| ensures Less(r[0], tail[k]) {
          assert tail[k] in tail;
          if tail[k] != x {
            var j :| 0 <= j < |r[1..]| && r[1..][j] == tail[k];
            assert r[j + 1] == tail[k];
          }
        }
      }
      [r[0]] + tail
  }

  /** `Array.from(s).sort()`. */
  method SortedNames(s: set<string>) returns (r: seq<string>)
    ensures r == Listing(s)
  {
    r := [];
    var rest := s;
    while rest != {}
      invariant rest <= s
      invariant IsListing(r, s - rest)
      decreases |rest|
    {
      var x :| x in rest;
      r := Insert(r, x);
      rest := rest - {x};
      forall k | 0 <= k < |r| ensures r[k] in s - rest {
        assert r[k] in r;
      }
    }
    ListingLists(s);
    ListingUnique(r, Listing(s), s);
  }
}
