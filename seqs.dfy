/** `Array.prototype.filter`, over Dafny sequences, with the facts the stores rely on. */
module Seqs {

  /** The elements of `s` that satisfy `keep`, in their order in `s`. */
  function Filter<T>(s: seq<T>, keep: T -> bool): (r: seq<T>)
    ensures |r| <= |s|
    ensures forall i :: 0 <= i < |r| ==> keep(r[i])
    ensures multiset(r) <= multiset(s)
  {
    if s == [] then []
    else
      assert s == [s[0]] + s[1..];
      (if keep(s[0]) then [s[0]] else []) + Filter(s[1..], keep)
  }

  /** Filtering a concatenation filters each part: the kept elements keep their relative order. */
  lemma {:induction false} FilterConcat<T>(a: seq<T>, b: seq<T>, keep: T -> bool)
    ensures Filter(a + b, keep) == Filter(a, keep) + Filter(b, keep)
  {
    if a == [] {
      assert a + b == b;
    } else {
      assert (a + b)[0] == a[0];
      assert (a + b)[1..] == a[1..] + b;
      FilterConcat(a[1..], b, keep);
    }
  }

  /** An element is in the filtered sequence exactly when it is in `s` and is kept. */
  lemma {:induction false} FilterMembership<T>(s: seq<T>, keep: T -> bool, x: T)
    ensures x in Filter(s, keep) <==> x in s && keep(x)
  {
    if s != [] {
      var y, t := s[0], s[1..];
      assert s == [y] + t;
      FilterMembership(t, keep, x);
      FilterCons(y, t, keep);
      assert x in s <==> x == y || x in t;
    }
  }

  /** When every element is kept, filtering changes nothing. */
  lemma {:induction false} FilterKeepsAll<T>(s: seq<T>, keep: T -> bool)
    requires forall i :: 0 <= i < |s| ==> keep(s[i])
    ensures Filter(s, keep) == s
  {
    if s != [] {
      FilterKeepsAll(s[1..], keep);
      assert s == [s[0]] + s[1..];
    }
  }

  /** When no element is kept, the result is empty. */
  lemma {:induction false} FilterDropsAll<T>(s: seq<T>, keep: T -> bool)
    requires forall i :: 0 <= i < |s| ==> !keep(s[i])
    ensures Filter(s, keep) == []
  {
    if s != [] {
      FilterDropsAll(s[1..], keep);
    }
  }

  /** One step of `Filter`: the head is kept or not, then the tail is filtered. */
  lemma FilterCons<T>(x: T, t: seq<T>, keep: T -> bool)
    ensures Filter([x] + t, keep) == (if keep(x) then [x] else []) + Filter(t, keep)
  {
    assert ([x] + t)[1..] == t;
  }

  /** The elements kept and the elements dropped together make up `s`: nothing is lost or duplicated. */
  lemma {:induction false} FilterPartition<T>(s: seq<T>, keep: T -> bool, drop: T -> bool)
    requires forall x :: drop(x) <==> !keep(x)
    ensures multiset(Filter(s, keep)) + multiset(Filter(s, drop)) == multiset(s)
  {
    if s != [] {
      var x, t := s[0], s[1..];
      assert s == [x] + t;
      FilterPartition(t, keep, drop);
      FilterCons(x, t, keep);
      FilterCons(x, t, drop);
      var head := if keep(x) then [x] else [];
      var other := if drop(x) then [x] else [];
      assert multiset(head) + multiset(other) == multiset{x} by {
        assert drop(x) <==> !keep(x);
      }
    }
  }
}
