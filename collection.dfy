/**
 * The array operations the handlers apply to a loaded collection:
 * findIndex/find on a property (first match), filter on a property (order
 * preserving), and the "merge into the first match" update.
 */
module Collection {
  import opened Wrappers
  import opened Json

  /** `r[field] === key`, the callback every findIndex, find and filter uses. */
  predicate Matches(r: Record, field: string, key: Value)
  {
    StrictEquals(Get(r, field), key)
  }

  /** Array.prototype.findIndex with `x => x[field] === key`; None stands for -1. */
  function FindIndex(c: seq<Record>, field: string, key: Value): (i: Option<nat>)
    ensures i.Some? ==> i.value < |c| && Matches(c[i.value], field, key)
    ensures i.Some? ==> forall j :: 0 <= j < i.value ==> !Matches(c[j], field, key)
    ensures i.None? <==> forall j :: 0 <= j < |c| ==> !Matches(c[j], field, key)
  {
    if c == [] then None
    else if Matches(c[0], field, key) then Some(0)
    else match FindIndex(c[1..], field, key)
      case None => None
      case Some(j) => Some(j + 1)
  }

  /**
   * Array.prototype.filter keeping the records for which `x[field] === key`
   * is `equal`: `equal == true` selects matches, `equal == false` drops them.
   */
  function Filter(c: seq<Record>, field: string, key: Value, equal: bool): (r: seq<Record>)
    ensures |r| <= |c|
    ensures forall x :: x in r ==> x in c && Matches(x, field, key) == equal
  {
    if c == [] then []
    else (if Matches(c[0], field, key) == equal then [c[0]] else []) + Filter(c[1..], field, key, equal)
  }

  /**
   * Replace the first record matching `key` by its spread with `delta`;
   * None when nothing matches. Defined by recursion on the collection, as a
   * reference for the findIndex-and-assign code of the handlers.
   */
  function MergeFirst(c: seq<Record>, field: string, key: Value, delta: Record): (r: Option<seq<Record>>)
    ensures r.None? <==> FindIndex(c, field, key).None?
    ensures r.Some? ==> |r.value| == |c|
  {
    if c == [] then None
    else if Matches(c[0], field, key) then Some([Spread(c[0], delta)] + c[1..])
    else match MergeFirst(c[1..], field, key, delta)
      case None => None
      case Some(rest) => Some([c[0]] + rest)
  }

  /** `s` is an order-preserving subsequence of `t`. */
  ghost predicate IsSubsequence<T>(s: seq<T>, t: seq<T>)
    decreases |t|
  {
    s == [] || (t != [] && ((s[0] == t[0] && IsSubsequence(s[1..], t[1..])) || IsSubsequence(s, t[1..])))
  }

  /** Merging into the first match is the findIndex-then-assign update: exactly one index changes. */
  lemma {:induction false} MergeFirstAt(c: seq<Record>, field: string, key: Value, delta: Record)
    ensures FindIndex(c, field, key).None? ==> MergeFirst(c, field, key, delta) == None
    ensures FindIndex(c, field, key).Some? ==>
      var i := FindIndex(c, field, key).value;
      MergeFirst(c, field, key, delta) == Some(c[i := Spread(c[i], delta)])
    decreases |c|
  {
    if c == [] {
    } else if Matches(c[0], field, key) {
      assert FindIndex(c, field, key) == Some(0);
      UpdateHead(c, Spread(c[0], delta));
    } else {
      var t := c[1..];
      MergeFirstAt(t, field, key, delta);
      match FindIndex(t, field, key)
      case None =>
        assert FindIndex(c, field, key) == None;
      case Some(j) =>
        assert FindIndex(c, field, key) == Some(j + 1);
        assert MergeFirst(c, field, key, delta) == Some([c[0]] + t[j := Spread(t[j], delta)]);
        UpdateBehindHead(c, j, Spread(t[j], delta));
    }
  }

  /** Replacing the head of a sequence. */
  lemma UpdateHead<T>(c: seq<T>, v: T)
    requires c != []
    ensures [v] + c[1..] == c[0 := v]
  {
  }

  /** Replacing an element of the tail of a sequence. */
  lemma UpdateBehindHead<T>(c: seq<T>, j: nat, v: T)
    requires j + 1 < |c|
    ensures [c[0]] + c[1..][j := v] == c[j + 1 := v]
  {
  }

  /** Two collections that match the key at the same positions have the same first match. */
  lemma {:induction false} FindIndexSameMatches(c: seq<Record>, d: seq<Record>, field: string, key: Value)
    requires |c| == |d|
    requires forall j :: 0 <= j < |c| ==> Matches(c[j], field, key) == Matches(d[j], field, key)
    ensures FindIndex(c, field, key) == FindIndex(d, field, key)
    decreases |c|
  {
    if c != [] && !Matches(c[0], field, key) {
      assert forall j :: 0 <= j < |c| - 1 ==> c[1..][j] == c[j + 1] && d[1..][j] == d[j + 1];
      FindIndexSameMatches(c[1..], d[1..], field, key);
    }
  }

  /** Appending a record that does not match leaves the first match where it was. */
  lemma {:induction false} FindIndexAppendMiss(c: seq<Record>, x: Record, field: string, key: Value)
    requires !Matches(x, field, key)
    ensures FindIndex(c + [x], field, key) == FindIndex(c, field, key)
    decreases |c|
  {
    if c == [] {
      assert [] + [x] == [x];
      assert [x][1..] == [];
    } else if !Matches(c[0], field, key) {
      assert (c + [x])[1..] == c[1..] + [x];
      FindIndexAppendMiss(c[1..], x, field, key);
    }
  }

  /** The filter result is an order-preserving subsequence of its input. */
  lemma {:induction false} FilterIsSubsequence(c: seq<Record>, field: string, key: Value, equal: bool)
    ensures IsSubsequence(Filter(c, field, key, equal), c)
    decreases |c|
  {
    if c != [] {
      var rest := Filter(c[1..], field, key, equal);
      FilterIsSubsequence(c[1..], field, key, equal);
      if Matches(c[0], field, key) == equal {
        var r := Filter(c, field, key, equal);
        assert r == [c[0]] + rest;
        assert r[0] == c[0] && r[1..] == rest;
      } else {
        assert Filter(c, field, key, equal) == rest;
      }
    }
  }

  /**
   * The filter keeps every copy of a record it keeps and no copy of a record
   * it drops: with FilterIsSubsequence this determines the result exactly.
   */
  lemma {:induction false} FilterMultiplicity(c: seq<Record>, field: string, key: Value, equal: bool, x: Record)
    ensures multiset(Filter(c, field, key, equal))[x] ==
      if Matches(x, field, key) == equal then multiset(c)[x] else 0
    decreases |c|
  {
    if c != [] {
      FilterMultiplicity(c[1..], field, key, equal, x);
      assert c == [c[0]] + c[1..];
      var head := if Matches(c[0], field, key) == equal then [c[0]] else [];
      assert Filter(c, field, key, equal) == head + Filter(c[1..], field, key, equal);
    }
  }

  /** A filter under which every record survives returns its input unchanged. */
  lemma {:induction false} FilterKeepsAll(c: seq<Record>, field: string, key: Value, equal: bool)
    requires forall i :: 0 <= i < |c| ==> Matches(c[i], field, key) == equal
    ensures Filter(c, field, key, equal) == c
    decreases |c|
  {
    if c != [] {
      FilterKeepsAll(c[1..], field, key, equal);
      assert [c[0]] + c[1..] == c;
    }
  }

  /** Filtering twice by the same condition is filtering once. */
  lemma {:induction false} FilterIdempotent(c: seq<Record>, field: string, key: Value, equal: bool)
    ensures Filter(Filter(c, field, key, equal), field, key, equal) == Filter(c, field, key, equal)
  {
    var r := Filter(c, field, key, equal);
    forall i | 0 <= i < |r|
      ensures Matches(r[i], field, key) == equal
    {
      assert r[i] in r;
    }
    FilterKeepsAll(r, field, key, equal);
  }

  /** Filtering a record put in front of a collection. */
  lemma FilterCons(x: Record, c: seq<Record>, field: string, key: Value, equal: bool)
    ensures Filter([x] + c, field, key, equal) ==
      (if Matches(x, field, key) == equal then [x] else []) + Filter(c, field, key, equal)
  {
    assert ([x] + c)[0] == x && ([x] + c)[1..] == c;
  }

  /** Filtering distributes over concatenation, keeping the order of the parts. */
  lemma {:induction false} FilterAppend(a: seq<Record>, b: seq<Record>, field: string, key: Value, equal: bool)
    ensures Filter(a + b, field, key, equal) == Filter(a, field, key, equal) + Filter(b, field, key, equal)
    decreases |a|
  {
    if a == [] {
      assert a + b == b;
    } else {
      var x, t := a[0], a[1..];
      var head := if Matches(x, field, key) == equal then [x] else [];
      calc {
        Filter(a + b, field, key, equal);
        { assert a + b == [x] + (t + b); }
        Filter([x] + (t + b), field, key, equal);
        { FilterCons(x, t + b, field, key, equal); }
        head + Filter(t + b, field, key, equal);
        { FilterAppend(t, b, field, key, equal); }
        head + (Filter(t, field, key, equal) + Filter(b, field, key, equal));
        (head + Filter(t, field, key, equal)) + Filter(b, field, key, equal);
        { FilterCons(x, t, field, key, equal); assert a == [x] + t; }
        Filter(a, field, key, equal) + Filter(b, field, key, equal);
      }
    }
  }

  /** Filtering a collection of at most one record. */
  lemma FilterSingle(h: seq<Record>, x: Record, field: string, key: Value, equal: bool)
    requires h == [] || h == [x]
    ensures Filter(h, field, key, equal) == if h == [x] && Matches(x, field, key) == equal then [x] else []
  {
    if h == [x] {
      FilterCons(x, [], field, key, equal);
      assert [x] + [] == [x];
    }
  }

  /** Two filters may be applied in either order. */
  lemma {:induction false} FilterCommutes(c: seq<Record>, f1: string, k1: Value, e1: bool, f2: string, k2: Value, e2: bool)
    ensures Filter(Filter(c, f1, k1, e1), f2, k2, e2) == Filter(Filter(c, f2, k2, e2), f1, k1, e1)
    decreases |c|
  {
    if c != [] {
      var x, t := c[0], c[1..];
      assert c == [x] + t;
      var h1 := if Matches(x, f1, k1) == e1 then [x] else [];
      var h2 := if Matches(x, f2, k2) == e2 then [x] else [];
      var both := if Matches(x, f1, k1) == e1 && Matches(x, f2, k2) == e2 then [x] else [];
      calc {
        Filter(Filter(c, f1, k1, e1), f2, k2, e2);
        { FilterCons(x, t, f1, k1, e1); }
        Filter(h1 + Filter(t, f1, k1, e1), f2, k2, e2);
        { FilterAppend(h1, Filter(t, f1, k1, e1), f2, k2, e2); FilterSingle(h1, x, f2, k2, e2); }
        both + Filter(Filter(t, f1, k1, e1), f2, k2, e2);
        { FilterCommutes(t, f1, k1, e1, f2, k2, e2); }
        both + Filter(Filter(t, f2, k2, e2), f1, k1, e1);
        { FilterAppend(h2, Filter(t, f2, k2, e2), f1, k1, e1); FilterSingle(h2, x, f1, k1, e1); }
        Filter(h2 + Filter(t, f2, k2, e2), f1, k1, e1);
        { FilterCons(x, t, f2, k2, e2); }
        Filter(Filter(c, f2, k2, e2), f1, k1, e1);
      }
    }
  }
}
