/**
 * The question and answer collections: id assignment on create, the
 * partial-merge update of a question, delete by id and the listing of the
 * answers of one question. Questions and answers follow the same rules.
 */
module Board {
  import opened Wrappers
  import opened Json
  import opened Collection

  /** `parseInt` of a path segment: a number, or NaN (None) when it does not parse. */
  function ParsedId(p: Option<int>): (v: Value)
    ensures p.Some? ==> v == Num(p.value)
    ensures p.None? ==> forall r: Record, field: string :: !Matches(r, field, v)
  {
    if p.Some? then Num(p.value) else NaN
  }

  /**
   * The id a create assigns: 1 for an empty collection, otherwise the id of
   * the LAST stored record plus one (not the largest id).
   */
  function NextId(c: seq<Record>): (id: Value)
    ensures c == [] ==> id == Num(1)
    ensures c != [] && Get(c[|c| - 1], "id").Num? ==> id == Num(Get(c[|c| - 1], "id").n + 1)
  {
    if |c| == 0 then Num(1) else PlusOne(Get(c[|c| - 1], "id"))
  }

  /** The collection after a create: the body, with its id set, pushed at the end. */
  function Created(c: seq<Record>, body: Record): (r: seq<Record>)
    ensures |r| == |c| + 1 && r[..|c|] == c
    ensures Get(r[|c|], "id") == NextId(c)
    ensures r[|c|].Keys == body.Keys + {"id"}
    ensures forall k :: k in body && k != "id" ==> r[|c|][k] == body[k]
  {
    c + [body["id" := NextId(c)]]
  }

  /** The questions after PUT /api/questions/:id, or None when no question has that id. */
  function Updated(c: seq<Record>, p: Option<int>, patch: Record): (r: Option<seq<Record>>)
    ensures r.None? <==> forall j :: 0 <= j < |c| ==> !Matches(c[j], "id", ParsedId(p))
    ensures r.Some? ==> |r.value| == |c|
  {
    MergeFirst(c, "id", ParsedId(p), patch)
  }

  /** The collection after DELETE of id `p`: every record whose id is not `p`. */
  function Deleted(c: seq<Record>, p: Option<int>): (r: seq<Record>)
    ensures |r| <= |c|
    ensures forall x :: x in r ==> x in c && !Matches(x, "id", ParsedId(p))
  {
    Filter(c, "id", ParsedId(p), false)
  }

  /** The answers GET /api/answers/:questionId returns. */
  function ByQuestion(c: seq<Record>, p: Option<int>): (r: seq<Record>)
    ensures |r| <= |c|
    ensures forall x :: x in r ==> x in c && Matches(x, "questionId", ParsedId(p))
  {
    Filter(c, "questionId", ParsedId(p), true)
  }

  /** Creates applied one after the other, one per body. */
  ghost function CreateAll(c: seq<Record>, bodies: seq<Record>): seq<Record>
    decreases |bodies|
  {
    if bodies == [] then c else CreateAll(Created(c, bodies[0]), bodies[1..])
  }

  /** Ids are numbers, strictly increasing in stored order. */
  ghost predicate AscendingIds(c: seq<Record>)
  {
    && (forall i :: 0 <= i < |c| ==> Get(c[i], "id").Num?)
    && (forall i, j :: 0 <= i < j < |c| ==> Get(c[i], "id").n < Get(c[j], "id").n)
  }

  /**
   * The update merges the patch into the first question whose id is the
   * parsed id (patch properties win, the others stay); all other questions
   * and the length are unchanged. Without a match there is no new collection.
   */
  lemma UpdatedAt(c: seq<Record>, p: Option<int>, patch: Record)
    ensures Updated(c, p, patch).None? <==> forall j :: 0 <= j < |c| ==> !Matches(c[j], "id", ParsedId(p))
    ensures Updated(c, p, patch).Some? ==>
      var i := FindIndex(c, "id", ParsedId(p)).value;
      var r := Updated(c, p, patch).value;
      && |r| == |c|
      && Get(c[i], "id") == ParsedId(p)
      && r[i] == Spread(c[i], patch)
      && (forall j :: 0 <= j < |c| && j != i ==> r[j] == c[j])
  {
    MergeFirstAt(c, "id", ParsedId(p), patch);
  }

  /** A path id that does not parse (NaN) matches nothing: the delete keeps everything. */
  lemma DeleteUnparsedIsNoOp(c: seq<Record>)
    ensures Deleted(c, None) == c
  {
    FilterKeepsAll(c, "id", NaN, false);
  }

  /** A delete whose id matches no record keeps the collection as it was. */
  lemma DeleteWithoutMatchIsNoOp(c: seq<Record>, p: Option<int>)
    requires forall j :: 0 <= j < |c| ==> !Matches(c[j], "id", ParsedId(p))
    ensures Deleted(c, p) == c
  {
    FilterKeepsAll(c, "id", ParsedId(p), false);
  }

  /** A create makes its body visible at the end of its question's answer list, and nowhere else. */
  lemma ByQuestionAfterCreate(c: seq<Record>, body: Record, p: Option<int>)
    ensures ByQuestion(Created(c, body), p) ==
      ByQuestion(c, p) + (if Matches(body, "questionId", ParsedId(p)) then [Created(c, body)[|c|]] else [])
  {
    var created := Created(c, body)[|c|];
    assert Created(c, body) == c + [created];
    FilterAppend(c, [created], "questionId", ParsedId(p), true);
    assert Get(created, "questionId") == Get(body, "questionId");
    assert Filter([created], "questionId", ParsedId(p), true) ==
      (if Matches(created, "questionId", ParsedId(p)) then [created] else []) + Filter([], "questionId", ParsedId(p), true);
  }

  /** Listing after a delete is listing without the deleted answers. */
  lemma ByQuestionAfterDelete(c: seq<Record>, d: Option<int>, q: Option<int>)
    ensures ByQuestion(Deleted(c, d), q) == Deleted(ByQuestion(c, q), d)
  {
    FilterCommutes(c, "id", ParsedId(d), false, "questionId", ParsedId(q), true);
  }

  /** A create on a collection numbered 1..n assigns n + 1. */
  lemma CreatedKeepsNumbering(c: seq<Record>, body: Record)
    requires forall k :: 0 <= k < |c| ==> Get(c[k], "id") == Num(k + 1)
    ensures forall k :: 0 <= k < |c| + 1 ==> Get(Created(c, body)[k], "id") == Num(k + 1)
  {
    var r := Created(c, body);
    assert NextId(c) == Num(|c| + 1);
    forall k | 0 <= k < |c| + 1
      ensures Get(r[k], "id") == Num(k + 1)
    {
      if k < |c| {
        assert r[k] == r[..|c|][k];
      }
    }
  }

  /** From a collection numbered 1..n, creates number the new records n + 1, n + 2, ... in order. */
  lemma {:induction false} CreateAllNumbering(c: seq<Record>, bodies: seq<Record>)
    requires forall k :: 0 <= k < |c| ==> Get(c[k], "id") == Num(k + 1)
    ensures |CreateAll(c, bodies)| == |c| + |bodies|
    ensures forall k :: 0 <= k < |c| + |bodies| ==> Get(CreateAll(c, bodies)[k], "id") == Num(k + 1)
    decreases |bodies|
  {
    if bodies != [] {
      CreatedKeepsNumbering(c, bodies[0]);
      CreateAllNumbering(Created(c, bodies[0]), bodies[1..]);
    }
  }

  /** N creates on an empty collection, with no delete in between, assign the ids 1..N in creation order. */
  lemma CreatesFromEmptyNumberOneToN(bodies: seq<Record>)
    ensures |CreateAll([], bodies)| == |bodies|
    ensures forall k :: 0 <= k < |bodies| ==> Get(CreateAll([], bodies)[k], "id") == Num(k + 1)
  {
    CreateAllNumbering([], bodies);
  }

  /** On a collection with ascending ids, the next id is larger than every stored id, so it is fresh. */
  lemma AscendingNextIdIsFresh(c: seq<Record>)
    requires AscendingIds(c)
    ensures NextId(c).Num?
    ensures forall i :: 0 <= i < |c| ==> Get(c[i], "id").n < NextId(c).n
    ensures forall i :: 0 <= i < |c| ==> !Matches(c[i], "id", NextId(c))
  {
    if c != [] {
      assert Get(c[|c| - 1], "id").Num?;
      forall i | 0 <= i < |c|
        ensures Get(c[i], "id").n < NextId(c).n
      {
        if i < |c| - 1 {
          assert Get(c[i], "id").n < Get(c[|c| - 1], "id").n;
        }
      }
    }
  }

  /** Creates keep ids ascending. */
  lemma CreatedKeepsAscending(c: seq<Record>, body: Record)
    requires AscendingIds(c)
    ensures AscendingIds(Created(c, body))
  {
    AscendingNextIdIsFresh(c);
    var r := Created(c, body);
    assert forall i :: 0 <= i < |c| ==> r[i] == r[..|c|][i];
  }

  /** The tail of an ascending collection is ascending, and its ids all exceed the head's. */
  lemma AscendingTail(c: seq<Record>)
    requires AscendingIds(c) && c != []
    ensures AscendingIds(c[1..])
    ensures forall x :: x in c[1..] ==> Get(x, "id").Num? && Get(c[0], "id").n < Get(x, "id").n
  {
    assert forall i :: 0 <= i < |c| - 1 ==> c[1..][i] == c[i + 1];
  }

  /** A record whose id is below all ids of an ascending collection can be put in front of it. */
  lemma AscendingCons(x: Record, s: seq<Record>)
    requires AscendingIds(s) && Get(x, "id").Num?
    requires forall y :: y in s ==> Get(x, "id").n < Get(y, "id").n
    ensures AscendingIds([x] + s)
  {
    var r := [x] + s;
    assert forall j :: 0 < j < |r| ==> r[j] == s[j - 1];
    assert forall j :: 0 < j < |r| ==> r[j] in s;
  }

  /** Deletes keep ids ascending. */
  lemma {:induction false} DeletedKeepsAscending(c: seq<Record>, p: Option<int>)
    requires AscendingIds(c)
    ensures AscendingIds(Deleted(c, p))
    decreases |c|
  {
    if c != [] {
      AscendingTail(c);
      DeletedKeepsAscending(c[1..], p);
      var rest := Deleted(c[1..], p);
      if !Matches(c[0], "id", ParsedId(p)) {
        assert Deleted(c, p) == [c[0]] + rest;
        AscendingCons(c[0], rest);
      } else {
        assert Deleted(c, p) == rest;
      }
    }
  }

  /** An update whose patch does not carry an `id` keeps ids ascending. */
  lemma UpdatedKeepsAscending(c: seq<Record>, p: Option<int>, patch: Record)
    requires AscendingIds(c) && "id" !in patch
    ensures Updated(c, p, patch).Some? ==> AscendingIds(Updated(c, p, patch).value)
  {
    UpdatedAt(c, p, patch);
    if Updated(c, p, patch).Some? {
      var r := Updated(c, p, patch).value;
      assert forall j :: 0 <= j < |c| ==> Get(r[j], "id") == Get(c[j], "id");
    }
  }

  /** Create 1, 2, 3; delete 2; create: the new question gets 4. */
  lemma DeleteThenCreateExample(q1: Record, q2: Record, q3: Record, q4: Record)
    ensures var c := Created(Deleted(CreateAll([], [q1, q2, q3]), Some(2)), q4);
      |c| == 3 && Get(c[0], "id") == Num(1) && Get(c[1], "id") == Num(3) && Get(c[2], "id") == Num(4)
  {
    var c3 := CreateAll([], [q1, q2, q3]);
    CreatesFromEmptyNumberOneToN([q1, q2, q3]);
    var d := Deleted(c3, Some(2));
    assert !Matches(c3[0], "id", Num(2)) && Matches(c3[1], "id", Num(2)) && !Matches(c3[2], "id", Num(2));
    assert c3[1..][1..] == c3[2..] && c3[2..][1..] == [];
    assert Filter(c3[2..], "id", Num(2), false) == [c3[2]];
    assert Filter(c3[1..], "id", Num(2), false) == [c3[2]];
    assert d == [c3[0], c3[2]];
  }

  /**
   * The last-element rule can assign an id that is already taken: with ids
   * stored in the order 1, 3, 2 the next id is 3.
   */
  lemma LastElementRuleCollides(a: Record, b: Record, d: Record)
    ensures var c := [a["id" := Num(1)], b["id" := Num(3)], d["id" := Num(2)]];
      NextId(c) == Num(3) && Matches(c[1], "id", NextId(c))
  {
  }

  /**
   * Through the API: create 1, 2, 3, then PUT {id: 1} on question 3; the next
   * create is given id 2, which question 2 already has.
   */
  lemma PatchedIdCollides(q1: Record, q2: Record, q3: Record, q4: Record)
    ensures var c := CreateAll([], [q1, q2, q3]);
      Updated(c, Some(3), map["id" := Num(1)]).Some? &&
      var e := Created(Updated(c, Some(3), map["id" := Num(1)]).value, q4);
      |e| == 4 && Get(e[3], "id") == Num(2) && Get(e[1], "id") == Num(2)
  {
    var c := CreateAll([], [q1, q2, q3]);
    CreatesFromEmptyNumberOneToN([q1, q2, q3]);
    var patch: Record := map["id" := Num(1)];
    UpdatedAt(c, Some(3), patch);
    assert Matches(c[2], "id", Num(3));
    assert FindIndex(c, "id", Num(3)) == Some(2);
    var u := Updated(c, Some(3), patch).value;
    assert Get(u[2], "id") == Num(1);
    assert Get(u[1], "id") == Num(2);
  }
}
