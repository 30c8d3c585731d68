/**
 What a read of agy's conversations directory and of one conversation database may return.
 The database itself belongs to agy: it is an arbitrary map from row index to row.
 */
module Transcript {
  import opened Common

  type ConvId = string

  datatype Row = Row(stepType: int, payload: Bytes)
  type Db = map<int, Row>

  datatype Step = Step(idx: int, stepType: int, payload: Bytes)

  const STEP_TYPE_TEXT := 15
  const TOOL_STEP_TYPES := {5, 7, 8, 9, 17, 21, 33, 101, 132, 138}

  predicate Selected(row: Row) {
    row.stepType == STEP_TYPE_TEXT || row.stepType in TOOL_STEP_TYPES
  }

  // ----- stepsQuery -----

  ghost function Least(s: set<int>): (m: int)
    requires s != {}
    ensures IsLeast(m, s)
  {
    HasLeast(s);
    var m :| IsLeast(m, s);
    m
  }

  ghost function AnyOf<T>(s: set<T>): (x: T)
    requires s != {}
    ensures x in s
  {
    var x :| x in s;
    x
  }

  ghost predicate IsLeast(m: int, s: set<int>) {
    m in s && forall k | k in s :: m <= k
  }

  lemma {:induction false} HasLeast(s: set<int>)
    requires s != {}
    ensures exists m :: IsLeast(m, s)
  {
    var x := AnyOf(s);
    var rest := s - {x};
    assert forall k | k in s :: k in rest || k == x;
    if rest == {} {
      assert IsLeast(x, s);
    } else {
      HasLeast(rest);
      var y :| IsLeast(y, rest);
      assert IsLeast(if x < y then x else y, s);
    }
  }

  ghost function RowsOf(db: Db, keys: set<int>): seq<Step>
    requires keys <= db.Keys
    decreases |keys|
  {
    if keys == {} then []
    else
      var k := Least(keys);
      [Step(k, db[k].stepType, db[k].payload)] + RowsOf(db, keys - {k})
  }

  ghost function SelectedKeys(db: Db, base: int): set<int> {
    set k | k in db.Keys && k > base && Selected(db[k])
  }

  /** Rows above the base of a text or tool type, ordered by index. */
  ghost function Query(db: Db, base: int): seq<Step> {
    RowsOf(db, SelectedKeys(db, base))
  }

  ghost predicate Ordered(steps: seq<Step>) {
    forall i, j :: 0 <= i < j < |steps| ==> steps[i].idx < steps[j].idx
  }

  lemma {:induction false} RowsOfContract(db: Db, keys: set<int>)
    requires keys <= db.Keys
    ensures Ordered(RowsOf(db, keys))
    ensures forall s :: s in RowsOf(db, keys) <==> s.idx in keys && db[s.idx] == Row(s.stepType, s.payload)
    decreases |keys|
  {
    if keys != {} {
      var k := Least(keys);
      RowsOfContract(db, keys - {k});
      var rest := RowsOf(db, keys - {k});
      assert forall s | s in rest :: s.idx in keys - {k};
      assert forall i :: 0 <= i < |rest| ==> rest[i] in rest;
    }
  }

  /** A query returns each qualifying row of the database once, as it stands, in index order. */
  lemma QueryContract(db: Db, base: int)
    ensures Ordered(Query(db, base))
    ensures forall s :: s in Query(db, base) <==>
              s.idx > base && s.idx in db && db[s.idx] == Row(s.stepType, s.payload) && Selected(db[s.idx])
  {
    RowsOfContract(db, SelectedKeys(db, base));
  }

  // ----- OnlyNewSince -----

  datatype NewConversation = NoNew | OnlyNew(id: ConvId) | Ambiguous

  ghost function NewSince(before: set<ConvId>, now: set<ConvId>): NewConversation {
    if now <= before then NoNew
    else if id :| now - before == {id} then OnlyNew(id)
    else Ambiguous
  }

  method OnlyNewSince(before: set<ConvId>, now: set<ConvId>) returns (r: NewConversation)
    ensures r == NewSince(before, now)
    ensures r.NoNew? <==> now - before == {}
    ensures forall id :: r == OnlyNew(id) <==> now - before == {id}
  {
    var created: seq<ConvId> := [];
    var left := now;
    while left != {}
      invariant left <= now
      invariant forall id :: id in created <==> id in now - left && id !in before
      invariant forall i, j :: 0 <= i < j < |created| ==> created[i] != created[j]
      decreases left
    {
      var id :| id in left;
      if id !in before {
        created := created + [id];
      }
      left := left - {id};
    }
    assert forall id :: id in created <==> id in now - before;
    if |created| == 1 {
      assert created[0] in created;
      assert now - before == {created[0]};
      return OnlyNew(created[0]);
    } else if |created| == 0 {
      return NoNew;
    } else {
      assert created[0] in created && created[1] in created;
      return Ambiguous;
    }
  }
}
