// The visible todo sequence as a value, and what the operations do to it.
module TodoItems {
  import opened Sequences

  datatype Item = Item(id: string, text: string, done: bool)

  /** Non-empty identifiers, each used once. */
  predicate Indexed(items: seq<Item>) {
    && (forall i :: 0 <= i < |items| ==> items[i].id != "")
    && (forall i, j :: 0 <= i < j < |items| ==> items[i].id != items[j].id)
  }

  predicate Has(items: seq<Item>, id: string) {
    exists i :: 0 <= i < |items| && items[i].id == id
  }

  function Created(items: seq<Item>, id: string, text: string): seq<Item> {
    items + [Item(id, text, false)]
  }

  function Updated(items: seq<Item>, id: string, text: string, done: bool): seq<Item> {
    seq(|items|, i requires 0 <= i < |items| => if items[i].id == id then Item(id, text, done) else items[i])
  }

  function Deleted(items: seq<Item>, id: string): seq<Item> {
    if items == [] then []
    else (if items[0].id == id then [] else [items[0]]) + Deleted(items[1..], id)
  }

  lemma {:induction false} DeletedAbsent(items: seq<Item>, id: string)
    requires !Has(items, id)
    ensures Deleted(items, id) == items
  {
    if items != [] {
      assert forall i :: 0 <= i < |items[1..]| ==> items[1..][i] == items[i + 1];
      DeletedAbsent(items[1..], id);
    }
  }

  /** Deleting an identifier removes its one item and keeps the order of the others. */
  lemma {:induction false} DeletedAt(items: seq<Item>, i: nat)
    requires Indexed(items) && i < |items|
    ensures Deleted(items, items[i].id) == Without(items, i)
    ensures Indexed(Deleted(items, items[i].id)) && !Has(Deleted(items, items[i].id), items[i].id)
  {
    if i == 0 {
      DeletedAbsent(items[1..], items[0].id);
    } else {
      DeletedAt(items[1..], i - 1);
      assert items[1..][i - 1] == items[i];
      assert items[0].id != items[i].id;
      assert [items[0]] + items[1..][..i - 1] == items[..i];
      assert items[1..][i..] == items[i + 1..];
      assert Deleted(items, items[i].id) == [items[0]] + Deleted(items[1..], items[i].id);
    }
  }

  // ---- Runs ----

  datatype Op =
    | CreateOp(id: string, text: string)
    | UpdateOp(id: string, text: string, done: bool)
    | DeleteOp(id: string)

  function Apply(items: seq<Item>, op: Op): seq<Item> {
    match op
    case CreateOp(id, text) => Created(items, id, text)
    case UpdateOp(id, text, done) => Updated(items, id, text, done)
    case DeleteOp(id) => Deleted(items, id)
  }

  function Run(items: seq<Item>, ops: seq<Op>): seq<Item>
    decreases |ops|
  {
    if ops == [] then items else Run(Apply(items, ops[0]), ops[1..])
  }

  /** Every create brings a non-empty identifier that is not in use. */
  predicate NewIds(items: seq<Item>, ops: seq<Op>)
    decreases |ops|
  {
    ops == [] ||
    ((ops[0].CreateOp? ==> ops[0].id != "" && !Has(items, ops[0].id)) && NewIds(Apply(items, ops[0]), ops[1..]))
  }

  lemma ApplyKeepsIndexed(items: seq<Item>, op: Op)
    requires Indexed(items) && (op.CreateOp? ==> op.id != "" && !Has(items, op.id))
    ensures Indexed(Apply(items, op))
  {
    if op.DeleteOp? {
      if Has(items, op.id) {
        var i :| 0 <= i < |items| && items[i].id == op.id;
        DeletedAt(items, i);
      } else {
        DeletedAbsent(items, op.id);
      }
    }
  }

  /** A create keeps the identifiers distinct and non-empty exactly when it brings a new one. */
  lemma CreateNeedsNewId(items: seq<Item>, id: string, text: string)
    requires Indexed(items)
    ensures Indexed(Created(items, id, text)) <==> id != "" && !Has(items, id)
  {
    var grown := Created(items, id, text);
    assert grown[|items|].id == id && forall i :: 0 <= i < |items| ==> grown[i] == items[i];
  }

  /** Identifiers stay distinct and non-empty over every run of operations. */
  lemma {:induction false} RunKeepsIndexed(items: seq<Item>, ops: seq<Op>)
    requires Indexed(items) && NewIds(items, ops)
    ensures Indexed(Run(items, ops))
    decreases |ops|
  {
    if ops != [] {
      ApplyKeepsIndexed(items, ops[0]);
      RunKeepsIndexed(Apply(items, ops[0]), ops[1..]);
    }
  }

  /** A create adds an item with its text, not done, behind the others; an update replaces its item
      in place, and a delete takes out its item and keeps the order of the others; with an unknown
      identifier neither changes anything. */
  lemma OperationsKeepOrder(items: seq<Item>, op: Op)
    requires Indexed(items)
    ensures op.CreateOp? ==> |Apply(items, op)| == |items| + 1 && items <= Apply(items, op)
    ensures op.CreateOp? ==>
      var item := Apply(items, op)[|items|]; item.id == op.id && item.text == op.text && !item.done
    ensures op.UpdateOp? ==> forall i :: 0 <= i < |items| ==>
      Apply(items, op)[i] == if items[i].id == op.id then Item(op.id, op.text, op.done) else items[i]
    ensures op.DeleteOp? && !Has(items, op.id) ==> Apply(items, op) == items
    ensures op.DeleteOp? ==>
      forall i :: 0 <= i < |items| && items[i].id == op.id ==> Apply(items, op) == Without(items, i)
  {
    if op.DeleteOp? {
      if Has(items, op.id) {
        var i :| 0 <= i < |items| && items[i].id == op.id;
        DeletedAt(items, i);
      } else {
        DeletedAbsent(items, op.id);
      }
    }
  }

  // ---- Loading ----

  predicate Keeps(kept: seq<Item>, item: Option<Item>) {
    item.Some? && item.value.id != "" && !Has(kept, item.value.id)
  }

  /** The loaded records without nil ones, empty identifiers and repetitions. */
  function Loaded(kept: seq<Item>, records: seq<Option<Item>>): seq<Item>
    decreases |records|
  {
    if records == [] then kept
    else Loaded(if Keeps(kept, records[0]) then kept + [records[0].value] else kept, records[1..])
  }

  lemma {:induction false} LoadedAppend(kept: seq<Item>, records: seq<Option<Item>>, last: Option<Item>)
    ensures Loaded(kept, records + [last]) ==
      var before := Loaded(kept, records); if Keeps(before, last) then before + [last.value] else before
    decreases |records|
  {
    if records == [] {
      assert (records + [last])[1..] == [];
    } else {
      assert (records + [last])[1..] == records[1..] + [last];
      LoadedAppend(if Keeps(kept, records[0]) then kept + [records[0].value] else kept, records[1..], last);
    }
  }

  /** Position k holds the first record with its identifier. */
  predicate IsFirst(records: seq<Option<Item>>, k: nat)
    requires k < |records|
  {
    records[k].Some? && records[k].value.id != "" &&
    forall j :: 0 <= j < k && records[j].Some? ==> records[j].value.id != records[k].value.id
  }

  /** Item i comes from record at[i]: these are exactly the first records of every non-empty
      identifier, in order. */
  predicate AreFirsts(records: seq<Option<Item>>, items: seq<Item>, at: seq<nat>) {
    && |at| == |items|
    && (forall i :: 0 <= i < |at| ==> at[i] < |records| && IsFirst(records, at[i]) && records[at[i]] == Some(items[i]))
    && (forall i, j :: 0 <= i < j < |at| ==> at[i] < at[j])
    && (forall k :: 0 <= k < |records| && IsFirst(records, k) ==> k in at)
  }

  lemma FirstsOfFront(front: seq<Option<Item>>, last: Option<Item>, k: nat)
    requires k < |front|
    ensures IsFirst(front + [last], k) <==> IsFirst(front, k)
  {
    var records := front + [last];
    assert forall j :: 0 <= j <= k ==> records[j] == front[j];
  }

  lemma KeepLast(front: seq<Option<Item>>, last: Option<Item>, items: seq<Item>, at: seq<nat>)
    requires AreFirsts(front, items, at) && Keeps(items, last)
    ensures AreFirsts(front + [last], items + [last.value], at + [|front|])
  {
    var records := front + [last];
    forall k | 0 <= k < |front|
      ensures IsFirst(records, k) <==> IsFirst(front, k)
    {
      FirstsOfFront(front, last, k);
    }
    if j :| 0 <= j < |front| && records[j].Some? && records[j].value.id == last.value.id {
      FirstExists(front, j, items, at);
    }
    assert IsFirst(records, |front|);
  }

  lemma SkipLast(front: seq<Option<Item>>, last: Option<Item>, items: seq<Item>, at: seq<nat>)
    requires AreFirsts(front, items, at) && !Keeps(items, last)
    ensures AreFirsts(front + [last], items, at)
  {
    var records := front + [last];
    forall k | 0 <= k < |front|
      ensures IsFirst(records, k) <==> IsFirst(front, k)
    {
      FirstsOfFront(front, last, k);
    }
    if last.Some? && last.value.id != "" {
      var i :| 0 <= i < |items| && items[i].id == last.value.id;
      assert records[at[i]] == Some(items[i]);
    }
  }

  /** A record with a non-empty identifier has an item with the same identifier. */
  lemma {:induction false} FirstExists(records: seq<Option<Item>>, j: nat, items: seq<Item>, at: seq<nat>)
    requires AreFirsts(records, items, at)
    requires j < |records| && records[j].Some? && records[j].value.id != ""
    ensures Has(items, records[j].value.id)
    decreases j
  {
    if IsFirst(records, j) {
      var i :| 0 <= i < |at| && at[i] == j;
      assert items[i].id == records[j].value.id;
    } else {
      var k :| 0 <= k < j && records[k].Some? && records[k].value.id == records[j].value.id;
      FirstExists(records, k, items, at);
    }
  }

  /** Loading keeps exactly the first record of every non-empty identifier, in order. */
  lemma {:induction false} LoadedKeepsFirsts(records: seq<Option<Item>>) returns (at: seq<nat>)
    ensures AreFirsts(records, Loaded([], records), at)
  {
    if records == [] {
      at := [];
    } else {
      var n := |records| - 1;
      var front, last := records[..n], records[n];
      assert records == front + [last];
      at := LoadedKeepsFirsts(front);
      LoadedAppend([], front, last);
      var items := Loaded([], front);
      if Keeps(items, last) {
        KeepLast(front, last, items, at);
        at := at + [n];
      } else {
        SkipLast(front, last, items, at);
      }
    }
  }

  lemma {:induction false} LoadedIsIndexed(kept: seq<Item>, records: seq<Option<Item>>)
    requires Indexed(kept)
    ensures Indexed(Loaded(kept, records))
    decreases |records|
  {
    if records != [] {
      LoadedIsIndexed(if Keeps(kept, records[0]) then kept + [records[0].value] else kept, records[1..]);
    }
  }

  function Records(items: seq<Item>): seq<Option<Item>> {
    seq(|items|, i requires 0 <= i < |items| => Some(items[i]))
  }

  /** Loading what a store holds gives the same sequence back. */
  lemma {:induction false} LoadingIsStable(items: seq<Item>)
    requires Indexed(items)
    ensures Loaded([], Records(items)) == items
  {
    if items != [] {
      var n := |items| - 1;
      LoadingIsStable(items[..n]);
      assert Records(items) == Records(items[..n]) + [Some(items[n])];
      LoadedAppend([], Records(items[..n]), Some(items[n]));
      assert items[..n] + [items[n]] == items;
    }
  }
}
