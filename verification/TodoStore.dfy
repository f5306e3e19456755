// The todo store: a doubly linked list of nodes and a map from identifiers to nodes.
module TodoStore {
  import opened Sequences
  import opened TodoItems

  class Todo {
    var id: string
    var text: string
    var done: bool

    constructor (id: string, text: string, done: bool)
      ensures this.id == id && this.text == text && this.done == done
    {
      this.id, this.text, this.done := id, text, done;
    }

    function Value(): Item
      reads this
    {
      Item(id, text, done)
    }
  }

  /** The todos have these values, in order. */
  ghost predicate Show(todos: seq<Todo>, items: seq<Item>)
    reads todos
  {
    && |todos| == |items|
    && forall i :: 0 <= i < |todos| ==>
         && todos[i].id == items[i].id
         && todos[i].text == items[i].text
         && todos[i].done == items[i].done
  }

  /** Exactly the todo of the identifier was replaced; nothing changed if it is unknown. */
  ghost predicate Swapped(before: seq<Todo>, items: seq<Item>, id: string, updated: Todo?, after: seq<Todo>) {
    && |after| == |before| == |items|
    && forall i :: 0 <= i < |after| ==> after[i] == if items[i].id == id then updated else before[i]
  }

  lemma SwappedAt(before: seq<Todo>, items: seq<Item>, id: string, updated: Todo, i: nat)
    requires |before| == |items| && i < |items| && items[i].id == id
    requires forall j :: 0 <= j < |items| && items[j].id == id ==> j == i
    ensures Swapped(before, items, id, updated, before[i := updated])
  {
  }

  lemma SwappedNowhere(before: seq<Todo>, items: seq<Item>, id: string)
    requires |before| == |items| && !Has(items, id)
    ensures Swapped(before, items, id, null, before)
  {
    assert forall i :: 0 <= i < |items| ==> items[i].id != id;
  }

  /** The records have these contents; a nil record has none. */
  ghost predicate Contain(records: seq<Todo?>, contents: seq<Option<Item>>)
    reads records
  {
    && |records| == |contents|
    && forall i :: 0 <= i < |records| ==>
         if records[i] == null then contents[i] == None
         else contents[i] == Some(Item(records[i].id, records[i].text, records[i].done))
  }

  lemma ShowAppend(todos: seq<Todo>, items: seq<Item>, todo: Todo)
    requires Show(todos, items)
    ensures Show(todos + [todo], items + [todo.Value()])
  {
  }

  lemma ShowWithout(todos: seq<Todo>, items: seq<Item>, i: nat)
    requires Show(todos, items) && i < |items|
    ensures Show(Without(todos, i), Without(items, i))
  {
  }

  lemma ShowReplace(todos: seq<Todo>, items: seq<Item>, i: nat, todo: Todo)
    requires Show(todos, items) && i < |items|
    ensures Show(todos[i := todo], items[i := todo.Value()])
  {
  }

  class Node {
    var prev: Node?
    var next: Node?
    var value: Todo?
    ghost var position: nat

    constructor (value: Todo, ghost position: nat)
      ensures this.value == value && prev == null && next == null && this.position == position
    {
      this.value, this.position := value, position;
      prev, next := null, null;
    }
  }

  ghost predicate Neighbours(nodes: seq<Node>, i: nat)
    requires i < |nodes|
    reads nodes`prev, nodes`next
  {
    && nodes[i].prev == (if i == 0 then null else nodes[i - 1])
    && nodes[i].next == (if i == |nodes| - 1 then null else nodes[i + 1])
  }

  /** Node i knows its position and is linked to its neighbours. */
  ghost predicate LinkedAt(nodes: seq<Node>, i: nat)
    requires i < |nodes|
    reads nodes`prev, nodes`next, nodes`position
  {
    nodes[i].position == i && Neighbours(nodes, i)
  }

  /** The map sends each identifier to the node that holds its item, and has no other keys. */
  ghost predicate Maps(byId: map<string, Node>, nodes: seq<Node>, items: seq<Item>) {
    && |items| == |nodes|
    && (forall i :: 0 <= i < |items| ==> items[i].id in byId && byId[items[i].id] == nodes[i])
    && (forall id {:trigger Has(items, id)} :: id in byId ==> Has(items, id))
  }

  lemma MapsInsert(byId: map<string, Node>, nodes: seq<Node>, items: seq<Item>, node: Node, item: Item)
    requires Maps(byId, nodes, items) && Indexed(items) && item.id != "" && !Has(items, item.id)
    ensures Maps(byId[item.id := node], nodes + [node], items + [item]) && Indexed(items + [item])
  {
    var grown := items + [item];
    forall id | id in byId[item.id := node]
      ensures Has(grown, id)
    {
      if id == item.id {
        assert grown[|items|].id == id;
      } else {
        assert Has(items, id);
        var i :| 0 <= i < |items| && items[i].id == id;
        assert grown[i].id == id;
      }
    }
  }

  lemma MapsDelete(byId: map<string, Node>, nodes: seq<Node>, items: seq<Item>, i: nat)
    requires Maps(byId, nodes, items) && Indexed(items) && i < |items|
    ensures Maps(byId - {items[i].id}, Without(nodes, i), Without(items, i)) && Indexed(Without(items, i))
  {
    var rest := Without(items, i);
    forall id | id in byId - {items[i].id}
      ensures Has(rest, id)
    {
      assert Has(items, id);
      var j :| 0 <= j < |items| && items[j].id == id;
      assert rest[if j < i then j else j - 1].id == id;
    }
  }

  lemma MapsReplace(byId: map<string, Node>, nodes: seq<Node>, items: seq<Item>, i: nat, item: Item)
    requires Maps(byId, nodes, items) && Indexed(items) && i < |items| && item.id == items[i].id
    ensures Maps(byId, nodes, items[i := item]) && Indexed(items[i := item])
  {
    forall id | id in byId
      ensures Has(items[i := item], id)
    {
      assert Has(items, id);
      var j :| 0 <= j < |items| && items[j].id == id;
      assert items[i := item][j].id == id;
    }
  }

  /** The doubly linked list, with its nodes and their todos in order. */
  class List {
    var first: Node?
    var last: Node?
    ghost var nodes: seq<Node>
    ghost var todos: seq<Todo>
    ghost var owned: set<Node>  // every node that was ever linked

    /** The list is exactly nodes, linked both ways, and node i holds todo i. */
    ghost predicate Valid()
      reads this, nodes
    {
      && first == (if nodes == [] then null else nodes[0])
      && last == (if nodes == [] then null else nodes[|nodes| - 1])
      && (forall i {:trigger LinkedAt(nodes, i)} :: 0 <= i < |nodes| ==> LinkedAt(nodes, i))
      && |todos| == |nodes|
      && (forall i :: 0 <= i < |nodes| ==> nodes[i].value == todos[i])
      && forall i :: 0 <= i < |nodes| ==> nodes[i] in owned
    }

    constructor ()
      ensures Valid() && nodes == [] && owned == {}
    {
      first, last, nodes, todos, owned := null, null, [], [], {};
    }

    /** Links a node behind the last one. */
    method Link(node: Node)
      requires Valid() && node !in nodes && node.next == null && node.position == |nodes|
      modifies this`first, this`last, nodes`next, node`prev
      ensures var grown := nodes + [node];
        && first == grown[0] && last == node
        && forall j {:trigger LinkedAt(grown, j)} :: 0 <= j < |grown| ==> LinkedAt(grown, j)
    {
      ghost var grown := nodes + [node];
      node.prev := last;
      if last == null {
        first := node;
      } else {
        assert LinkedAt(nodes, |nodes| - 1);
        last.next := node;
      }
      last := node;
      forall j | 0 <= j < |grown|
        ensures LinkedAt(grown, j)
      {
        assert j < |nodes| ==> old(LinkedAt(nodes, j));
      }
    }

    /** Appends a new node. */
    method PushBack(todo: Todo) returns (node: Node)
      requires Valid()
      modifies this`first, this`last, this`nodes, this`todos, this`owned, nodes`next
      ensures Valid()
      ensures fresh(node) && owned == old(owned) + {node}
      ensures nodes == old(nodes) + [node] && todos == old(todos) + [todo]
    {
      node := new Node(todo, |nodes|);
      Link(node);
      nodes, todos, owned := nodes + [node], todos + [todo], owned + {node};
    }

    /** Takes node i out of the links around it. */
    method Unlink(node: Node, ghost i: nat)
      requires Valid() && i < |nodes| && nodes[i] == node
      modifies this`first, this`last, nodes`prev, nodes`next
      ensures var rest := Without(nodes, i);
        && first == (if rest == [] then null else rest[0])
        && last == (if rest == [] then null else rest[|rest| - 1])
        && forall j {:trigger Neighbours(rest, j)} :: 0 <= j < |rest| ==> Neighbours(rest, j)
    {
      ghost var rest := Without(nodes, i);
      assert LinkedAt(nodes, i);
      assert i > 0 ==> LinkedAt(nodes, i - 1);
      assert i + 1 < |nodes| ==> LinkedAt(nodes, i + 1);
      if node.prev == null {
        first := node.next;
      } else {
        node.prev.next := node.next;
      }
      if node.next == null {
        last := node.prev;
      } else {
        node.next.prev := node.prev;
      }
      node.prev, node.next := null, null;
      forall j | 0 <= j < |rest|
        ensures Neighbours(rest, j)
      {
        assert old(LinkedAt(nodes, if j < i then j else j + 1));
      }
    }

    /** Moves the positions behind an unlinked node down by one. */
    ghost method Renumber(before: seq<Node>, i: nat, rest: seq<Node>)
      requires i < |before| && rest == Without(before, i)
      requires forall j :: 0 <= j < |before| ==> before[j].position == j
      modifies before`position
      ensures forall j :: 0 <= j < |rest| ==> rest[j].position == j
    {
      forall n | n in before[i + 1..] {
        n.position := n.position - 1;
      }
    }

    /** Unlinks node i and moves the positions behind it. */
    method Detach(node: Node, ghost i: nat)
      requires Valid() && i < |nodes| && nodes[i] == node
      modifies this`first, this`last, nodes`prev, nodes`next, nodes`position
      ensures var rest := Without(nodes, i);
        && first == (if rest == [] then null else rest[0])
        && last == (if rest == [] then null else rest[|rest| - 1])
        && forall j {:trigger LinkedAt(rest, j)} :: 0 <= j < |rest| ==> LinkedAt(rest, j)
    {
      ghost var rest := Without(nodes, i);
      forall j | 0 <= j < |nodes|
        ensures nodes[j].position == j
      {
        assert LinkedAt(nodes, j);
      }
      Unlink(node, i);
      Renumber(nodes, i, rest);
      forall j | 0 <= j < |rest|
        ensures LinkedAt(rest, j)
      {
        assert Neighbours(rest, j);
      }
    }

    /** Removes node i from the list; the others keep their order. */
    method Remove(node: Node, ghost i: nat)
      requires Valid() && i < |nodes| && nodes[i] == node
      modifies this`first, this`last, this`nodes, this`todos, nodes`prev, nodes`next, nodes`position
      ensures Valid()
      ensures nodes == old(Without(nodes, i)) && todos == old(Without(todos, i))
    {
      Detach(node, i);
      nodes, todos := Without(nodes, i), Without(todos, i);
    }

    /** Puts a todo in the place of the one that node i holds. */
    method Replace(node: Node, todo: Todo, ghost i: nat)
      requires Valid() && i < |nodes| && nodes[i] == node
      modifies this`todos, nodes`value
      ensures Valid() && nodes == old(nodes) && todos == old(todos)[i := todo]
    {
      assert LinkedAt(nodes, i);
      forall j | 0 <= j < |nodes| && j != i
        ensures nodes[j] != node
      {
        assert LinkedAt(nodes, j);
      }
      node.value := todo;
      todos := todos[i := todo];
    }

    /** The todos in list order, by walking the links. */
    method Walk() returns (snapshot: seq<Todo>)
      requires Valid()
      ensures snapshot == todos
    {
      snapshot := [];
      var node := first;
      while node != null
        invariant |snapshot| <= |nodes| && snapshot == todos[..|snapshot|]
        invariant node == if |snapshot| == |nodes| then null else nodes[|snapshot|]
        decreases |nodes| - |snapshot|
      {
        assert LinkedAt(nodes, |snapshot|);
        var todo := node.value;
        if todo == null {
          assert false;
        }
        snapshot := snapshot + [todo];
        node := node.next;
      }
    }
  }

  /** The store; items is its visible sequence. */
  class Store {
    const list: List
    var byId: map<string, Node>
    var persistSignal: bool
    ghost var items: seq<Item>

    ghost predicate Valid()
      reads this, list, list.nodes, list.todos
    {
      list.Valid() && Show(list.todos, items) && Maps(byId, list.nodes, items) && Indexed(items)
    }

    constructor ()
      ensures Valid() && items == [] && !persistSignal
      ensures fresh(list) && list.nodes == [] && list.owned == {}
    {
      list := new List();
      byId, persistSignal, items := map[], false, [];
    }

    method PushMapped(todo: Todo) returns (node: Node)
      requires list.Valid()
      modifies this`byId, list`first, list`last, list`nodes, list`todos, list`owned, list.nodes`next
      ensures list.Valid() && fresh(node) && list.owned == old(list.owned) + {node}
      ensures list.nodes == old(list.nodes) + [node] && list.todos == old(list.todos) + [todo]
      ensures byId == old(byId)[todo.id := node]
    {
      node := list.PushBack(todo);
      byId := byId[todo.id := node];
    }

    /** Appends a todo with a new identifier. */
    method Insert(todo: Todo) returns (node: Node)
      requires Valid() && todo.id != "" && !Has(items, todo.id)
      modifies this`byId, this`items, list`first, list`last, list`nodes, list`todos, list`owned, list.nodes`next
      ensures Valid() && items == old(items) + [todo.Value()] && list.todos == old(list.todos) + [todo]
      ensures fresh(node) && list.nodes == old(list.nodes) + [node] && list.owned == old(list.owned) + {node}
    {
      ghost var todos, nodes, map0 := list.todos, list.nodes, byId;
      node := PushMapped(todo);
      MapsInsert(map0, nodes, items, node, todo.Value());
      ShowAppend(todos, items, todo);
      items := items + [todo.Value()];
    }

    /** Takes over one loaded record, unless it is nil, has no identifier or repeats one. */
    method LoadOne(todo: Todo?, ghost content: Option<Item>)
      requires Valid() && Contain([todo], [content])
      modifies this`byId, this`items, list`first, list`last, list`nodes, list`todos, list`owned, list.nodes`next
      ensures Valid() && items == if Keeps(old(items), content) then old(items) + [content.value] else old(items)
      ensures fresh(list.owned - old(list.owned))
    {
      assert [todo][0] == todo && [content][0] == content;
      if todo == null || todo.id == "" {
        return;
      }
      assert todo.id in byId || !Has(items, todo.id);
      if todo.id in byId {
        assert Has(items, todo.id);
        return;
      }
      var _ := Insert(todo);
    }

    /** Rebuilds an empty store from loaded records, whose contents are given. */
    method Load(records: seq<Todo?>, ghost contents: seq<Option<Item>>)
      requires Valid() && items == [] && list.owned == {} && Contain(records, contents)
      modifies this`byId, this`items, list`first, list`last, list`nodes, list`todos, list`owned
      ensures Valid() && items == Loaded([], contents)
      ensures fresh(list.owned)
    {
      for k := 0 to |records|
        invariant Valid() && fresh(list.owned) && Contain(records, contents)
        invariant items == Loaded([], contents[..k])
      {
        assert contents[..k + 1] == contents[..k] + [contents[k]];
        LoadedAppend([], contents[..k], contents[k]);
        LoadOne(records[k], contents[k]);
      }
      assert contents[..|records|] == contents;
    }

    /** One token is enough, however many changes are not saved yet. */
    method SignalPersist()
      requires Valid()
      modifies this`persistSignal
      ensures Valid() && persistSignal
    {
      persistSignal := true;
    }

    /** The identifier is new, as the source takes from uuid.New. */
    method Create(id: string, text: string) returns (todo: Todo)
      requires Valid() && id != "" && !Has(items, id)
      modifies this`byId, this`items, this`persistSignal
      modifies list`first, list`last, list`nodes, list`todos, list`owned, list.owned`next
      ensures Valid() && items == Created(old(items), id, text) && persistSignal
      ensures list.todos == old(list.todos) + [todo]
      ensures fresh(todo) && todo.Value() == Item(id, text, false)
      ensures fresh(list.owned - old(list.owned))
    {
      todo := new Todo(id, text, false);
      var _ := Insert(todo);
      SignalPersist();
    }

    method Snapshot() returns (snapshot: seq<Todo>)
      requires Valid()
      ensures snapshot == list.todos && Show(snapshot, items)
    {
      snapshot := list.Walk();
    }

    /** The node that the map has for an identifier, with its place in the list. */
    lemma Place(id: string) returns (i: nat)
      requires Valid() && id in byId
      ensures i < |items| && items[i].id == id && byId[id] == list.nodes[i]
      ensures forall j :: 0 <= j < |items| && items[j].id == id ==> j == i
    {
      assert Has(items, id);
      i :| 0 <= i < |items| && items[i].id == id;
    }

    method ReplaceAt(node: Node, todo: Todo, ghost i: nat)
      requires Valid() && i < |items| && list.nodes[i] == node && todo.id == items[i].id
      modifies this`items, list`todos, list.nodes`value
      ensures Valid() && list.nodes == old(list.nodes) && items == old(items)[i := todo.Value()]
      ensures list.todos == old(list.todos)[i := todo]
    {
      ghost var todos := list.todos;
      list.Replace(node, todo, i);
      MapsReplace(byId, list.nodes, items, i, todo.Value());
      ShowReplace(todos, items, i, todo);
      items := items[i := todo.Value()];
    }

    /** Replaces the todo of an identifier by a new object; the old object is not written. */
    method Update(id: string, text: string, done: bool) returns (updated: Todo?)
      requires Valid()
      modifies this`items, this`persistSignal, list`todos, list.nodes`value
      ensures Valid() && list.nodes == old(list.nodes)
      ensures items == Updated(old(items), id, text, done)
      ensures updated != null <==> Has(old(items), id)
      ensures updated != null ==> fresh(updated) && updated.Value() == Item(id, text, done)
      ensures Swapped(old(list.todos), old(items), id, updated, list.todos)
      ensures persistSignal == (old(persistSignal) || updated != null)
    {
      if id !in byId {
        assert Updated(items, id, text, done) == items;
        SwappedNowhere(list.todos, items, id);
        return null;
      }
      var node := byId[id];
      ghost var i := Place(id);
      if node.value == null {
        assert false;
      }
      updated := new Todo(node.value.id, text, done);
      SwappedAt(list.todos, items, id, updated, i);
      assert Updated(items, id, text, done) == items[i := Item(id, text, done)];
      ReplaceAt(node, updated, i);
      SignalPersist();
    }

    method RemoveMapped(node: Node, id: string, ghost i: nat)
      requires list.Valid() && i < |list.nodes| && list.nodes[i] == node
      modifies this`byId
      modifies list`first, list`last, list`nodes, list`todos, list.nodes`prev, list.nodes`next, list.nodes`position
      ensures list.Valid() && byId == old(byId) - {id}
      ensures list.nodes == Without(old(list.nodes), i) && list.todos == Without(old(list.todos), i)
    {
      list.Remove(node, i);
      byId := byId - {id};
    }

    method DeleteAt(node: Node, id: string, ghost i: nat)
      requires Valid() && i < |items| && list.nodes[i] == node && id == items[i].id
      modifies this`byId, this`items
      modifies list`first, list`last, list`nodes, list`todos, list.nodes`prev, list.nodes`next, list.nodes`position
      ensures Valid() && items == Without(old(items), i) && list.nodes == Without(old(list.nodes), i)
      ensures list.todos == old(Without(list.todos, i))
    {
      ghost var todos, nodes, map0 := list.todos, list.nodes, byId;
      RemoveMapped(node, id, i);
      MapsDelete(map0, nodes, items, i);
      ShowWithout(todos, items, i);
      items := Without(items, i);
    }

    /** Removes the todo of an identifier; the others keep their order. */
    method Delete(id: string) returns (success: bool)
      requires Valid()
      modifies this`byId, this`items, this`persistSignal
      modifies list`first, list`last, list`nodes, list`todos, list.nodes`prev, list.nodes`next, list.nodes`position
      ensures Valid() && items == Deleted(old(items), id)
      ensures success <==> Has(old(items), id)
      ensures persistSignal == (old(persistSignal) || success)
    {
      if id !in byId {
        DeletedAbsent(items, id);
        return false;
      }
      var node := byId[id];
      ghost var i := Place(id);
      DeletedAt(items, i);
      DeleteAt(node, id, i);
      SignalPersist();
      return true;
    }
  }

  method Perform(store: Store, op: Op)
    requires store.Valid() && (op.CreateOp? ==> op.id != "" && !Has(store.items, op.id))
    modifies store`byId, store`items, store`persistSignal
    modifies store.list`first, store.list`last, store.list`nodes, store.list`todos, store.list`owned
    modifies store.list.owned`prev, store.list.owned`next, store.list.owned`position, store.list.owned`value
    ensures store.Valid() && store.items == Apply(old(store.items), op)
    ensures fresh(store.list.owned - old(store.list.owned))
  {
    match op
    case CreateOp(id, text) => var _ := store.Create(id, text);
    case UpdateOp(id, text, done) => var _ := store.Update(id, text, done);
    case DeleteOp(id) => var _ := store.Delete(id);
  }

  /** Takes a snapshot and then runs any operations. The store ends with what they do to the
      visible sequence, and the snapshot still shows what was visible when it was taken. */
  method SnapshotThenRun(store: Store, ops: seq<Op>) returns (snapshot: seq<Todo>)
    requires store.Valid() && NewIds(store.items, ops)
    modifies store`byId, store`items, store`persistSignal
    modifies store.list`first, store.list`last, store.list`nodes, store.list`todos, store.list`owned
    modifies store.list.owned`prev, store.list.owned`next, store.list.owned`position, store.list.owned`value
    ensures store.Valid() && store.items == Run(old(store.items), ops)
    ensures Show(snapshot, old(store.items))
  {
    snapshot := store.Snapshot();
    for k := 0 to |ops|
      invariant store.Valid() && Show(snapshot, old(store.items))
      invariant fresh(store.list.owned - old(store.list.owned))
      invariant NewIds(store.items, ops[k..])
      invariant Run(store.items, ops[k..]) == Run(old(store.items), ops)
    {
      assert ops[k..][0] == ops[k] && ops[k..][1..] == ops[k + 1..];
      Perform(store, ops[k]);
    }
  }
}
