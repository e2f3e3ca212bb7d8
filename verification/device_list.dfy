// The linked list of known devices: createInsNodeListDevice, findWifiNode and
// the find-or-create step of FillNodesDataPoints.
module DeviceList {

  /** Size of a node's name buffer, terminator included. */
  const DEV_NAME: nat := 64

  class Node {
    var devName: string
    var deviceNo: nat
    var next: Node?

    constructor (name: string, no: nat)
      ensures devName == name && deviceNo == no && next == null
    {
      devName, deviceNo, next := name, no, null;
    }
  }

  function Names(nodes: seq<Node>): (names: seq<string>)
    reads nodes
    ensures |names| == |nodes|
    ensures forall i :: 0 <= i < |nodes| ==> names[i] == nodes[i].devName
  {
    seq(|nodes|, i requires 0 <= i < |nodes| reads nodes => nodes[i].devName)
  }

  predicate Distinct<T(==)>(s: seq<T>)
  {
    forall i, j :: 0 <= i < j < |s| ==> s[i] != s[j]
  }

  lemma OthersDiffer(nodes: seq<Node>, last: nat)
    requires Distinct(nodes) && last < |nodes|
    ensures forall i :: 0 <= i < last ==> nodes[i] != nodes[last]
  {
  }

  lemma NewNames(nodes: seq<Node>, node: Node)
    requires Distinct(nodes) && Distinct(Names(nodes)) && node !in nodes && node.devName !in Names(nodes)
    ensures Distinct(nodes + [node]) && Distinct(Names(nodes + [node]))
  {
    DistinctSnoc(nodes, node);
    DistinctSnoc(Names(nodes), node.devName);
    hide Distinct;
    NamesSnoc(nodes + [node], Names(nodes), node.devName);
  }

  lemma NamesSnoc(nodes: seq<Node>, names: seq<string>, id: string)
    requires |nodes| == |names| + 1 && nodes[|names|].devName == id
    requires forall i :: 0 <= i < |names| ==> nodes[i].devName == names[i]
    ensures Names(nodes) == names + [id]
  {
  }

  class List {
    const root: Node          // zero-initialised static: its name is empty
    ghost var nodes: seq<Node>  // in list order, the root first

    ghost function At(i: nat): Node?
      reads this
    {
      if i < |nodes| then nodes[i] else null
    }

    ghost predicate Valid()
      reads this, nodes
    {
      && nodes != [] && nodes[0] == root && root.devName == ""
      && Distinct(nodes) && Distinct(Names(nodes))
      && (forall i :: 0 <= i < |nodes| ==> nodes[i].next == At(i + 1))
      && (forall i :: 1 <= i < |nodes| ==> nodes[i].deviceNo == i - 1)
    }

    constructor ()
      ensures Valid() && fresh(nodes) && Names(nodes) == [""]
    {
      root := new Node("", 0);
      new;
      nodes := [root];
    }

    /** Returns the unique node with that name, or null exactly when there is
        none. */
    method Find(id: string) returns (node: Node?)
      requires Valid()
      ensures node == null <==> id !in Names(nodes)
      ensures node != null ==> node == nodes[FirstIndex(Names(nodes), id)]
    {
      var looper: Node? := root;
      ghost var i := 0;
      while looper != null
        invariant 0 <= i <= |nodes| && looper == At(i)
        invariant id !in Names(nodes)[..i]
        decreases |nodes| - i
      {
        if looper.devName == id {
          assert Names(nodes)[i] == id;
          assert FirstIndex(Names(nodes), id) == i;
          return looper;
        }
        looper := looper.next;
        i := i + 1;
      }
      return null;
    }

    /** The walk of createInsNodeListDevice: stops at the name or at the end. */
    method Walk(id: string) returns (looper: Node, count: nat)
      requires Valid()
      ensures count < |nodes| && looper == nodes[count]
      ensures looper.devName == id <==> id in Names(nodes)
      ensures looper.devName != id ==> count == |nodes| - 1
    {
      count, looper := 0, root;
      while looper.next != null && looper.devName != id
        invariant count < |nodes| && looper == nodes[count]
        invariant id !in Names(nodes)[..count]
        decreases |nodes| - count
      {
        looper := looper.next;
        count := count + 1;
      }
      assert looper.next == At(count + 1);
      assert Names(nodes)[count] == looper.devName;
    }

    /** Valid, without At. */
    lemma ValidFacts()
      requires Valid()
      ensures nodes != [] && nodes[0] == root && root.devName == "" && Distinct(nodes) && Distinct(Names(nodes))
      ensures forall i :: 0 <= i < |nodes| - 1 ==> nodes[i].next == nodes[i + 1]
      ensures forall i :: 1 <= i < |nodes| ==> nodes[i].deviceNo == i - 1
    {
    }

    lemma LinkedIsValid(before: seq<Node>, node: Node)
      requires nodes == before + [node] && before != []
      requires before[0] == root && root.devName == "" && Distinct(nodes) && Distinct(Names(nodes))
      requires forall i :: 0 <= i < |before| - 1 ==> before[i].next == before[i + 1]
      requires before[|before| - 1].next == node && node.next == null
      requires forall i :: 1 <= i < |before| ==> before[i].deviceNo == i - 1
      requires node.deviceNo == |before| - 1
      ensures Valid()
    {
      hide Distinct, Names;
      forall i | 0 <= i < |nodes| ensures nodes[i].next == At(i + 1) {
        if i < |before| { assert nodes[i] == before[i]; }
      }
      forall i | 1 <= i < |nodes| ensures nodes[i].deviceNo == i - 1 {
        if i < |before| { assert nodes[i] == before[i]; }
      }
    }

    /** looper->next = node. */
    method Link(last: Node, node: Node)
      requires Valid() && last == nodes[|nodes| - 1] && node !in nodes && node.next == null
      requires node.devName !in Names(nodes) && node.deviceNo == |nodes| - 1
      modifies this`nodes, last`next
      ensures Valid() && nodes == old(nodes) + [node]
    {
      ghost var before := nodes;
      ValidFacts();
      NewNames(before, node);
      OthersDiffer(before, |before| - 1);
      hide Distinct, Names, Valid, At;
      last.next := node;
      nodes := nodes + [node];
      LinkedIsValid(before, node);
    }

    /** Links a new node behind the last one. */
    method Append(last: Node, id: string, count: nat) returns (node: Node)
      requires Valid() && count == |nodes| - 1 && last == nodes[count] && id !in Names(nodes)
      modifies this`nodes, last`next
      ensures Valid() && fresh(node) && nodes == old(nodes) + [node] && Names(nodes) == old(Names(nodes)) + [id]
      ensures node.devName == id && node.deviceNo == count
    {
      ghost var names := Names(nodes);
      node := new Node(id, count);
      hide Valid, Distinct;
      Link(last, node);
      NamesSnoc(nodes, names, id);
    }

    /** Appends a node for a new name, numbered by its creation order; a known
        name yields null and changes nothing. Existing nodes keep their place, name
        and number. */
    method Create(id: string) returns (node: Node?)
      requires Valid() && |id| < DEV_NAME
      modifies this`nodes, set n | n in nodes
      ensures Valid()
      ensures node == null <==> id in old(Names(nodes))
      ensures Names(nodes) == Register(old(Names(nodes)), id)
      ensures node == null ==> nodes == old(nodes) && unchanged(old(nodes))
      ensures node != null ==>
        && fresh(node) && nodes == old(nodes) + [node]
        && node.devName == id && node.deviceNo == |old(nodes)| - 1
      ensures forall n :: n in old(nodes) ==> n.devName == old(n.devName) && n.deviceNo == old(n.deviceNo)
    {
      var looper, count := Walk(id);
      if looper.devName != id {
        node := Append(looper, id, count);
      } else {
        node := null;
      }
    }

    /** FillNodesDataPoints: the device's node, created on first use. */
    method FindOrCreate(id: string) returns (node: Node)
      requires Valid() && |id| < DEV_NAME
      modifies this`nodes, set n | n in nodes
      ensures Valid()
      ensures Names(nodes) == Register(old(Names(nodes)), id)
      ensures node == nodes[FirstIndex(Names(nodes), id)]
      ensures old(nodes) <= nodes && forall n :: n in nodes ==> n in old(nodes) || fresh(n)
      ensures forall n :: n in old(nodes) ==> n.devName == old(n.devName) && n.deviceNo == old(n.deviceNo)
    {
      var found := Find(id);
      if found == null {
        ghost var names := Names(nodes);
        found := Create(id);
        FirstIndexLast(names, id);
      }
      node := found;
    }

    /** Any sequence of find, create and find-or-create calls: the list registers
        the ids of the latter two, every answer is the one node of that name (or
        null, exactly as Answer says), and nodes never move or change. */
    method Serve(calls: seq<Call>) returns (answers: seq<Node?>)
      requires Valid() && forall i :: 0 <= i < |calls| ==> |calls[i].id| < DEV_NAME
      modifies this`nodes, set n | n in nodes
      ensures Valid()
      ensures Names(nodes) == RegisterAll(old(Names(nodes)), Created(calls))
      ensures |answers| == |calls|
      ensures forall k :: 0 <= k < |calls| ==> IsAt(nodes, Answer(old(Names(nodes)), calls, k), answers[k])
      ensures old(nodes) <= nodes
      ensures forall n :: n in old(nodes) ==> n.devName == old(n.devName) && n.deviceNo == old(n.deviceNo)
    {
      ghost var names := Names(nodes);
      answers := [];
      hide Valid, Created, RegisterAll, NamesAfter, Answer, AnswerNow, IsAt;
      assert calls[..0] == [];
      NothingCreated(names);
      for i := 0 to |calls|
        invariant Valid() && old(nodes) <= nodes
        invariant forall n :: n in nodes ==> n in old(nodes) || fresh(n)
        invariant Names(nodes) == RegisterAll(names, Created(calls[..i]))
        invariant Answered(nodes, names, calls, answers, i)
        invariant forall n :: n in old(nodes) ==> n.devName == old(n.devName) && n.deviceNo == old(n.deviceNo)
      {
        ghost var before := nodes;
        CreatedStep(names, calls, i);
        var answer := Reply(calls[i]);
        AnsweredStep(before, nodes, names, calls, answers, answer);
        answers := answers + [answer];
      }
      assert calls[..|calls|] == calls;
    }

    /** One of the calls. */
    method Reply(call: Call) returns (answer: Node?)
      requires Valid() && |call.id| < DEV_NAME
      modifies this`nodes, set n | n in nodes
      ensures Valid()
      ensures Names(nodes) == NamesAfter(old(Names(nodes)), call)
      ensures IsAt(nodes, AnswerNow(old(Names(nodes)), call), answer)
      ensures old(nodes) <= nodes && forall n :: n in nodes ==> n in old(nodes) || fresh(n)
      ensures forall n :: n in old(nodes) ==> n.devName == old(n.devName) && n.deviceNo == old(n.deviceNo)
    {
      match call {
        case Find(id) => answer := Find(id);
        case Create(id) => answer := Create(id);
        case FindOrCreate(id) => answer := FindOrCreate(id);
      }
    }
  }

  datatype Call = Find(id: string) | Create(id: string) | FindOrCreate(id: string)

  datatype Place = Nowhere | AtIndex(i: nat)

  predicate IsAt(nodes: seq<Node>, place: Place, node: Node?)
  {
    match place
    case Nowhere => node == null
    case AtIndex(i) => i < |nodes| && node == nodes[i]
  }

  /** The ids of the calls that may create, in order. */
  function Created(calls: seq<Call>): seq<string>
  {
    if calls == [] then []
    else Created(calls[..|calls| - 1]) + (if calls[|calls| - 1].Find? then [] else [calls[|calls| - 1].id])
  }

  function NamesAfter(names: seq<string>, call: Call): seq<string>
  {
    if call.Find? then names else Register(names, call.id)
  }

  /** What a call on a list of these names returns: the node of the name, the new
      node at the end, or nothing. */
  function AnswerNow(names: seq<string>, call: Call): Place
  {
    if call.id in names then (if call.Create? then Nowhere else AtIndex(FirstIndex(names, call.id)))
    else (if call.Find? then Nowhere else AtIndex(|names|))
  }

  /** What call k returns when the list started with these names. */
  function Answer(names: seq<string>, calls: seq<Call>, k: nat): Place
    requires k < |calls|
  {
    AnswerNow(RegisterAll(names, Created(calls[..k])), calls[k])
  }

  ghost predicate Answered(nodes: seq<Node>, names: seq<string>, calls: seq<Call>, answers: seq<Node?>, i: nat)
  {
    && |answers| == i <= |calls|
    && forall k :: 0 <= k < i ==> IsAt(nodes, Answer(names, calls, k), answers[k])
  }

  lemma NothingCreated(names: seq<string>)
    ensures RegisterAll(names, Created([])) == names
  {
  }

  lemma CreatedStep(names: seq<string>, calls: seq<Call>, i: nat)
    requires i < |calls|
    ensures var now := RegisterAll(names, Created(calls[..i]));
      && RegisterAll(names, Created(calls[..i + 1])) == NamesAfter(now, calls[i])
      && Answer(names, calls, i) == AnswerNow(now, calls[i])
  {
    assert calls[..i + 1][..i] == calls[..i];
    var ids, id := Created(calls[..i]), calls[i].id;
    assert (ids + [id])[..|ids|] == ids;
    assert Created(calls[..i + 1]) == if calls[i].Find? then ids else ids + [id];
  }

  /** Later calls do not move the nodes that earlier ones answered with. */
  lemma AnsweredStep(before: seq<Node>, nodes: seq<Node>, names: seq<string>, calls: seq<Call>,
                     answers: seq<Node?>, answer: Node?)
    requires before <= nodes && |answers| < |calls| && Answered(before, names, calls, answers, |answers|)
    requires IsAt(nodes, Answer(names, calls, |answers|), answer)
    ensures Answered(nodes, names, calls, answers + [answer], |answers| + 1)
  {
    hide Answer;
    var all := answers + [answer];
    forall k | 0 <= k < |all| ensures IsAt(nodes, Answer(names, calls, k), all[k]) {
      if k < |answers| {
        assert IsAt(before, Answer(names, calls, k), answers[k]);
      }
    }
  }

  lemma DistinctSnoc<T>(s: seq<T>, x: T)
    requires Distinct(s) && x !in s
    ensures Distinct(s + [x])
  {
  }

  function Register(names: seq<string>, id: string): seq<string>
  {
    if id in names then names else names + [id]
  }

  function RegisterAll(names: seq<string>, ids: seq<string>): seq<string>
  {
    if ids == [] then names else Register(RegisterAll(names, ids[..|ids| - 1]), ids[|ids| - 1])
  }

  /** Position of the first occurrence. */
  function FirstIndex(s: seq<string>, x: string): (i: nat)
    requires x in s
    ensures i < |s| && s[i] == x && x !in s[..i]
  {
    if s[0] == x then 0 else 1 + FirstIndex(s[1..], x)
  }

  /** After any requests every name is listed once, nothing else is, and new
      names stand in the order of their first request. */
  lemma {:induction false} RegisterAllListsEachOnce(names: seq<string>, ids: seq<string>)
    requires Distinct(names)
    ensures var all := RegisterAll(names, ids);
            && Distinct(all) && names <= all
            && (forall x :: x in all <==> x in names || x in ids)
            && (forall i, j :: |names| <= i < j < |all| && all[i] in ids && all[j] in ids ==>
                  FirstIndex(ids, all[i]) < FirstIndex(ids, all[j]))
  {
    if ids != [] {
      var rest, id := ids[..|ids| - 1], ids[|ids| - 1];
      RegisterAllListsEachOnce(names, rest);
      assert ids == rest + [id];
      var all := RegisterAll(names, ids);
      forall x | x in rest ensures FirstIndex(ids, x) == FirstIndex(rest, x) < |rest| {
        FirstIndexPrefix(rest, [id], x);
      }
      if id !in rest {
        FirstIndexLast(rest, id);
      }
    }
  }

  lemma {:induction false} FirstIndexPrefix(a: seq<string>, b: seq<string>, x: string)
    requires x in a
    ensures FirstIndex(a + b, x) == FirstIndex(a, x)
  {
    if a[0] != x {
      assert (a + b)[1..] == a[1..] + b;
      FirstIndexPrefix(a[1..], b, x);
    }
  }

  lemma {:induction false} FirstIndexLast(a: seq<string>, x: string)
    requires x !in a
    ensures FirstIndex(a + [x], x) == |a|
  {
    if a != [] {
      assert (a + [x])[1..] == a[1..] + [x];
      FirstIndexLast(a[1..], x);
    }
  }
}
