/** The copying loops of landlockd_policy_ir_copy for the rules of the broker and
    of the mount namespace. */
module PolicyCopyRules {
  import opened Answers
  import opened Bytes
  import opened CArrays
  import opened CHeap
  import opened CMemory
  import opened CShapes
  import opened PolicyCopy

  // ----- plain paths

  /** One path. */
  method CopyPath(heap: Heap, rule: Cell, ghost from: Node) returns (made: Cell, ok: bool, ghost n: Node)
    requires PathGiven(from) && rule == CellOf(from) && NodeStored(heap.blocks, from)
    modifies heap
    ensures made == CellOf(n) && IsPath(n) && Grown(old(heap.blocks), heap.blocks, [n])
    ensures ok ==> FieldOf(n) == FieldOf(from)
    ensures Ran(heap.failures, old(heap.calls), heap.calls, ok)
  {
    FirstAndRest(heap.blocks, from.nodes);
    var path;
    ghost var a;
    path, ok, a := Duplicate(heap, rule.cells[0], from.nodes[0]);
    made, n := Fields([path]), Struct([a]);
    Packed(old(heap.blocks), heap.blocks, [a]);
    assert ok ==> from.nodes == [from.nodes[0]];
  }

  /** One of the loops over plain path rules. */
  method FillPaths(heap: Heap, p: nat, q: nat, count: int, ghost start: Blocks, ghost from: Node,
                 ghost nodes: seq<Node>, ghost blank: seq<Node>)
    returns (ok: bool, ghost all: seq<Node>)
    requires SourceArray(PathGiven, start, p, count, from) && nodes == NodesOf(TreeOf(from)) && count == |nodes|
    requires Filling(IsPath, start, heap.blocks, q, blank, nodes, 0)
    modifies heap
    ensures Filled(IsPath, start, heap.blocks, q, all, nodes, ok)
    ensures Ran(heap.failures, old(heap.calls), heap.calls, ok)
  {
    all := blank;
    RanNone(heap.failures, heap.calls);
    for i := 0 to count
      invariant Filling(IsPath, start, heap.blocks, q, all, nodes, i)
      invariant Ran(heap.failures, old(heap.calls), heap.calls, true)
    {
      ghost var before, calls := heap.blocks, heap.calls;
      SourceHas(IsPath, PathGiven, start, before, q, all, from, p, count, i);
      var cell := heap.blocks[p].cells[i];
      ghost var n;
      var made;
      made, ok, n := CopyPath(heap, cell, nodes[i]);
      RanThen(heap.failures, old(heap.calls), calls, heap.calls, ok);
      PutElement(heap, q, i, made, IsPath, start, before, all, nodes, n);
      all := all[i := n];
      if !ok {
        return;
      }
    }
    FillEnd(IsPath, start, heap.blocks, q, all, nodes);
    ok := true;
  }

  /** The paths of one section and their count. */
  method CopyPaths(heap: Heap, counted: Cell, ghost from: Node) returns (made: Cell, ok: bool, ghost n: Node)
    requires IsArray(PathGiven, from) && counted == CellOf(from) && NodeStored(heap.blocks, from)
    modifies heap
    ensures ArrayCopied(IsPath, old(heap.blocks), heap.blocks, made, n, from, ok)
    ensures Ran(heap.failures, old(heap.calls), heap.calls, ok)
  {
    ghost var start := heap.blocks;
    var count, p := counted.cells[0].value, counted.cells[1].address;
    made, ok, n := Fields([Word(0), Ref(0)]), count == 0, NO_ARRAY;
    ArrayNone(IsPath, PathGiven, start, from);
    if count == 0 {
      RanNone(heap.failures, heap.calls);
      return;
    }
    ZeroPath();
    var q;
    ghost var all;
    q, all := Calloc(heap, count, ZERO_PATH, IsPath, NodesOf(TreeOf(from)));
    if q == 0 {
      return;
    }
    made := Fields([Word(count), Ref(q)]);
    ghost var calls := heap.calls;
    SourceIs(PathGiven, start, p, count, from);
    ok, all := FillPaths(heap, p, q, count, start, from, NodesOf(TreeOf(from)), all);
    RanThen(heap.failures, old(heap.calls), calls, heap.calls, ok);
    ArrayConcluded(IsPath, PathGiven, start, heap.blocks, q, all, from, ok);
    n := ArrayNode(|all|, Table(q, all));
  }

  // ----- bind mounts

  /** The fields of a structure, added one after the other. */
  lemma {:induction false} Gathered(start: Blocks, mid: Blocks, now: Blocks, done: seq<Node>, n: Node)
    requires Grown(start, mid, done) && Grown(mid, now, [n])
    ensures Grown(start, now, done + [n])
  {
    GrownMore(start, mid, now, done, [n]);
  }

  lemma {:induction false} GatheredBare(start: Blocks, now: Blocks, done: seq<Node>, n: Node)
    requires Grown(start, now, done) && Bare(n)
    ensures Grown(start, now, done + [n])
  {
    GrownNothing(now, n);
    GrownMore(start, now, now, done, [n]);
  }

  /** A member that is still zero. */
  lemma {:induction false} NullMade(blocks: Blocks)
    ensures Grown(blocks, blocks, [NULL]) && Grown(blocks, blocks, [NO_ARRAY])
  {
    ZerosAreBare();
    GrownNothing(blocks, NULL);
    GrownNothing(blocks, NO_ARRAY);
  }

  lemma {:induction false} BindMade(start: Blocks, mid: Blocks, now: Blocks, a: Node, b: Node, flag: int)
    requires Grown(start, mid, [a]) && Grown(mid, now, [b])
    ensures Grown(start, now, [Struct([a, b, Number(flag)])])
    ensures CellOf(Struct([a, b, Number(flag)])) == Fields([CellOf(a), CellOf(b), Word(flag)])
  {
    Gathered(start, mid, now, [a], b);
    assert Bare(Number(flag)) && [a] + [b] + [Number(flag)] == [a, b, Number(flag)];
    GatheredBare(start, now, [a] + [b], Number(flag));
    Packed(start, now, [a, b, Number(flag)]);
  }

  predicate SameThree(a: seq<Node>, b: seq<Node>) {
    |a| == |b| == 3 && FieldOf(a[0]) == FieldOf(b[0]) && FieldOf(a[1]) == FieldOf(b[1]) && FieldOf(a[2]) == FieldOf(b[2])
  }

  lemma {:induction false} ThreeFields(a: Node, b: Node)
    requires a.Struct? && b.Struct? && SameThree(a.nodes, b.nodes)
    ensures FieldOf(a) == FieldOf(b)
  {
    SameFields(a.nodes, b.nodes);
  }

  /** Source, target and then the read-only flag. */
  method CopyBind(heap: Heap, bind: Cell, ghost from: Node) returns (made: Cell, ok: bool, ghost n: Node)
    requires BindGiven(from) && bind == CellOf(from) && NodeStored(heap.blocks, from)
    modifies heap
    ensures made == CellOf(n) && IsBind(n) && Grown(old(heap.blocks), heap.blocks, [n])
    ensures ok ==> FieldOf(n) == FieldOf(from)
    ensures Ran(heap.failures, old(heap.calls), heap.calls, ok)
  {
    ghost var start, calls := heap.blocks, heap.calls;
    FirstAndRest(start, from.nodes);
    Two(start, from.nodes[1..]);
    var source, target;
    ghost var a, b;
    source, ok, a := Duplicate(heap, bind.cells[0], from.nodes[0]);
    made, n := Fields([source, Ref(0), Word(0)]), Struct([a, NULL, Number(0)]);
    NullMade(heap.blocks);
    BindMade(start, heap.blocks, heap.blocks, a, NULL, 0);
    if !ok {
      return;
    }
    ghost var mid := heap.blocks;
    calls := heap.calls;
    NodeKeysAreStored(start, from.nodes[1]);
    NodeStaysStored(start, mid, from.nodes[1]);
    target, ok, b := Duplicate(heap, bind.cells[1], from.nodes[1]);
    RanThen(heap.failures, old(heap.calls), calls, heap.calls, ok);
    var flag := if ok then bind.cells[2].value else 0;
    made, n := Fields([source, target, Word(flag)]), Struct([a, b, Number(flag)]);
    BindMade(start, mid, heap.blocks, a, b, flag);
    if ok {
      ThreeFields(n, from);
    }
  }

  /** One of the loops over bind rules. */
  method FillBinds(heap: Heap, p: nat, q: nat, count: int, ghost start: Blocks, ghost from: Node,
                 ghost nodes: seq<Node>, ghost blank: seq<Node>)
    returns (ok: bool, ghost all: seq<Node>)
    requires SourceArray(BindGiven, start, p, count, from) && nodes == NodesOf(TreeOf(from)) && count == |nodes|
    requires Filling(IsBind, start, heap.blocks, q, blank, nodes, 0)
    modifies heap
    ensures Filled(IsBind, start, heap.blocks, q, all, nodes, ok)
    ensures Ran(heap.failures, old(heap.calls), heap.calls, ok)
  {
    all := blank;
    RanNone(heap.failures, heap.calls);
    for i := 0 to count
      invariant Filling(IsBind, start, heap.blocks, q, all, nodes, i)
      invariant Ran(heap.failures, old(heap.calls), heap.calls, true)
    {
      ghost var before, calls := heap.blocks, heap.calls;
      SourceHas(IsBind, BindGiven, start, before, q, all, from, p, count, i);
      var cell := heap.blocks[p].cells[i];
      ghost var n;
      var made;
      made, ok, n := CopyBind(heap, cell, nodes[i]);
      RanThen(heap.failures, old(heap.calls), calls, heap.calls, ok);
      PutElement(heap, q, i, made, IsBind, start, before, all, nodes, n);
      all := all[i := n];
      if !ok {
        return;
      }
    }
    FillEnd(IsBind, start, heap.blocks, q, all, nodes);
    ok := true;
  }

  /** The bind rules of one section and their count. */
  method CopyBinds(heap: Heap, counted: Cell, ghost from: Node) returns (made: Cell, ok: bool, ghost n: Node)
    requires IsArray(BindGiven, from) && counted == CellOf(from) && NodeStored(heap.blocks, from)
    modifies heap
    ensures ArrayCopied(IsBind, old(heap.blocks), heap.blocks, made, n, from, ok)
    ensures Ran(heap.failures, old(heap.calls), heap.calls, ok)
  {
    ghost var start := heap.blocks;
    var count, p := counted.cells[0].value, counted.cells[1].address;
    made, ok, n := Fields([Word(0), Ref(0)]), count == 0, NO_ARRAY;
    ArrayNone(IsBind, BindGiven, start, from);
    if count == 0 {
      RanNone(heap.failures, heap.calls);
      return;
    }
    ZeroBind();
    var q;
    ghost var all;
    q, all := Calloc(heap, count, ZERO_BIND, IsBind, NodesOf(TreeOf(from)));
    if q == 0 {
      return;
    }
    made := Fields([Word(count), Ref(q)]);
    ghost var calls := heap.calls;
    SourceIs(BindGiven, start, p, count, from);
    ok, all := FillBinds(heap, p, q, count, start, from, NodesOf(TreeOf(from)), all);
    RanThen(heap.failures, old(heap.calls), calls, heap.calls, ok);
    ArrayConcluded(IsBind, BindGiven, start, heap.blocks, q, all, from, ok);
    n := ArrayNode(|all|, Table(q, all));
  }

  // ----- mount objects

  lemma {:induction false} ObjectMade(start: Blocks, m1: Blocks, m2: Blocks, now: Blocks, a: Node, b: Node, c: Node, attrs: int)
    requires Grown(start, m1, [a]) && Grown(m1, m2, [b]) && Grown(m2, now, [c])
    ensures Grown(start, now, [Struct([a, b, c, Number(attrs)])])
    ensures CellOf(Struct([a, b, c, Number(attrs)])) == Fields([CellOf(a), CellOf(b), CellOf(c), Word(attrs)])
  {
    Gathered(start, m1, m2, [a], b);
    Gathered(start, m2, now, [a] + [b], c);
    assert Bare(Number(attrs)) && [a] + [b] + [c] + [Number(attrs)] == [a, b, c, Number(attrs)];
    GatheredBare(start, now, [a] + [b] + [c], Number(attrs));
    Packed(start, now, [a, b, c, Number(attrs)]);
  }

  predicate SameFour(a: seq<Node>, b: seq<Node>) {
    && |a| == |b| == 4 && FieldOf(a[0]) == FieldOf(b[0]) && FieldOf(a[1]) == FieldOf(b[1])
    && FieldOf(a[2]) == FieldOf(b[2]) && FieldOf(a[3]) == FieldOf(b[3])
  }

  lemma {:induction false} FourFields(a: Node, b: Node)
    requires a.Struct? && b.Struct? && SameFour(a.nodes, b.nodes)
    ensures FieldOf(a) == FieldOf(b)
  {
    SameFields(a.nodes, b.nodes);
  }

  lemma {:induction false} ObjectParts(start: Blocks, from: Node)
    requires ObjectGiven(from) && NodeStored(start, from)
    ensures NodeStored(start, from.nodes[0]) && NodeStored(start, from.nodes[1]) && NodeStored(start, from.nodes[2])
  {
    FirstAndRest(start, from.nodes);
    FirstAndRest(start, from.nodes[1..]);
    Two(start, from.nodes[2..]);
  }

  lemma {:induction false} StaysThere(start: Blocks, mid: Blocks, made: seq<Node>, n: Node)
    requires Grown(start, mid, made) && NodeStored(start, n)
    ensures NodeStored(mid, n)
  {
    NodeKeysAreStored(start, n);
    NodeStaysStored(start, mid, n);
  }

  /** A complete copy of a nonempty array is not null. */
  lemma {:induction false} AttachIsThere(c: Node, from: Node)
    requires IsArray(IsText, c) && IsArray(HasText, from) && TreeOf(from).Table? && FieldOf(c) == FieldOf(from) && NodeSeparate(c)
    ensures CellOf(c).cells[1] != Ref(0)
  {
    assert FieldsOf(c.nodes)[0] == FieldsOf(from.nodes)[0];
    Two(map[], c.nodes);
    assert CellOf(c).cells[1] == Ref(Address(TreeOf(c)));
  }

  /** The names of a mount object, one after the other. */
  method CopyNames(heap: Heap, rule: Cell, ghost from: Node)
    returns (name: Cell, fsType: Cell, ok: bool, ghost a: Node, ghost b: Node, ghost mid: Blocks)
    requires ObjectGiven(from) && rule == CellOf(from) && NodeStored(heap.blocks, from)
    modifies heap
    ensures name == CellOf(a) && fsType == CellOf(b) && IsText(a) && IsText(b)
    ensures Grown(old(heap.blocks), mid, [a]) && Grown(mid, heap.blocks, [b])
    ensures NodeStored(heap.blocks, from.nodes[2])
    ensures ok ==> FieldOf(a) == FieldOf(from.nodes[0]) && FieldOf(b) == FieldOf(from.nodes[1])
    ensures Ran(heap.failures, old(heap.calls), heap.calls, ok)
  {
    ghost var start := heap.blocks;
    ObjectParts(start, from);
    name, ok, a := Duplicate(heap, rule.cells[0], from.nodes[0]);
    mid := heap.blocks;
    ghost var calls := heap.calls;
    fsType, b := Ref(0), NULL;
    NullMade(mid);
    StaysThere(start, mid, [a], from.nodes[1]);
    StaysThere(start, mid, [a], from.nodes[2]);
    if !ok {
      return;
    }
    fsType, ok, b := Duplicate(heap, rule.cells[1], from.nodes[1]);
    StaysThere(mid, heap.blocks, [b], from.nodes[2]);
    RanThen(heap.failures, old(heap.calls), calls, heap.calls, ok);
  }

  /** Name and type, then the attach paths; the attributes when there is an array for them. */
  method CopyObject(heap: Heap, rule: Cell, ghost from: Node) returns (made: Cell, ok: bool, ghost n: Node)
    requires ObjectGiven(from) && rule == CellOf(from) && NodeStored(heap.blocks, from)
    modifies heap
    ensures made == CellOf(n) && IsObject(n) && Grown(old(heap.blocks), heap.blocks, [n])
    ensures ok ==> FieldOf(n) == FieldOf(from)
    ensures Ran(heap.failures, old(heap.calls), heap.calls, ok)
  {
    ghost var start := heap.blocks;
    var name, fsType;
    ghost var a, b, m1;
    name, fsType, ok, a, b, m1 := CopyNames(heap, rule, from);
    ghost var m2, calls := heap.blocks, heap.calls;
    if !ok {
      NullMade(m2);
      made, n := Fields([name, fsType, Fields([Word(0), Ref(0)]), Word(0)]), Struct([a, b, NO_ARRAY, Number(0)]);
      ObjectMade(start, m1, m2, m2, a, b, NO_ARRAY, 0);
      assert CellOf(NO_ARRAY) == Fields([Word(0), Ref(0)]);
      return;
    }
    var attach;
    ghost var c;
    attach, ok, c := CopyTexts(heap, rule.cells[2], from.nodes[2]);
    RanThen(heap.failures, old(heap.calls), calls, heap.calls, ok);
    var attrs := if attach.cells[1] == Ref(0) then 0 else rule.cells[3].value;
    made, n := Fields([name, fsType, attach, Word(attrs)]), Struct([a, b, c, Number(attrs)]);
    ObjectMade(start, m1, m2, heap.blocks, a, b, c, attrs);
    if ok {
      One(heap.blocks, c);
      AttachIsThere(c, from.nodes[2]);
      FourFields(n, from);
    }
  }

  /** One turn of the outer loop over the mount objects. */
  method FillObject(heap: Heap, p: nat, q: nat, i: nat, ghost start: Blocks, ghost from: Node,
                    ghost nodes: seq<Node>, ghost all: seq<Node>)
    returns (ok: bool, ghost after: seq<Node>)
    requires SourceArray(ObjectGiven, start, p, |nodes|, from) && nodes == NodesOf(TreeOf(from)) && i < |nodes|
    requires Filling(IsObject, start, heap.blocks, q, all, nodes, i)
    modifies heap
    ensures Filled(IsObject, start, heap.blocks, q, after, nodes, false)
    ensures ok ==> Filling(IsObject, start, heap.blocks, q, after, nodes, i + 1)
    ensures Ran(heap.failures, old(heap.calls), heap.calls, ok)
  {
    ghost var before := heap.blocks;
    SourceHas(IsObject, ObjectGiven, start, before, q, all, from, p, |nodes|, i);
    var cell := heap.blocks[p].cells[i];
    ghost var n;
    var made;
    made, ok, n := CopyObject(heap, cell, nodes[i]);
    PutElement(heap, q, i, made, IsObject, start, before, all, nodes, n);
    after := all[i := n];
  }

  /** The outer loop over the mount objects. */
  method FillObjects(heap: Heap, p: nat, q: nat, count: int, ghost start: Blocks, ghost from: Node,
                 ghost nodes: seq<Node>, ghost blank: seq<Node>)
    returns (ok: bool, ghost all: seq<Node>)
    requires SourceArray(ObjectGiven, start, p, count, from) && nodes == NodesOf(TreeOf(from)) && count == |nodes|
    requires Filling(IsObject, start, heap.blocks, q, blank, nodes, 0)
    modifies heap
    ensures Filled(IsObject, start, heap.blocks, q, all, nodes, ok)
    ensures Ran(heap.failures, old(heap.calls), heap.calls, ok)
  {
    all := blank;
    RanNone(heap.failures, heap.calls);
    for i := 0 to count
      invariant Filling(IsObject, start, heap.blocks, q, all, nodes, i)
      invariant Ran(heap.failures, old(heap.calls), heap.calls, true)
    {
      ghost var calls := heap.calls;
      ok, all := FillObject(heap, p, q, i, start, from, nodes, all);
      RanThen(heap.failures, old(heap.calls), calls, heap.calls, ok);
      if !ok {
        return;
      }
    }
    FillEnd(IsObject, start, heap.blocks, q, all, nodes);
    ok := true;
  }

  /** broker_mount_object_rules and broker_mount_object_count. */
  method CopyObjects(heap: Heap, counted: Cell, ghost from: Node) returns (made: Cell, ok: bool, ghost n: Node)
    requires IsArray(ObjectGiven, from) && counted == CellOf(from) && NodeStored(heap.blocks, from)
    modifies heap
    ensures ArrayCopied(IsObject, old(heap.blocks), heap.blocks, made, n, from, ok)
    ensures Ran(heap.failures, old(heap.calls), heap.calls, ok)
  {
    ghost var start := heap.blocks;
    var count, p := counted.cells[0].value, counted.cells[1].address;
    made, ok, n := Fields([Word(0), Ref(0)]), count == 0, NO_ARRAY;
    ArrayNone(IsObject, ObjectGiven, start, from);
    if count == 0 {
      RanNone(heap.failures, heap.calls);
      return;
    }
    ZeroObject();
    var q;
    ghost var all;
    q, all := Calloc(heap, count, ZERO_OBJECT, IsObject, NodesOf(TreeOf(from)));
    if q == 0 {
      return;
    }
    made := Fields([Word(count), Ref(q)]);
    ghost var calls := heap.calls;
    SourceIs(ObjectGiven, start, p, count, from);
    ok, all := FillObjects(heap, p, q, count, start, from, NodesOf(TreeOf(from)), all);
    RanThen(heap.failures, old(heap.calls), calls, heap.calls, ok);
    ArrayConcluded(IsObject, ObjectGiven, start, heap.blocks, q, all, from, ok);
    n := ArrayNode(|all|, Table(q, all));
  }

  // ----- addfd rules

  lemma {:induction false} AddfdMade(start: Blocks, m1: Blocks, m2: Blocks, now: Blocks, a: Node, b: Node, c: Node)
    requires Grown(start, m1, [a]) && Grown(m1, m2, [b]) && Grown(m2, now, [c])
    ensures Grown(start, now, [Struct([a, b, c])]) && CellOf(Struct([a, b, c])) == Fields([CellOf(a), CellOf(b), CellOf(c)])
  {
    Gathered(start, m1, m2, [a], b);
    Gathered(start, m2, now, [a] + [b], c);
    assert [a] + [b] + [c] == [a, b, c];
    Packed(start, now, [a, b, c]);
  }

  lemma {:induction false} AddfdParts(start: Blocks, from: Node)
    requires AddfdGiven(from) && NodeStored(start, from)
    ensures NodeStored(start, from.nodes[0]) && NodeStored(start, from.nodes[1]) && NodeStored(start, from.nodes[2])
    ensures CellOf(from).cells[2] == Ref(0) ==> from.nodes[2] == NULL
  {
    FirstAndRest(start, from.nodes);
    Two(start, from.nodes[1..]);
  }

  /** Action and target, and a mode when there is one. */
  method CopyAddfd(heap: Heap, addfd: Cell, ghost from: Node) returns (made: Cell, ok: bool, ghost n: Node)
    requires AddfdGiven(from) && addfd == CellOf(from) && NodeStored(heap.blocks, from)
    modifies heap
    ensures made == CellOf(n) && IsAddfd(n) && Grown(old(heap.blocks), heap.blocks, [n])
    ensures ok ==> FieldOf(n) == FieldOf(from)
    ensures Ran(heap.failures, old(heap.calls), heap.calls, ok)
  {
    ghost var start, calls := heap.blocks, heap.calls;
    AddfdParts(start, from);
    var action, target;
    ghost var a, b;
    action, ok, a := Duplicate(heap, addfd.cells[0], from.nodes[0]);
    ghost var m1 := heap.blocks;
    NullMade(m1);
    made, n := Fields([action, Ref(0), Ref(0)]), Struct([a, NULL, NULL]);
    AddfdMade(start, m1, m1, m1, a, NULL, NULL);
    if !ok {
      return;
    }
    calls := heap.calls;
    StaysThere(start, m1, [a], from.nodes[1]);
    StaysThere(start, m1, [a], from.nodes[2]);
    target, ok, b := Duplicate(heap, addfd.cells[1], from.nodes[1]);
    ghost var m2 := heap.blocks;
    RanThen(heap.failures, old(heap.calls), calls, heap.calls, ok);
    NullMade(m2);
    made, n := Fields([action, target, Ref(0)]), Struct([a, b, NULL]);
    AddfdMade(start, m1, m2, m2, a, b, NULL);
    if !ok {
      return;
    }
    StaysThere(m1, m2, [b], from.nodes[2]);
    if addfd.cells[2].address != 0 {
      var mode;
      ghost var c;
      calls := heap.calls;
      mode, ok, c := Duplicate(heap, addfd.cells[2], from.nodes[2]);
      RanThen(heap.failures, old(heap.calls), calls, heap.calls, ok);
      made, n := Fields([action, target, mode]), Struct([a, b, c]);
      AddfdMade(start, m1, m2, heap.blocks, a, b, c);
    }
    if ok {
      ThreeFields(n, from);
    }
  }

  /** The loop over the addfd rules. */
  method FillAddfds(heap: Heap, p: nat, q: nat, count: int, ghost start: Blocks, ghost from: Node,
                 ghost nodes: seq<Node>, ghost blank: seq<Node>)
    returns (ok: bool, ghost all: seq<Node>)
    requires SourceArray(AddfdGiven, start, p, count, from) && nodes == NodesOf(TreeOf(from)) && count == |nodes|
    requires Filling(IsAddfd, start, heap.blocks, q, blank, nodes, 0)
    modifies heap
    ensures Filled(IsAddfd, start, heap.blocks, q, all, nodes, ok)
    ensures Ran(heap.failures, old(heap.calls), heap.calls, ok)
  {
    all := blank;
    RanNone(heap.failures, heap.calls);
    for i := 0 to count
      invariant Filling(IsAddfd, start, heap.blocks, q, all, nodes, i)
      invariant Ran(heap.failures, old(heap.calls), heap.calls, true)
    {
      ghost var before, calls := heap.blocks, heap.calls;
      SourceHas(IsAddfd, AddfdGiven, start, before, q, all, from, p, count, i);
      var cell := heap.blocks[p].cells[i];
      ghost var n;
      var made;
      made, ok, n := CopyAddfd(heap, cell, nodes[i]);
      RanThen(heap.failures, old(heap.calls), calls, heap.calls, ok);
      PutElement(heap, q, i, made, IsAddfd, start, before, all, nodes, n);
      all := all[i := n];
      if !ok {
        return;
      }
    }
    FillEnd(IsAddfd, start, heap.blocks, q, all, nodes);
    ok := true;
  }

  /** broker_addfd_rules and broker_addfd_count. */
  method CopyAddfds(heap: Heap, counted: Cell, ghost from: Node) returns (made: Cell, ok: bool, ghost n: Node)
    requires IsArray(AddfdGiven, from) && counted == CellOf(from) && NodeStored(heap.blocks, from)
    modifies heap
    ensures ArrayCopied(IsAddfd, old(heap.blocks), heap.blocks, made, n, from, ok)
    ensures Ran(heap.failures, old(heap.calls), heap.calls, ok)
  {
    ghost var start := heap.blocks;
    var count, p := counted.cells[0].value, counted.cells[1].address;
    made, ok, n := Fields([Word(0), Ref(0)]), count == 0, NO_ARRAY;
    ArrayNone(IsAddfd, AddfdGiven, start, from);
    if count == 0 {
      RanNone(heap.failures, heap.calls);
      return;
    }
    ZeroAddfd();
    var q;
    ghost var all;
    q, all := Calloc(heap, count, ZERO_ADDFD, IsAddfd, NodesOf(TreeOf(from)));
    if q == 0 {
      return;
    }
    made := Fields([Word(count), Ref(q)]);
    ghost var calls := heap.calls;
    SourceIs(AddfdGiven, start, p, count, from);
    ok, all := FillAddfds(heap, p, q, count, start, from, NodesOf(TreeOf(from)), all);
    RanThen(heap.failures, old(heap.calls), calls, heap.calls, ok);
    ArrayConcluded(IsAddfd, AddfdGiven, start, heap.blocks, q, all, from, ok);
    n := ArrayNode(|all|, Table(q, all));
  }
}
