/** The copying loops of landlockd_policy_ir_copy: for every array calloc first,
    the count only when that succeeded, and then the elements one by one. When
    memory runs out, what stands in memory is still whole. */
module PolicyCopy {
  import opened Answers
  import opened Bytes
  import opened CArrays
  import opened CHeap
  import opened CMemory
  import opened CShapes

  // ----- strings

  /** strdup(3). */
  method Duplicate(heap: Heap, cell: Cell, ghost from: Node) returns (made: Cell, ok: bool, ghost n: Node)
    requires HasText(from) && cell == CellOf(from) && NodeStored(heap.blocks, from)
    modifies heap
    ensures made == CellOf(n) && IsText(n) && Grown(old(heap.blocks), heap.blocks, [n])
    ensures if ok then FieldOf(n) == FieldOf(from) else n == NULL && heap.blocks == old(heap.blocks)
    ensures Ran(heap.failures, old(heap.calls), heap.calls, ok)
  {
    RanOne(heap.failures, heap.calls);
    var q := heap.Allocate(heap.blocks[cell.address]);
    made, ok, n := Ref(q), q != 0, if q != 0 then Owner(Text(q, from.tree.text)) else NULL;
    One(heap.blocks, n);
  }

  // ----- calloc

  /** calloc(3) for that many elements; the array starts out zero. */
  method Calloc(heap: Heap, count: nat, zero: Node, ghost shape: Node -> bool, ghost from: seq<Node>)
    returns (q: nat, ghost all: seq<Node>)
    requires count == |from| && Bare(zero) && shape(zero)
    modifies heap
    ensures Ran(heap.failures, old(heap.calls), heap.calls, q != 0)
    ensures if q == 0 then heap.blocks == old(heap.blocks)
      else Filling(shape, old(heap.blocks), heap.blocks, q, all, from, 0)
  {
    all := Blanks(count, zero);
    RanOne(heap.failures, heap.calls);
    q := heap.Allocate(Cells(CellsOf(Blanks(count, zero))));
    if q != 0 {
      FillStart(shape, old(heap.blocks), q, zero, from);
    }
  }

  /** Element i of the copy. */
  method PutElement(heap: Heap, q: nat, i: nat, made: Cell, ghost shape: Node -> bool, ghost start: Blocks, ghost before: Blocks,
                    ghost all: seq<Node>, ghost from: seq<Node>, ghost n: Node)
    requires Filling(shape, start, before, q, all, from, i) && i < |all| == |from| && Grown(before, heap.blocks, [n])
    requires shape(n) && made == CellOf(n)
    modifies heap`blocks
    ensures Filled(shape, start, heap.blocks, q, all[i := n], from, false)
    ensures FieldOf(n) == FieldOf(from[i]) ==> Filling(shape, start, heap.blocks, q, all[i := n], from, i + 1)
  {
    FillNext(shape, start, before, heap.blocks, q, all, from, i, n);
    heap.Store(q, i, made);
  }

  // ----- an array of strings

  /** The inner loop over the attach paths. */
  method FillTexts(heap: Heap, p: nat, q: nat, count: int, ghost start: Blocks, ghost from: Node,
                   ghost nodes: seq<Node>, ghost blank: seq<Node>)
    returns (ok: bool, ghost all: seq<Node>)
    requires SourceArray(HasText, start, p, count, from) && nodes == NodesOf(TreeOf(from)) && count == |nodes|
    requires Filling(IsText, start, heap.blocks, q, blank, nodes, 0)
    modifies heap
    ensures Filled(IsText, start, heap.blocks, q, all, nodes, ok)
    ensures Ran(heap.failures, old(heap.calls), heap.calls, ok)
  {
    all := blank;
    RanNone(heap.failures, heap.calls);
    for i := 0 to count
      invariant Filling(IsText, start, heap.blocks, q, all, nodes, i)
      invariant Ran(heap.failures, old(heap.calls), heap.calls, true)
    {
      ghost var before, calls := heap.blocks, heap.calls;
      SourceHas(IsText, HasText, start, before, q, all, from, p, count, i);
      var cell := heap.blocks[p].cells[i];
      ghost var n;
      var made;
      made, ok, n := Duplicate(heap, cell, nodes[i]);
      RanThen(heap.failures, old(heap.calls), calls, heap.calls, ok);
      PutElement(heap, q, i, made, IsText, start, before, all, nodes, n);
      all := all[i := n];
      if !ok {
        return;
      }
    }
    FillEnd(IsText, start, heap.blocks, q, all, nodes);
    ok := true;
  }

  /** The attach paths of a mount object. */
  method CopyTexts(heap: Heap, counted: Cell, ghost from: Node) returns (made: Cell, ok: bool, ghost n: Node)
    requires IsArray(HasText, from) && counted == CellOf(from) && NodeStored(heap.blocks, from)
    modifies heap
    ensures ArrayCopied(IsText, old(heap.blocks), heap.blocks, made, n, from, ok)
    ensures Ran(heap.failures, old(heap.calls), heap.calls, ok)
  {
    ghost var start := heap.blocks;
    var count, p := counted.cells[0].value, counted.cells[1].address;
    made, ok, n := Fields([Word(0), Ref(0)]), count == 0, NO_ARRAY;
    ArrayNone(IsText, HasText, start, from);
    if count == 0 {
      RanNone(heap.failures, heap.calls);
      return;
    }
    ZeroText();
    var q;
    ghost var all;
    q, all := Calloc(heap, count, NULL, IsText, NodesOf(TreeOf(from)));
    if q == 0 {
      return;
    }
    made := Fields([Word(count), Ref(q)]);
    ghost var calls := heap.calls;
    SourceIs(HasText, start, p, count, from);
    ok, all := FillTexts(heap, p, q, count, start, from, NodesOf(TreeOf(from)), all);
    RanThen(heap.failures, old(heap.calls), calls, heap.calls, ok);
    ArrayConcluded(IsText, HasText, start, heap.blocks, q, all, from, ok);
    n := ArrayNode(|all|, Table(q, all));
  }

  // ----- layers and their rules

  /** Access bits and path. */
  method CopyRule(heap: Heap, rule: Cell, ghost from: Node) returns (made: Cell, ok: bool, ghost n: Node)
    requires RuleGiven(from) && rule == CellOf(from) && NodeStored(heap.blocks, from)
    modifies heap
    ensures made == CellOf(n) && IsRule(n) && Grown(old(heap.blocks), heap.blocks, [n])
    ensures ok ==> FieldOf(n) == FieldOf(from)
    ensures Ran(heap.failures, old(heap.calls), heap.calls, ok)
  {
    Two(heap.blocks, from.nodes);
    var path;
    ghost var a;
    path, ok, a := Duplicate(heap, rule.cells[1], from.nodes[1]);
    made, n := Fields([rule.cells[0], path]), Struct([from.nodes[0], a]);
    Two(heap.blocks, n.nodes);
    One(heap.blocks, a);
    One(heap.blocks, n);
    assert ok ==> from.nodes == [from.nodes[0], from.nodes[1]];
  }

  /** The inner loop over the rules of a layer. */
  method FillRules(heap: Heap, p: nat, q: nat, count: int, ghost start: Blocks, ghost from: Node,
                   ghost nodes: seq<Node>, ghost blank: seq<Node>)
    returns (ok: bool, ghost all: seq<Node>)
    requires SourceArray(RuleGiven, start, p, count, from) && nodes == NodesOf(TreeOf(from)) && count == |nodes|
    requires Filling(IsRule, start, heap.blocks, q, blank, nodes, 0)
    modifies heap
    ensures Filled(IsRule, start, heap.blocks, q, all, nodes, ok)
    ensures Ran(heap.failures, old(heap.calls), heap.calls, ok)
  {
    all := blank;
    RanNone(heap.failures, heap.calls);
    for i := 0 to count
      invariant Filling(IsRule, start, heap.blocks, q, all, nodes, i)
      invariant Ran(heap.failures, old(heap.calls), heap.calls, true)
    {
      ghost var before, calls := heap.blocks, heap.calls;
      SourceHas(IsRule, RuleGiven, start, before, q, all, from, p, count, i);
      var cell := heap.blocks[p].cells[i];
      ghost var n;
      var made;
      made, ok, n := CopyRule(heap, cell, nodes[i]);
      RanThen(heap.failures, old(heap.calls), calls, heap.calls, ok);
      PutElement(heap, q, i, made, IsRule, start, before, all, nodes, n);
      all := all[i := n];
      if !ok {
        return;
      }
    }
    FillEnd(IsRule, start, heap.blocks, q, all, nodes);
    ok := true;
  }

  /** The rules of a layer: none, or an array of their own. */
  method CopyRules(heap: Heap, counted: Cell, ghost from: Node) returns (made: Cell, ok: bool, ghost n: Node)
    requires IsArray(RuleGiven, from) && counted == CellOf(from) && NodeStored(heap.blocks, from)
    modifies heap
    ensures ArrayCopied(IsRule, old(heap.blocks), heap.blocks, made, n, from, ok)
    ensures Ran(heap.failures, old(heap.calls), heap.calls, ok)
  {
    ghost var start := heap.blocks;
    var count, p := counted.cells[0].value, counted.cells[1].address;
    made, ok, n := Fields([Word(0), Ref(0)]), count == 0, NO_ARRAY;
    ArrayNone(IsRule, RuleGiven, start, from);
    if count == 0 {
      RanNone(heap.failures, heap.calls);
      return;
    }
    ZeroRule();
    var q;
    ghost var all;
    q, all := Calloc(heap, count, ZERO_RULE, IsRule, NodesOf(TreeOf(from)));
    if q == 0 {
      return;
    }
    made := Fields([Word(count), Ref(q)]);
    ghost var calls := heap.calls;
    SourceIs(RuleGiven, start, p, count, from);
    ok, all := FillRules(heap, p, q, count, start, from, NodesOf(TreeOf(from)), all);
    RanThen(heap.failures, old(heap.calls), calls, heap.calls, ok);
    ArrayConcluded(IsRule, RuleGiven, start, heap.blocks, q, all, from, ok);
    n := ArrayNode(|all|, Table(q, all));
  }

  /** One layer: its access bits, and its rules when it has any. */
  method CopyLayer(heap: Heap, layer: Cell, ghost from: Node) returns (made: Cell, ok: bool, ghost n: Node)
    requires LayerGiven(from) && layer == CellOf(from) && NodeStored(heap.blocks, from)
    modifies heap
    ensures made == CellOf(n) && IsLayer(n) && Grown(old(heap.blocks), heap.blocks, [n])
    ensures ok ==> FieldOf(n) == FieldOf(from)
    ensures Ran(heap.failures, old(heap.calls), heap.calls, ok)
  {
    Two(heap.blocks, from.nodes);
    var rules;
    ghost var a;
    rules, ok, a := CopyRules(heap, layer.cells[1], from.nodes[1]);
    made, n := Fields([layer.cells[0], rules]), Struct([from.nodes[0], a]);
    Two(heap.blocks, n.nodes);
    One(heap.blocks, a);
    One(heap.blocks, n);
    assert ok ==> from.nodes == [from.nodes[0], from.nodes[1]];
  }

  /** The outer loop over the layers. */
  method FillLayers(heap: Heap, p: nat, q: nat, count: int, ghost start: Blocks, ghost from: Node,
                   ghost nodes: seq<Node>, ghost blank: seq<Node>)
    returns (ok: bool, ghost all: seq<Node>)
    requires SourceArray(LayerGiven, start, p, count, from) && nodes == NodesOf(TreeOf(from)) && count == |nodes|
    requires Filling(IsLayer, start, heap.blocks, q, blank, nodes, 0)
    modifies heap
    ensures Filled(IsLayer, start, heap.blocks, q, all, nodes, ok)
    ensures Ran(heap.failures, old(heap.calls), heap.calls, ok)
  {
    all := blank;
    RanNone(heap.failures, heap.calls);
    for i := 0 to count
      invariant Filling(IsLayer, start, heap.blocks, q, all, nodes, i)
      invariant Ran(heap.failures, old(heap.calls), heap.calls, true)
    {
      ghost var before, calls := heap.blocks, heap.calls;
      SourceHas(IsLayer, LayerGiven, start, before, q, all, from, p, count, i);
      var cell := heap.blocks[p].cells[i];
      ghost var n;
      var made;
      made, ok, n := CopyLayer(heap, cell, nodes[i]);
      RanThen(heap.failures, old(heap.calls), calls, heap.calls, ok);
      PutElement(heap, q, i, made, IsLayer, start, before, all, nodes, n);
      all := all[i := n];
      if !ok {
        return;
      }
    }
    FillEnd(IsLayer, start, heap.blocks, q, all, nodes);
    ok := true;
  }

  /** fs_layers and fs_layer_count. */
  method CopyLayers(heap: Heap, counted: Cell, ghost from: Node) returns (made: Cell, ok: bool, ghost n: Node)
    requires IsArray(LayerGiven, from) && counted == CellOf(from) && NodeStored(heap.blocks, from)
    modifies heap
    ensures ArrayCopied(IsLayer, old(heap.blocks), heap.blocks, made, n, from, ok)
    ensures made.cells[1] == Ref(0) ==> heap.blocks == old(heap.blocks) && n == NO_ARRAY
    ensures Ran(heap.failures, old(heap.calls), heap.calls, ok)
  {
    ghost var start := heap.blocks;
    var count, p := counted.cells[0].value, counted.cells[1].address;
    made, ok, n := Fields([Word(0), Ref(0)]), count == 0, NO_ARRAY;
    ArrayNone(IsLayer, LayerGiven, start, from);
    if count == 0 {
      RanNone(heap.failures, heap.calls);
      return;
    }
    ZeroLayer();
    var q;
    ghost var all;
    q, all := Calloc(heap, count, ZERO_LAYER, IsLayer, NodesOf(TreeOf(from)));
    if q == 0 {
      return;
    }
    made := Fields([Word(count), Ref(q)]);
    ghost var calls := heap.calls;
    SourceIs(LayerGiven, start, p, count, from);
    ok, all := FillLayers(heap, p, q, count, start, from, NodesOf(TreeOf(from)), all);
    RanThen(heap.failures, old(heap.calls), calls, heap.calls, ok);
    ArrayConcluded(IsLayer, LayerGiven, start, heap.blocks, q, all, from, ok);
    n := ArrayNode(|all|, Table(q, all));
  }

  // ----- net rules and denied system calls, whose elements own nothing

  /** Port and access bits. */
  method CopyNetRule(heap: Heap, rule: Cell, ghost from: Node) returns (made: Cell, ok: bool, ghost n: Node)
    requires IsNetRule(from) && rule == CellOf(from) && NodeStored(heap.blocks, from)
    modifies heap
    ensures made == CellOf(n) && IsNetRule(n) && Grown(old(heap.blocks), heap.blocks, [n])
    ensures ok ==> FieldOf(n) == FieldOf(from)
    ensures Ran(heap.failures, old(heap.calls), heap.calls, ok)
  {
    Two(heap.blocks, from.nodes);
    made, ok, n := rule, true, from;
    RanNone(heap.failures, heap.calls);
    GrownNothing(heap.blocks, n);
  }

  /** memcpy(3) of the rules, one by one. */
  method FillNetRules(heap: Heap, p: nat, q: nat, count: int, ghost start: Blocks, ghost from: Node,
                 ghost nodes: seq<Node>, ghost blank: seq<Node>)
    returns (ok: bool, ghost all: seq<Node>)
    requires SourceArray(IsNetRule, start, p, count, from) && nodes == NodesOf(TreeOf(from)) && count == |nodes|
    requires Filling(IsNetRule, start, heap.blocks, q, blank, nodes, 0)
    modifies heap
    ensures Filled(IsNetRule, start, heap.blocks, q, all, nodes, ok)
    ensures Ran(heap.failures, old(heap.calls), heap.calls, ok)
  {
    all := blank;
    RanNone(heap.failures, heap.calls);
    for i := 0 to count
      invariant Filling(IsNetRule, start, heap.blocks, q, all, nodes, i)
      invariant Ran(heap.failures, old(heap.calls), heap.calls, true)
    {
      ghost var before, calls := heap.blocks, heap.calls;
      SourceHas(IsNetRule, IsNetRule, start, before, q, all, from, p, count, i);
      var cell := heap.blocks[p].cells[i];
      ghost var n;
      var made;
      made, ok, n := CopyNetRule(heap, cell, nodes[i]);
      RanThen(heap.failures, old(heap.calls), calls, heap.calls, ok);
      PutElement(heap, q, i, made, IsNetRule, start, before, all, nodes, n);
      all := all[i := n];
      if !ok {
        return;
      }
    }
    FillEnd(IsNetRule, start, heap.blocks, q, all, nodes);
    ok := true;
  }

  /** net_rules and net_rule_count. */
  method CopyNetRules(heap: Heap, counted: Cell, ghost from: Node) returns (made: Cell, ok: bool, ghost n: Node)
    requires IsArray(IsNetRule, from) && counted == CellOf(from) && NodeStored(heap.blocks, from)
    modifies heap
    ensures ArrayCopied(IsNetRule, old(heap.blocks), heap.blocks, made, n, from, ok)
    ensures Ran(heap.failures, old(heap.calls), heap.calls, ok)
  {
    ghost var start := heap.blocks;
    var count, p := counted.cells[0].value, counted.cells[1].address;
    made, ok, n := Fields([Word(0), Ref(0)]), count == 0, NO_ARRAY;
    ArrayNone(IsNetRule, IsNetRule, start, from);
    if count == 0 {
      RanNone(heap.failures, heap.calls);
      return;
    }
    ZeroNetRule();
    var q;
    ghost var all;
    q, all := Calloc(heap, count, ZERO_NET_RULE, IsNetRule, NodesOf(TreeOf(from)));
    if q == 0 {
      return;
    }
    made := Fields([Word(count), Ref(q)]);
    ghost var calls := heap.calls;
    SourceIs(IsNetRule, start, p, count, from);
    ok, all := FillNetRules(heap, p, q, count, start, from, NodesOf(TreeOf(from)), all);
    RanThen(heap.failures, old(heap.calls), calls, heap.calls, ok);
    ArrayConcluded(IsNetRule, IsNetRule, start, heap.blocks, q, all, from, ok);
    n := ArrayNode(|all|, Table(q, all));
  }

  /** The number of a system call. */
  method CopyDeny(heap: Heap, rule: Cell, ghost from: Node) returns (made: Cell, ok: bool, ghost n: Node)
    requires IsDeny(from) && rule == CellOf(from) && NodeStored(heap.blocks, from)
    modifies heap
    ensures made == CellOf(n) && IsDeny(n) && Grown(old(heap.blocks), heap.blocks, [n])
    ensures ok ==> FieldOf(n) == FieldOf(from)
    ensures Ran(heap.failures, old(heap.calls), heap.calls, ok)
  {
    FirstAndRest(heap.blocks, from.nodes);
    made, ok, n := rule, true, from;
    RanNone(heap.failures, heap.calls);
    GrownNothing(heap.blocks, n);
  }

  /** The loop over the denied system calls. */
  method FillDenies(heap: Heap, p: nat, q: nat, count: int, ghost start: Blocks, ghost from: Node,
                 ghost nodes: seq<Node>, ghost blank: seq<Node>)
    returns (ok: bool, ghost all: seq<Node>)
    requires SourceArray(IsDeny, start, p, count, from) && nodes == NodesOf(TreeOf(from)) && count == |nodes|
    requires Filling(IsDeny, start, heap.blocks, q, blank, nodes, 0)
    modifies heap
    ensures Filled(IsDeny, start, heap.blocks, q, all, nodes, ok)
    ensures Ran(heap.failures, old(heap.calls), heap.calls, ok)
  {
    all := blank;
    RanNone(heap.failures, heap.calls);
    for i := 0 to count
      invariant Filling(IsDeny, start, heap.blocks, q, all, nodes, i)
      invariant Ran(heap.failures, old(heap.calls), heap.calls, true)
    {
      ghost var before, calls := heap.blocks, heap.calls;
      SourceHas(IsDeny, IsDeny, start, before, q, all, from, p, count, i);
      var cell := heap.blocks[p].cells[i];
      ghost var n;
      var made;
      made, ok, n := CopyDeny(heap, cell, nodes[i]);
      RanThen(heap.failures, old(heap.calls), calls, heap.calls, ok);
      PutElement(heap, q, i, made, IsDeny, start, before, all, nodes, n);
      all := all[i := n];
      if !ok {
        return;
      }
    }
    FillEnd(IsDeny, start, heap.blocks, q, all, nodes);
    ok := true;
  }

  /** seccomp_deny_rules and seccomp_deny_count. */
  method CopyDenies(heap: Heap, counted: Cell, ghost from: Node) returns (made: Cell, ok: bool, ghost n: Node)
    requires IsArray(IsDeny, from) && counted == CellOf(from) && NodeStored(heap.blocks, from)
    modifies heap
    ensures ArrayCopied(IsDeny, old(heap.blocks), heap.blocks, made, n, from, ok)
    ensures Ran(heap.failures, old(heap.calls), heap.calls, ok)
  {
    ghost var start := heap.blocks;
    var count, p := counted.cells[0].value, counted.cells[1].address;
    made, ok, n := Fields([Word(0), Ref(0)]), count == 0, NO_ARRAY;
    ArrayNone(IsDeny, IsDeny, start, from);
    if count == 0 {
      RanNone(heap.failures, heap.calls);
      return;
    }
    ZeroDeny();
    var q;
    ghost var all;
    q, all := Calloc(heap, count, ZERO_DENY, IsDeny, NodesOf(TreeOf(from)));
    if q == 0 {
      return;
    }
    made := Fields([Word(count), Ref(q)]);
    ghost var calls := heap.calls;
    SourceIs(IsDeny, start, p, count, from);
    ok, all := FillDenies(heap, p, q, count, start, from, NodesOf(TreeOf(from)), all);
    RanThen(heap.failures, old(heap.calls), calls, heap.calls, ok);
    ArrayConcluded(IsDeny, IsDeny, start, heap.blocks, q, all, from, ok);
    n := ArrayNode(|all|, Table(q, all));
  }
}
