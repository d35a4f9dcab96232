/** The release loops of landlockd_policy_ir_reset: every one runs to the count
    that stands beside its array. */
module PolicyRelease {
  import opened Bytes
  import opened CHeap
  import opened CMemory
  import opened CShapes

  // ----- the loops

  /** The first j elements of the array at p are released. */
  predicate ArrayFreeing(start: Blocks, now: Blocks, p: nat, nodes: seq<Node>, j: nat) {
    Freeing(start, now, nodes, j) && Holds(now, p, nodes)
  }

  lemma {:induction false} ArrayFreeingStart(shape: Node -> bool, blocks: Blocks, n: Node)
    requires IsArray(shape, n) && NodeStored(blocks, n) && NodeSeparate(n)
    ensures ArrayFreeing(blocks, blocks, Address(TreeOf(n)), NodesOf(TreeOf(n)), 0)
    ensures n.nodes[0].value == |NodesOf(TreeOf(n))|
  {
    ArrayHolds(shape, blocks, n);
    FreeingStart(blocks, NodesOf(TreeOf(n)));
  }

  lemma {:induction false} ArrayFreeingNext(start: Blocks, before: Blocks, now: Blocks, p: nat, nodes: seq<Node>, j: nat)
    requires ArrayFreeing(start, before, p, nodes, j) && j < |nodes| && now == before - NodeKeys(nodes[j])
    ensures ArrayFreeing(start, now, p, nodes, j + 1)
  {
    FreeingNext(start, before, now, nodes, j);
    At(now, nodes, j);
  }

  /** All elements are released, and then the array. */
  lemma {:induction false} ArrayFreeingEnd(start: Blocks, now: Blocks, n: Node)
    requires n.Struct? && |n.nodes| == 2 && n.nodes[0].Number? && n.nodes[1].Owner? && !TreeOf(n).Text? && NodeSeparate(n)
    requires ArrayFreeing(start, now, Address(TreeOf(n)), NodesOf(TreeOf(n)), |NodesOf(TreeOf(n))|)
    ensures var p := Address(TreeOf(n));
      (if p == 0 then now else now - {p}) == start - NodeKeys(n)
  {
    FreeingEnd(start, now, NodesOf(TreeOf(n)));
    Two(now, n.nodes);
  }

  /** Element j is there, with the shape of all. */
  lemma {:induction false} ArrayElement(shape: Node -> bool, start: Blocks, now: Blocks, p: nat, nodes: seq<Node>, j: nat)
    requires ArrayFreeing(start, now, p, nodes, j) && j < |nodes| && AllShaped(shape, nodes)
    ensures p in now && now[p] == Cells(CellsOf(nodes)) && now[p].cells[j] == CellOf(nodes[j])
    ensures shape(nodes[j]) && NodeStored(now, nodes[j]) && NodeSeparate(nodes[j])
  {
    FreeingHas(start, now, nodes, j);
  }

  method FreeText(heap: Heap, cell: Cell, ghost n: Node)
    requires IsText(n) && cell == CellOf(n) && NodeStored(heap.blocks, n) && NodeSeparate(n)
    modifies heap`blocks
    ensures heap.blocks == old(heap.blocks) - NodeKeys(n)
  {
    heap.Free(cell.address);
  }

  /** An array of pointers to strings. */
  method FreeTexts(heap: Heap, counted: Cell, ghost n: Node)
    requires IsArray(IsText, n) && counted == CellOf(n) && NodeStored(heap.blocks, n) && NodeSeparate(n)
    modifies heap`blocks
    ensures heap.blocks == old(heap.blocks) - NodeKeys(n)
  {
    ghost var start, nodes := heap.blocks, NodesOf(TreeOf(n));
    var count, p := counted.cells[0].value, counted.cells[1].address;
    ArrayFreeingStart(IsText, start, n);
    for j := 0 to count
      invariant ArrayFreeing(start, heap.blocks, p, nodes, j)
    {
      ghost var was := heap.blocks;
      ArrayElement(IsText, start, was, p, nodes, j);
      FreeText(heap, heap.blocks[p].cells[j], nodes[j]);
      ArrayFreeingNext(start, was, heap.blocks, p, nodes, j);
    }
    ArrayFreeingEnd(start, heap.blocks, n);
    heap.Free(p);
  }

  /** free(ir->fs_layers[i].rules[j].path) for every j, and the array of rules. */
  method FreeRules(heap: Heap, counted: Cell, ghost n: Node)
    requires IsArray(IsRule, n) && counted == CellOf(n) && NodeStored(heap.blocks, n) && NodeSeparate(n)
    modifies heap`blocks
    ensures heap.blocks == old(heap.blocks) - NodeKeys(n)
  {
    ghost var start, nodes := heap.blocks, NodesOf(TreeOf(n));
    var count, p := counted.cells[0].value, counted.cells[1].address;
    ArrayFreeingStart(IsRule, start, n);
    for j := 0 to count
      invariant ArrayFreeing(start, heap.blocks, p, nodes, j)
    {
      ghost var was := heap.blocks;
      ArrayElement(IsRule, start, was, p, nodes, j);
      Two(was, nodes[j].nodes);
      FreeText(heap, heap.blocks[p].cells[j].cells[1], nodes[j].nodes[1]);
      ArrayFreeingNext(start, was, heap.blocks, p, nodes, j);
    }
    ArrayFreeingEnd(start, heap.blocks, n);
    heap.Free(p);
  }

  /** The two nested loops over layers and their rules. */
  method FreeLayers(heap: Heap, counted: Cell, ghost n: Node)
    requires IsArray(IsLayer, n) && counted == CellOf(n) && NodeStored(heap.blocks, n) && NodeSeparate(n)
    modifies heap`blocks
    ensures heap.blocks == old(heap.blocks) - NodeKeys(n)
  {
    ghost var start, nodes := heap.blocks, NodesOf(TreeOf(n));
    var count, p := counted.cells[0].value, counted.cells[1].address;
    ArrayFreeingStart(IsLayer, start, n);
    for i := 0 to count
      invariant ArrayFreeing(start, heap.blocks, p, nodes, i)
    {
      ghost var was := heap.blocks;
      ArrayElement(IsLayer, start, was, p, nodes, i);
      Two(was, nodes[i].nodes);
      FreeRules(heap, heap.blocks[p].cells[i].cells[1], nodes[i].nodes[1]);
      ArrayFreeingNext(start, was, heap.blocks, p, nodes, i);
    }
    ArrayFreeingEnd(start, heap.blocks, n);
    heap.Free(p);
  }

  /** One of the loops over plain path rules. */
  method FreePaths(heap: Heap, counted: Cell, ghost n: Node)
    requires IsArray(IsPath, n) && counted == CellOf(n) && NodeStored(heap.blocks, n) && NodeSeparate(n)
    modifies heap`blocks
    ensures heap.blocks == old(heap.blocks) - NodeKeys(n)
  {
    ghost var start, nodes := heap.blocks, NodesOf(TreeOf(n));
    var count, p := counted.cells[0].value, counted.cells[1].address;
    ArrayFreeingStart(IsPath, start, n);
    for i := 0 to count
      invariant ArrayFreeing(start, heap.blocks, p, nodes, i)
    {
      ghost var was := heap.blocks;
      ArrayElement(IsPath, start, was, p, nodes, i);
      FirstAndRest(was, nodes[i].nodes);
      FreeText(heap, heap.blocks[p].cells[i].cells[0], nodes[i].nodes[0]);
      ArrayFreeingNext(start, was, heap.blocks, p, nodes, i);
    }
    ArrayFreeingEnd(start, heap.blocks, n);
    heap.Free(p);
  }

  lemma {:induction false} NodesFreed(start: Blocks, mid: Blocks, now: Blocks, a: Node, rest: seq<Node>)
    requires SeparateAll([a] + rest) && StoredAll(start, [a] + rest) && mid == start - NodeKeys(a)
    ensures StoredAll(mid, rest) && SeparateAll(rest)
    ensures now == mid - KeysAll(rest) ==> now == start - KeysAll([a] + rest)
  {
    var nodes := [a] + rest;
    assert nodes[0] == a && nodes[1..] == rest;
    FirstAndRest(start, nodes);
    StayStored(start, mid, rest);
  }

  /** Source and target of a bind rule. */
  method FreeBind(heap: Heap, cell: Cell, ghost n: Node)
    requires IsBind(n) && cell == CellOf(n) && NodeStored(heap.blocks, n) && NodeSeparate(n)
    modifies heap`blocks
    ensures heap.blocks == old(heap.blocks) - NodeKeys(n)
  {
    ghost var start, rest := heap.blocks, n.nodes[1..];
    FirstAndRest(start, n.nodes);
    FreeText(heap, cell.cells[0], n.nodes[0]);
    assert n.nodes == [n.nodes[0]] + rest;
    NodesFreed(start, heap.blocks, heap.blocks - KeysAll(rest), n.nodes[0], rest);
    Two(heap.blocks, rest);
    FreeText(heap, cell.cells[1], n.nodes[1]);
  }

  method FreeBinds(heap: Heap, counted: Cell, ghost n: Node)
    requires IsArray(IsBind, n) && counted == CellOf(n) && NodeStored(heap.blocks, n) && NodeSeparate(n)
    modifies heap`blocks
    ensures heap.blocks == old(heap.blocks) - NodeKeys(n)
  {
    ghost var start, nodes := heap.blocks, NodesOf(TreeOf(n));
    var count, p := counted.cells[0].value, counted.cells[1].address;
    ArrayFreeingStart(IsBind, start, n);
    for i := 0 to count
      invariant ArrayFreeing(start, heap.blocks, p, nodes, i)
    {
      ghost var was := heap.blocks;
      ArrayElement(IsBind, start, was, p, nodes, i);
      FreeBind(heap, heap.blocks[p].cells[i], nodes[i]);
      ArrayFreeingNext(start, was, heap.blocks, p, nodes, i);
    }
    ArrayFreeingEnd(start, heap.blocks, n);
    heap.Free(p);
  }

  /** Name, type and attach paths of a mount object. */
  method FreeObject(heap: Heap, cell: Cell, ghost n: Node)
    requires IsObject(n) && cell == CellOf(n) && NodeStored(heap.blocks, n) && NodeSeparate(n)
    modifies heap`blocks
    ensures heap.blocks == old(heap.blocks) - NodeKeys(n)
  {
    ghost var start, rest, end := heap.blocks, n.nodes[1..], n.nodes[2..];
    FirstAndRest(start, n.nodes);
    FreeText(heap, cell.cells[0], n.nodes[0]);
    assert n.nodes == [n.nodes[0]] + rest && rest == [n.nodes[1]] + end;
    NodesFreed(start, heap.blocks, heap.blocks - KeysAll(rest), n.nodes[0], rest);
    ghost var mid := heap.blocks;
    FirstAndRest(mid, rest);
    FreeText(heap, cell.cells[1], n.nodes[1]);
    NodesFreed(mid, heap.blocks, heap.blocks - KeysAll(end), n.nodes[1], end);
    Two(heap.blocks, end);
    FreeTexts(heap, cell.cells[2], n.nodes[2]);
  }

  method FreeObjects(heap: Heap, counted: Cell, ghost n: Node)
    requires IsArray(IsObject, n) && counted == CellOf(n) && NodeStored(heap.blocks, n) && NodeSeparate(n)
    modifies heap`blocks
    ensures heap.blocks == old(heap.blocks) - NodeKeys(n)
  {
    ghost var start, nodes := heap.blocks, NodesOf(TreeOf(n));
    var count, p := counted.cells[0].value, counted.cells[1].address;
    ArrayFreeingStart(IsObject, start, n);
    for i := 0 to count
      invariant ArrayFreeing(start, heap.blocks, p, nodes, i)
    {
      ghost var was := heap.blocks;
      ArrayElement(IsObject, start, was, p, nodes, i);
      FreeObject(heap, heap.blocks[p].cells[i], nodes[i]);
      ArrayFreeingNext(start, was, heap.blocks, p, nodes, i);
    }
    ArrayFreeingEnd(start, heap.blocks, n);
    heap.Free(p);
  }

  /** Action, target and mode of an addfd rule. */
  method FreeAddfd(heap: Heap, cell: Cell, ghost n: Node)
    requires IsAddfd(n) && cell == CellOf(n) && NodeStored(heap.blocks, n) && NodeSeparate(n)
    modifies heap`blocks
    ensures heap.blocks == old(heap.blocks) - NodeKeys(n)
  {
    ghost var start, rest := heap.blocks, n.nodes[1..];
    FirstAndRest(start, n.nodes);
    FreeText(heap, cell.cells[0], n.nodes[0]);
    assert n.nodes == [n.nodes[0]] + rest;
    NodesFreed(start, heap.blocks, heap.blocks - KeysAll(rest), n.nodes[0], rest);
    ghost var mid := heap.blocks;
    Two(mid, rest);
    FreeText(heap, cell.cells[1], n.nodes[1]);
    NodeStaysStored(mid, heap.blocks, n.nodes[2]);
    FreeText(heap, cell.cells[2], n.nodes[2]);
  }

  method FreeAddfds(heap: Heap, counted: Cell, ghost n: Node)
    requires IsArray(IsAddfd, n) && counted == CellOf(n) && NodeStored(heap.blocks, n) && NodeSeparate(n)
    modifies heap`blocks
    ensures heap.blocks == old(heap.blocks) - NodeKeys(n)
  {
    ghost var start, nodes := heap.blocks, NodesOf(TreeOf(n));
    var count, p := counted.cells[0].value, counted.cells[1].address;
    ArrayFreeingStart(IsAddfd, start, n);
    for i := 0 to count
      invariant ArrayFreeing(start, heap.blocks, p, nodes, i)
    {
      ghost var was := heap.blocks;
      ArrayElement(IsAddfd, start, was, p, nodes, i);
      FreeAddfd(heap, heap.blocks[p].cells[i], nodes[i]);
      ArrayFreeingNext(start, was, heap.blocks, p, nodes, i);
    }
    ArrayFreeingEnd(start, heap.blocks, n);
    heap.Free(p);
  }

  /** An array whose elements own nothing. */
  method FreeNumbers(heap: Heap, counted: Cell, ghost shape: Node -> bool, ghost n: Node)
    requires IsArray(shape, n) && counted == CellOf(n) && NodeStored(heap.blocks, n) && NodeSeparate(n)
    requires KeysAll(NodesOf(TreeOf(n))) == {}
    modifies heap`blocks
    ensures heap.blocks == old(heap.blocks) - NodeKeys(n)
  {
    Two(heap.blocks, n.nodes);
    heap.Free(counted.cells[1].address);
  }

  lemma {:induction false} NumbersOwnNothing(nodes: seq<Node>)
    requires AllShaped(IsNetRule, nodes) || AllShaped(IsDeny, nodes)
    ensures KeysAll(nodes) == {}
  {
    if nodes != [] {
      NumbersOwnNothing(nodes[1..]);
      FirstAndRest(map[], nodes);
      if IsNetRule(nodes[0]) {
        Two(map[], nodes[0].nodes);
      } else {
        FirstAndRest(map[], nodes[0].nodes);
      }
    }
  }
}
