/** Memory as the C allocator sees it: blocks at addresses, and the trees of
    blocks that a pointer owns. */
module CMemory {
  import opened Bytes

  /** A number, a pointer, or a structure inside another. */
  datatype Cell = Word(value: int) | Ref(address: nat) | Fields(cells: seq<Cell>)

  /** The bytes of a string, or the elements of an array. */
  datatype Block = Chars(text: Str) | Cells(cells: seq<Cell>)
  type Blocks = map<nat, Block>

  /** What a pointer owns, with the addresses. */
  datatype Tree = Null | Text(at: nat, text: Str) | Table(at: nat, nodes: seq<Node>)
  datatype Node = Number(value: int) | Owner(tree: Tree) | Struct(nodes: seq<Node>)

  /** The same without the addresses. */
  datatype Value = Absent | Letters(text: Str) | Record(fields: seq<Field>)
  datatype Field = Scalar(value: int) | Part(part: Value) | Inner(fields: seq<Field>)

  function Address(t: Tree): nat {
    if t.Null? then 0 else t.at
  }

  function CellOf(n: Node): Cell {
    match n
    case Number(value) => Word(value)
    case Owner(tree) => Ref(Address(tree))
    case Struct(nodes) => Fields(CellsOf(nodes))
  }

  function CellsOf(nodes: seq<Node>): (cells: seq<Cell>)
    ensures |cells| == |nodes| && forall i :: 0 <= i < |nodes| ==> cells[i] == CellOf(nodes[i])
  {
    if nodes == [] then [] else [CellOf(nodes[0])] + CellsOf(nodes[1..])
  }

  function Keys(t: Tree): set<nat> {
    match t
    case Null => {}
    case Text(at, _) => {at}
    case Table(at, nodes) => {at} + KeysAll(nodes)
  }

  function NodeKeys(n: Node): set<nat> {
    match n
    case Number(_) => {}
    case Owner(tree) => Keys(tree)
    case Struct(nodes) => KeysAll(nodes)
  }

  function KeysAll(nodes: seq<Node>): set<nat> {
    if nodes == [] then {} else NodeKeys(nodes[0]) + KeysAll(nodes[1..])
  }

  /** No address occurs twice, and none is null. */
  predicate Separate(t: Tree) {
    match t
    case Null => true
    case Text(at, _) => at != 0
    case Table(at, nodes) => at != 0 && at !in KeysAll(nodes) && SeparateAll(nodes)
  }

  predicate NodeSeparate(n: Node) {
    match n
    case Number(_) => true
    case Owner(tree) => Separate(tree)
    case Struct(nodes) => SeparateAll(nodes)
  }

  predicate SeparateAll(nodes: seq<Node>) {
    nodes == []
    || (NodeSeparate(nodes[0]) && NodeKeys(nodes[0]) !! KeysAll(nodes[1..]) && SeparateAll(nodes[1..]))
  }

  /** Memory holds the tree at its addresses. */
  predicate Stored(blocks: Blocks, t: Tree) {
    match t
    case Null => true
    case Text(at, text) => at in blocks && blocks[at] == Chars(text)
    case Table(at, nodes) => at in blocks && blocks[at] == Cells(CellsOf(nodes)) && StoredAll(blocks, nodes)
  }

  predicate NodeStored(blocks: Blocks, n: Node) {
    match n
    case Number(_) => true
    case Owner(tree) => Stored(blocks, tree)
    case Struct(nodes) => StoredAll(blocks, nodes)
  }

  predicate StoredAll(blocks: Blocks, nodes: seq<Node>) {
    nodes == [] || (NodeStored(blocks, nodes[0]) && StoredAll(blocks, nodes[1..]))
  }

  function ValueOf(t: Tree): Value {
    match t
    case Null => Absent
    case Text(_, text) => Letters(text)
    case Table(_, nodes) => Record(FieldsOf(nodes))
  }

  function FieldOf(n: Node): Field {
    match n
    case Number(value) => Scalar(value)
    case Owner(tree) => Part(ValueOf(tree))
    case Struct(nodes) => Inner(FieldsOf(nodes))
  }

  function FieldsOf(nodes: seq<Node>): (fields: seq<Field>)
    ensures |fields| == |nodes| && forall i :: 0 <= i < |nodes| ==> fields[i] == FieldOf(nodes[i])
  {
    if nodes == [] then [] else [FieldOf(nodes[0])] + FieldsOf(nodes[1..])
  }

  lemma {:induction false} KeysAreStored(blocks: Blocks, t: Tree)
    requires Stored(blocks, t)
    ensures Keys(t) <= blocks.Keys
    decreases t
  {
    if t.Table? {
      AllKeysAreStored(blocks, t.nodes);
    }
  }

  lemma {:induction false} NodeKeysAreStored(blocks: Blocks, n: Node)
    requires NodeStored(blocks, n)
    ensures NodeKeys(n) <= blocks.Keys
    decreases n
  {
    match n
    case Number(_) =>
    case Owner(tree) => KeysAreStored(blocks, tree);
    case Struct(nodes) => AllKeysAreStored(blocks, nodes);
  }

  lemma {:induction false} AllKeysAreStored(blocks: Blocks, nodes: seq<Node>)
    requires StoredAll(blocks, nodes)
    ensures KeysAll(nodes) <= blocks.Keys
    decreases nodes
  {
    if nodes != [] {
      NodeKeysAreStored(blocks, nodes[0]);
      AllKeysAreStored(blocks, nodes[1..]);
    }
  }

  /** The blocks at some addresses are the same in both memories. */
  predicate Agree(was: Blocks, now: Blocks, keys: set<nat>) {
    forall k :: k in keys && k in was ==> k in now && now[k] == was[k]
  }

  lemma {:induction false} StaysStored(was: Blocks, now: Blocks, t: Tree)
    requires Stored(was, t) && Agree(was, now, Keys(t))
    ensures Stored(now, t)
    decreases t
  {
    if t.Table? {
      assert Agree(was, now, KeysAll(t.nodes));
      StayStored(was, now, t.nodes);
    }
  }

  lemma {:induction false} NodeStaysStored(was: Blocks, now: Blocks, n: Node)
    requires NodeStored(was, n) && Agree(was, now, NodeKeys(n))
    ensures NodeStored(now, n)
    decreases n
  {
    match n
    case Number(_) =>
    case Owner(tree) => StaysStored(was, now, tree);
    case Struct(nodes) => StayStored(was, now, nodes);
  }

  lemma {:induction false} StayStored(was: Blocks, now: Blocks, nodes: seq<Node>)
    requires StoredAll(was, nodes) && Agree(was, now, KeysAll(nodes))
    ensures StoredAll(now, nodes)
    decreases nodes
  {
    if nodes != [] {
      assert Agree(was, now, NodeKeys(nodes[0])) && Agree(was, now, KeysAll(nodes[1..]));
      NodeStaysStored(was, now, nodes[0]);
      StayStored(was, now, nodes[1..]);
    }
  }

  lemma {:induction false} Append(blocks: Blocks, a: seq<Node>, b: seq<Node>)
    ensures KeysAll(a + b) == KeysAll(a) + KeysAll(b)
    ensures SeparateAll(a + b) <==> SeparateAll(a) && SeparateAll(b) && KeysAll(a) !! KeysAll(b)
    ensures StoredAll(blocks, a + b) <==> StoredAll(blocks, a) && StoredAll(blocks, b)
  {
    if a == [] {
      assert a + b == b;
    } else {
      Append(blocks, a[1..], b);
      assert (a + b)[1..] == a[1..] + b;
    }
  }

  lemma {:induction false} One(blocks: Blocks, n: Node)
    ensures KeysAll([n]) == NodeKeys(n) && (SeparateAll([n]) <==> NodeSeparate(n))
    ensures StoredAll(blocks, [n]) <==> NodeStored(blocks, n)
  {
    assert [n][1..] == [];
  }

  lemma {:induction false} At(blocks: Blocks, nodes: seq<Node>, i: nat)
    requires i < |nodes|
    ensures StoredAll(blocks, nodes) ==> NodeStored(blocks, nodes[i])
    ensures SeparateAll(nodes) ==> NodeSeparate(nodes[i])
    ensures NodeKeys(nodes[i]) <= KeysAll(nodes)
  {
    if i > 0 {
      At(blocks, nodes[1..], i - 1);
    }
  }

  // ----- growing

  /** now is was with exactly the blocks of the nodes added. */
  predicate Grown(was: Blocks, now: Blocks, nodes: seq<Node>) {
    && now.Keys == was.Keys + KeysAll(nodes) && was.Keys !! KeysAll(nodes)
    && Agree(was, now, was.Keys)
    && SeparateAll(nodes) && StoredAll(now, nodes)
  }

  lemma {:induction false} GrownMore(was: Blocks, mid: Blocks, now: Blocks, a: seq<Node>, b: seq<Node>)
    requires Grown(was, mid, a) && Grown(mid, now, b)
    ensures Grown(was, now, a + b)
  {
    Append(now, a, b);
    assert Agree(mid, now, KeysAll(a));
    StayStored(mid, now, a);
  }

  /** What owns nothing takes no block. */
  lemma {:induction false} GrownNothing(blocks: Blocks, n: Node)
    requires NodeKeys(n) == {} && NodeSeparate(n) && NodeStored(blocks, n)
    ensures Grown(blocks, blocks, [n])
  {
    One(blocks, n);
  }

  lemma {:induction false} SplitAt(nodes: seq<Node>, i: nat, n: Node)
    requires i < |nodes|
    ensures nodes == nodes[..i] + [nodes[i]] + nodes[i + 1..]
    ensures nodes[i := n] == nodes[..i] + [n] + nodes[i + 1..]
  {
  }

  lemma {:induction false} AppendThree(blocks: Blocks, a: seq<Node>, n: Node, b: seq<Node>)
    ensures KeysAll(a + [n] + b) == KeysAll(a) + NodeKeys(n) + KeysAll(b)
    ensures SeparateAll(a + [n] + b) <==>
      && SeparateAll(a) && NodeSeparate(n) && SeparateAll(b)
      && KeysAll(a) !! NodeKeys(n) && KeysAll(a) + NodeKeys(n) !! KeysAll(b)
    ensures StoredAll(blocks, a + [n] + b) <==> StoredAll(blocks, a) && NodeStored(blocks, n) && StoredAll(blocks, b)
  {
    One(blocks, n);
    Append(blocks, a, [n]);
    Append(blocks, a + [n], b);
  }

  /** An element that owned nothing is replaced by one whose blocks were added. */
  lemma {:induction false} GrownSet(start: Blocks, before: Blocks, now: Blocks, nodes: seq<Node>, i: nat, n: Node)
    requires Grown(start, before, nodes) && i < |nodes| && NodeKeys(nodes[i]) == {} && Grown(before, now, [n])
    ensures Grown(start, now, nodes[i := n])
  {
    var a, b := nodes[..i], nodes[i + 1..];
    SplitAt(nodes, i, n);
    AppendThree(before, a, nodes[i], b);
    AppendThree(now, a, n, b);
    One(now, n);
    StayStored(before, now, a);
    StayStored(before, now, b);
  }

  /** A block that was there before gets new contents. */
  lemma {:induction false} GrownAround(was: Blocks, now: Blocks, nodes: seq<Node>, q: nat, block: Block)
    requires Grown(was, now, nodes) && q in was
    ensures Grown(was[q := block], now[q := block], nodes)
  {
    StayStored(now, now[q := block], nodes);
  }

  lemma {:induction false} SetCells(nodes: seq<Node>, i: nat, n: Node)
    requires i < |nodes|
    ensures CellsOf(nodes[i := n]) == CellsOf(nodes)[i := CellOf(n)]
    ensures FieldsOf(nodes[i := n]) == FieldsOf(nodes)[i := FieldOf(n)]
  {
  }

  // ----- an array that was added at an address

  ghost predicate TableAt(start: Blocks, now: Blocks, q: nat, nodes: seq<Node>) {
    && q != 0 && q !in start && q in now && now[q] == Cells(CellsOf(nodes))
    && Grown(start[q := now[q]], now, nodes)
  }

  lemma {:induction false} TableIsOwned(start: Blocks, now: Blocks, q: nat, nodes: seq<Node>)
    requires TableAt(start, now, q, nodes)
    ensures Grown(start, now, [Owner(Table(q, nodes))])
  {
    One(now, Owner(Table(q, nodes)));
  }

  lemma {:induction false} SourceStays(start: Blocks, now: Blocks, q: nat, nodes: seq<Node>, from: seq<Node>)
    requires TableAt(start, now, q, nodes) && StoredAll(start, from)
    ensures StoredAll(now, from)
  {
    AllKeysAreStored(start, from);
    StayStored(start, now, from);
  }

  /** Element i owned nothing; now n's blocks were added and its cell stored. */
  lemma {:induction false} TableSet(start: Blocks, before: Blocks, mid: Blocks, q: nat, nodes: seq<Node>, i: nat, n: Node)
    requires TableAt(start, before, q, nodes) && i < |nodes| && NodeKeys(nodes[i]) == {} && Grown(before, mid, [n])
    ensures q in mid && mid[q] == before[q]
    ensures TableAt(start, mid[q := Cells(CellsOf(nodes)[i := CellOf(n)])], q, nodes[i := n])
  {
    var base := start[q := before[q]];
    var block := Cells(CellsOf(nodes)[i := CellOf(n)]);
    GrownSet(base, before, mid, nodes, i, n);
    SetCells(nodes, i, n);
    GrownAround(base, mid, nodes[i := n], q, block);
    assert base[q := block] == start[q := block];
  }

  // ----- memory that calloc cleared

  function Blanks(count: nat, zero: Node): (nodes: seq<Node>)
    ensures |nodes| == count && forall i :: 0 <= i < count ==> nodes[i] == zero
  {
    if count == 0 then [] else [zero] + Blanks(count - 1, zero)
  }

  lemma {:induction false} BlanksOwnNothing(blocks: Blocks, count: nat, zero: Node)
    requires NodeKeys(zero) == {} && NodeSeparate(zero) && NodeStored(blocks, zero)
    ensures KeysAll(Blanks(count, zero)) == {} && SeparateAll(Blanks(count, zero)) && StoredAll(blocks, Blanks(count, zero))
  {
    if count > 0 {
      BlanksOwnNothing(blocks, count - 1, zero);
      assert Blanks(count, zero)[1..] == Blanks(count - 1, zero);
    }
  }

  lemma {:induction false} TableStarted(start: Blocks, q: nat, count: nat, zero: Node)
    requires q != 0 && q !in start && NodeKeys(zero) == {} && NodeSeparate(zero) && NodeStored(start, zero)
    ensures var nodes := Blanks(count, zero); TableAt(start, start[q := Cells(CellsOf(nodes))], q, nodes)
  {
    var now := start[q := Cells(CellsOf(Blanks(count, zero)))];
    NodeStaysStored(start, now, zero);
    BlanksOwnNothing(now, count, zero);
  }

  // ----- shrinking

  /** The blocks of the first j nodes are released, those of the others are there. */
  predicate Freeing(start: Blocks, now: Blocks, nodes: seq<Node>, j: nat) {
    && j <= |nodes| && now == start - (KeysAll(nodes) - KeysAll(nodes[j..]))
    && KeysAll(nodes[j..]) <= KeysAll(nodes)
    && SeparateAll(nodes[j..]) && StoredAll(now, nodes[j..])
  }

  lemma {:induction false} FreeingStart(blocks: Blocks, nodes: seq<Node>)
    requires SeparateAll(nodes) && StoredAll(blocks, nodes)
    ensures Freeing(blocks, blocks, nodes, 0)
  {
    assert nodes[0..] == nodes;
  }

  lemma {:induction false} FreeingHas(start: Blocks, now: Blocks, nodes: seq<Node>, j: nat)
    requires Freeing(start, now, nodes, j) && j < |nodes|
    ensures NodeSeparate(nodes[j]) && NodeStored(now, nodes[j])
  {
    assert nodes[j..][0] == nodes[j];
  }

  lemma {:induction false} FreeingNext(start: Blocks, before: Blocks, now: Blocks, nodes: seq<Node>, j: nat)
    requires Freeing(start, before, nodes, j) && j < |nodes| && now == before - NodeKeys(nodes[j])
    ensures Freeing(start, now, nodes, j + 1)
  {
    var rest := nodes[j..];
    assert rest[0] == nodes[j] && rest[1..] == nodes[j + 1..];
    StayStored(before, now, rest[1..]);
  }

  lemma {:induction false} FreeingEnd(start: Blocks, now: Blocks, nodes: seq<Node>)
    requires Freeing(start, now, nodes, |nodes|)
    ensures now == start - KeysAll(nodes)
  {
    assert nodes[|nodes|..] == [];
  }
}
