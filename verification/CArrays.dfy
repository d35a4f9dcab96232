/** Counted arrays while they are being copied. */
module CArrays {
  import opened Bytes
  import opened CMemory
  import opened CShapes

  ghost predicate Filling(shape: Node -> bool, start: Blocks, now: Blocks, q: nat, all: seq<Node>, from: seq<Node>, i: nat) {
    && TableAt(start, now, q, all) && |all| == |from| && AllShaped(shape, all)
    && (forall k :: 0 <= k < |all| && k < i ==> FieldOf(all[k]) == FieldOf(from[k]))
    && (forall k :: i <= k < |all| ==> NodeKeys(all[k]) == {})
  }

  /** The loop is over: all elements copied, or broken off with some of them zero. */
  ghost predicate Filled(shape: Node -> bool, start: Blocks, now: Blocks, q: nat, all: seq<Node>, from: seq<Node>, ok: bool) {
    TableAt(start, now, q, all) && |all| == |from| && AllShaped(shape, all) && (ok ==> Filling(shape, start, now, q, all, from, |all|))
  }

  lemma {:induction false} FillStart(shape: Node -> bool, start: Blocks, q: nat, zero: Node, from: seq<Node>)
    requires q != 0 && q !in start && Bare(zero) && shape(zero)
    ensures var all := Blanks(|from|, zero);
      Filling(shape, start, start[q := Cells(CellsOf(all))], q, all, from, 0)
  {
    TableStarted(start, q, |from|, zero);
  }

  /** Element i was copied, completely or not, and stored. */
  lemma {:induction false} FillNext(shape: Node -> bool, start: Blocks, before: Blocks, mid: Blocks, q: nat, all: seq<Node>,
                                    from: seq<Node>, i: nat, n: Node)
    requires Filling(shape, start, before, q, all, from, i) && i < |all| && Grown(before, mid, [n]) && shape(n)
    ensures q in mid && mid[q] == Cells(CellsOf(all))
    ensures var now := mid[q := Cells(CellsOf(all)[i := CellOf(n)])];
      && Filled(shape, start, now, q, all[i := n], from, false)
      && (FieldOf(n) == FieldOf(from[i]) ==> Filling(shape, start, now, q, all[i := n], from, i + 1))
  {
    TableSet(start, before, mid, q, all, i, n);
  }

  lemma {:induction false} SameFields(a: seq<Node>, b: seq<Node>)
    requires |a| == |b| && forall k :: 0 <= k < |a| ==> FieldOf(a[k]) == FieldOf(b[k])
    ensures FieldsOf(a) == FieldsOf(b)
  {
  }

  lemma {:induction false} Packed(before: Blocks, now: Blocks, nodes: seq<Node>)
    requires Grown(before, now, nodes)
    ensures Grown(before, now, [Struct(nodes)])
  {
    One(now, Struct(nodes));
  }

  /** The count and the pointer of an array that was added. */
  lemma {:induction false} ArrayMade(shape: Node -> bool, start: Blocks, now: Blocks, q: nat, all: seq<Node>)
    requires TableAt(start, now, q, all) && all != [] && AllShaped(shape, all)
    ensures var n := ArrayNode(|all|, Table(q, all)); IsArray(shape, n) && Grown(start, now, [n])
  {
    TableIsOwned(start, now, q, all);
    var owner := Owner(Table(q, all));
    Two(now, [Number(|all|), owner]);
    One(now, owner);
    One(now, ArrayNode(|all|, Table(q, all)));
  }

  lemma {:induction false} NoArrayMade(shape: Node -> bool, blocks: Blocks)
    ensures IsArray(shape, NO_ARRAY) && Grown(blocks, blocks, [NO_ARRAY])
  {
    ZerosAreBare();
    GrownNothing(blocks, NO_ARRAY);
  }

  /** What a copy of an array is, complete or not. */
  ghost predicate ArrayCopied(shape: Node -> bool, before: Blocks, now: Blocks, made: Cell, n: Node, from: Node, ok: bool) {
    made == CellOf(n) && IsArray(shape, n) && Grown(before, now, [n]) && (ok ==> FieldOf(n) == FieldOf(from))
  }

  /** The loop broke off: the array counts all its elements, some of them zero. */
  lemma {:induction false} ArrayBroken(shape: Node -> bool, start: Blocks, now: Blocks, q: nat, all: seq<Node>, from: Node)
    requires TableAt(start, now, q, all) && all != [] && AllShaped(shape, all)
    ensures ArrayCopied(shape, start, now, Fields([Word(|all|), Ref(q)]), ArrayNode(|all|, Table(q, all)), from, false)
  {
    ArrayMade(shape, start, now, q, all);
  }

  lemma {:induction false} SameArray(a: Node, b: Node)
    requires a.Struct? && b.Struct? && |a.nodes| == |b.nodes| == 2
    requires FieldOf(a.nodes[0]) == FieldOf(b.nodes[0]) && FieldOf(a.nodes[1]) == FieldOf(b.nodes[1])
    ensures FieldOf(a) == FieldOf(b)
  {
    SameFields(a.nodes, b.nodes);
  }

  lemma {:induction false} ArrayDone(shape: Node -> bool, given: Node -> bool, start: Blocks, now: Blocks, q: nat,
                                     all: seq<Node>, from: Node)
    requires IsArray(given, from) && TreeOf(from).Table?
    requires Filling(shape, start, now, q, all, TreeOf(from).nodes, |all|)
    ensures ArrayCopied(shape, start, now, Fields([Word(|all|), Ref(q)]), ArrayNode(|all|, Table(q, all)), from, true)
  {
    ArrayMade(shape, start, now, q, all);
    SameFields(all, TreeOf(from).nodes);
    SameArray(from, ArrayNode(|all|, Table(q, all)));
  }

  /** Nothing to copy, or no memory for the array: count and pointer stay zero. */
  lemma {:induction false} ArrayNone(shape: Node -> bool, given: Node -> bool, blocks: Blocks, from: Node)
    requires IsArray(given, from)
    ensures ArrayCopied(shape, blocks, blocks, Fields([Word(0), Ref(0)]), NO_ARRAY, from, TreeOf(from).Null?)
  {
    NoArrayMade(shape, blocks);
    assert TreeOf(from).Null? ==> from.nodes == NO_ARRAY.nodes;
  }

  /** Element j of the source is where it was. */
  lemma {:induction false} SourceElement(given: Node -> bool, start: Blocks, now: Blocks, q: nat, all: seq<Node>, from: Node, j: nat)
    requires IsArray(given, from) && NodeStored(start, from) && TableAt(start, now, q, all)
    requires TreeOf(from).Table? && j < |TreeOf(from).nodes|
    ensures var p, nodes := TreeOf(from).at, TreeOf(from).nodes;
      && p in now && now[p] == Cells(CellsOf(nodes)) && given(nodes[j]) && NodeStored(now, nodes[j])
      && now[p].cells[j] == CellOf(nodes[j])
  {
    Two(start, from.nodes);
    var p, nodes := TreeOf(from).at, TreeOf(from).nodes;
    SourceStays(start, now, q, all, nodes);
    At(now, nodes, j);
  }

  /** A source array and the place where its elements are. */
  ghost predicate SourceArray(given: Node -> bool, blocks: Blocks, p: nat, count: int, from: Node) {
    IsArray(given, from) && NodeStored(blocks, from) && TreeOf(from).Table? && p == TreeOf(from).at && count == |NodesOf(TreeOf(from))|
  }

  lemma {:induction false} ArrayConcluded(shape: Node -> bool, given: Node -> bool, start: Blocks, now: Blocks, q: nat,
                                          all: seq<Node>, from: Node, ok: bool)
    requires IsArray(given, from) && TreeOf(from).Table? && Filled(shape, start, now, q, all, NodesOf(TreeOf(from)), ok)
    ensures ArrayCopied(shape, start, now, Fields([Word(|all|), Ref(q)]), ArrayNode(|all|, Table(q, all)), from, ok)
  {
    if ok {
      ArrayDone(shape, given, start, now, q, all, from);
    } else {
      ArrayBroken(shape, start, now, q, all, from);
    }
  }

  lemma {:induction false} FillEnd(shape: Node -> bool, start: Blocks, now: Blocks, q: nat, all: seq<Node>, from: seq<Node>)
    requires Filling(shape, start, now, q, all, from, |from|)
    ensures Filled(shape, start, now, q, all, from, true)
  {
  }

  /** Element j of the source, and how it stands in memory. */
  lemma {:induction false} SourceHas(shape: Node -> bool, given: Node -> bool, start: Blocks, now: Blocks, q: nat, all: seq<Node>,
                                     from: Node, p: nat, count: int, j: nat)
    requires SourceArray(given, start, p, count, from) && Filling(shape, start, now, q, all, NodesOf(TreeOf(from)), j) && j < count
    ensures var nodes := NodesOf(TreeOf(from));
      && p in now && now[p].Cells? && j < |now[p].cells| && j < |nodes| == |all| && given(nodes[j]) && NodeStored(now, nodes[j])
      && now[p].cells[j] == CellOf(nodes[j])
  {
    SourceElement(given, start, now, q, all, from, j);
  }

  lemma {:induction false} SourceIs(given: Node -> bool, blocks: Blocks, p: nat, count: int, from: Node)
    requires IsArray(given, from) && NodeStored(blocks, from) && count != 0
    requires CellOf(from) == Fields([Word(count), Ref(p)])
    ensures SourceArray(given, blocks, p, count, from)
  {
    assert CellOf(from).cells[0] == Word(from.nodes[0].value) && CellOf(from).cells[1] == Ref(Address(TreeOf(from)));
  }

  lemma {:induction false} ZeroText()
    ensures Bare(NULL) && IsText(NULL)
  {
    ZerosAreBare();
  }

  lemma {:induction false} ZeroRule()
    ensures Bare(ZERO_RULE) && IsRule(ZERO_RULE)
  {
    ZerosAreBare();
  }

  lemma {:induction false} ZeroLayer()
    ensures Bare(ZERO_LAYER) && IsLayer(ZERO_LAYER)
  {
    ZerosAreBare();
  }

  lemma {:induction false} ZeroNetRule()
    ensures Bare(ZERO_NET_RULE) && IsNetRule(ZERO_NET_RULE)
  {
    ZerosAreBare();
  }

  lemma {:induction false} ZeroPath()
    ensures Bare(ZERO_PATH) && IsPath(ZERO_PATH)
  {
    ZerosAreBare();
  }

  lemma {:induction false} ZeroBind()
    ensures Bare(ZERO_BIND) && IsBind(ZERO_BIND)
  {
    ZerosAreBare();
  }

  lemma {:induction false} ZeroObject()
    ensures Bare(ZERO_OBJECT) && IsObject(ZERO_OBJECT)
  {
    ZerosAreBare();
  }

  lemma {:induction false} ZeroAddfd()
    ensures Bare(ZERO_ADDFD) && IsAddfd(ZERO_ADDFD)
  {
    ZerosAreBare();
  }

  lemma {:induction false} ZeroDeny()
    ensures Bare(ZERO_DENY) && IsDeny(ZERO_DENY)
  {
    ZerosAreBare();
  }
}
