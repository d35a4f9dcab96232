/** The structures of src/landlock_policy_ir.h as they stand in memory. */
module CShapes {
  import opened Bytes
  import opened CMemory

  // ----- strings and counted arrays

  /** A pointer to a string, or null. */
  predicate IsText(n: Node) {
    n.Owner? && (n.tree.Text? ==> n.tree.at != 0) && !n.tree.Table?
  }

  /** A count and a pointer to that many elements; null when there are none. */
  predicate IsArray(shape: Node -> bool, n: Node) {
    && n.Struct? && |n.nodes| == 2 && n.nodes[0].Number? && n.nodes[1].Owner?
    && Fills(shape, n.nodes[0].value, n.nodes[1].tree)
  }

  predicate Fills(shape: Node -> bool, count: int, t: Tree) {
    match t
    case Null => count == 0
    case Text(_, _) => false
    case Table(_, nodes) => count == |nodes| > 0 && AllShaped(shape, nodes)
  }

  predicate AllShaped(shape: Node -> bool, nodes: seq<Node>) {
    forall i :: 0 <= i < |nodes| ==> shape(nodes[i])
  }

  /** The count and the pointer. */
  function ArrayNode(count: int, t: Tree): Node {
    Struct([Number(count), Owner(t)])
  }

  function TreeOf(n: Node): Tree
    requires n.Struct? && |n.nodes| == 2 && n.nodes[1].Owner?
  {
    n.nodes[1].tree
  }

  function NodesOf(t: Tree): seq<Node> {
    if t.Table? then t.nodes else []
  }

  // ----- elements

  /** struct landlockd_policy_ir_fs_rule. */
  predicate IsRule(n: Node) {
    n.Struct? && |n.nodes| == 2 && n.nodes[0].Number? && IsText(n.nodes[1])
  }

  /** struct landlockd_policy_ir_fs_layer. */
  predicate IsLayer(n: Node) {
    n.Struct? && |n.nodes| == 2 && n.nodes[0].Number? && IsArray(IsRule, n.nodes[1])
  }

  /** struct landlockd_policy_ir_net_rule. */
  predicate IsNetRule(n: Node) {
    n.Struct? && |n.nodes| == 2 && n.nodes[0].Number? && n.nodes[1].Number?
  }

  /** struct landlockd_policy_ir_broker_open_rule and landlockd_policy_ir_mount_rule. */
  predicate IsPath(n: Node) {
    n.Struct? && |n.nodes| == 1 && IsText(n.nodes[0])
  }

  /** struct landlockd_policy_ir_bind_mount_rule. */
  predicate IsBind(n: Node) {
    n.Struct? && |n.nodes| == 3 && IsText(n.nodes[0]) && IsText(n.nodes[1]) && n.nodes[2].Number?
  }

  /** struct landlockd_policy_ir_mount_object_rule. */
  predicate IsObject(n: Node) {
    && n.Struct? && |n.nodes| == 4 && IsText(n.nodes[0]) && IsText(n.nodes[1])
    && IsArray(IsText, n.nodes[2]) && n.nodes[3].Number?
  }

  /** struct landlockd_policy_ir_broker_addfd_rule. */
  predicate IsAddfd(n: Node) {
    n.Struct? && |n.nodes| == 3 && IsText(n.nodes[0]) && IsText(n.nodes[1]) && IsText(n.nodes[2])
  }

  /** struct landlockd_policy_ir_seccomp_rule. */
  predicate IsDeny(n: Node) {
    n.Struct? && |n.nodes| == 1 && n.nodes[0].Number?
  }

  // ----- complete elements: the strings that strdup reads are there

  predicate HasText(n: Node) {
    n.Owner? && n.tree.Text?
  }

  predicate RuleGiven(n: Node) {
    IsRule(n) && HasText(n.nodes[1])
  }

  predicate LayerGiven(n: Node) {
    n.Struct? && |n.nodes| == 2 && n.nodes[0].Number? && IsArray(RuleGiven, n.nodes[1])
  }

  predicate PathGiven(n: Node) {
    IsPath(n) && HasText(n.nodes[0])
  }

  predicate BindGiven(n: Node) {
    IsBind(n) && HasText(n.nodes[0]) && HasText(n.nodes[1])
  }

  predicate ObjectGiven(n: Node) {
    && n.Struct? && |n.nodes| == 4 && HasText(n.nodes[0]) && HasText(n.nodes[1])
    && IsArray(HasText, n.nodes[2]) && TreeOf(n.nodes[2]).Table? && n.nodes[3].Number?
  }

  predicate AddfdGiven(n: Node) {
    IsAddfd(n) && HasText(n.nodes[0]) && HasText(n.nodes[1])
  }

  // ----- zeroed elements

  const NULL: Node := Owner(Null)
  const NO_ARRAY: Node := ArrayNode(0, Null)
  const ZERO_RULE: Node := Struct([Number(0), NULL])
  const ZERO_LAYER: Node := Struct([Number(0), NO_ARRAY])
  const ZERO_NET_RULE: Node := Struct([Number(0), Number(0)])
  const ZERO_PATH: Node := Struct([NULL])
  const ZERO_BIND: Node := Struct([NULL, NULL, Number(0)])
  const ZERO_OBJECT: Node := Struct([NULL, NULL, NO_ARRAY, Number(0)])
  const ZERO_ADDFD: Node := Struct([NULL, NULL, NULL])
  const ZERO_DENY: Node := Struct([Number(0)])

  /** A node without pointers takes no block. */
  ghost predicate Bare(n: Node) {
    NodeKeys(n) == {} && NodeSeparate(n) && forall blocks: Blocks :: NodeStored(blocks, n)
  }

  lemma {:induction false} BareParts(nodes: seq<Node>)
    requires forall i :: 0 <= i < |nodes| ==> Bare(nodes[i])
    ensures Bare(Struct(nodes))
  {
    if nodes == [] {
    } else {
      BareParts(nodes[1..]);
      forall blocks: Blocks ensures StoredAll(blocks, nodes) {
        assert NodeStored(blocks, nodes[0]) && NodeStored(blocks, Struct(nodes[1..]));
      }
    }
  }

  lemma {:induction false} ZerosAreBare()
    ensures Bare(NULL) && Bare(NO_ARRAY)
    ensures Bare(ZERO_RULE) && Bare(ZERO_LAYER) && Bare(ZERO_NET_RULE) && Bare(ZERO_PATH)
    ensures Bare(ZERO_BIND) && Bare(ZERO_OBJECT) && Bare(ZERO_ADDFD) && Bare(ZERO_DENY)
  {
    assert Bare(Number(0)) && Bare(NULL);
    BareParts([Number(0), NULL]);
    BareParts([Number(0), NO_ARRAY]);
    BareParts([Number(0), Number(0)]);
    BareParts([NULL]);
    BareParts([NULL, NULL, Number(0)]);
    BareParts([NULL, NULL, NO_ARRAY, Number(0)]);
    BareParts([NULL, NULL, NULL]);
    BareParts([Number(0)]);
  }

  // ----- structures of two, three and four fields

  lemma {:induction false} Two(blocks: Blocks, nodes: seq<Node>)
    requires |nodes| == 2
    ensures KeysAll(nodes) == NodeKeys(nodes[0]) + NodeKeys(nodes[1])
    ensures SeparateAll(nodes) <==> NodeSeparate(nodes[0]) && NodeSeparate(nodes[1]) && NodeKeys(nodes[0]) !! NodeKeys(nodes[1])
    ensures StoredAll(blocks, nodes) <==> NodeStored(blocks, nodes[0]) && NodeStored(blocks, nodes[1])
  {
    assert nodes == [nodes[0]] + [nodes[1]];
    One(blocks, nodes[0]);
    One(blocks, nodes[1]);
    Append(blocks, [nodes[0]], [nodes[1]]);
  }

  lemma {:induction false} FirstAndRest(blocks: Blocks, nodes: seq<Node>)
    requires nodes != []
    ensures KeysAll(nodes) == NodeKeys(nodes[0]) + KeysAll(nodes[1..])
    ensures SeparateAll(nodes) <==> NodeSeparate(nodes[0]) && SeparateAll(nodes[1..]) && NodeKeys(nodes[0]) !! KeysAll(nodes[1..])
    ensures StoredAll(blocks, nodes) <==> NodeStored(blocks, nodes[0]) && StoredAll(blocks, nodes[1..])
  {
  }

  /** What a counted array is in memory. */
  predicate Holds(blocks: Blocks, p: nat, nodes: seq<Node>) {
    if p == 0 then nodes == []
    else p in blocks && blocks[p] == Cells(CellsOf(nodes)) && p !in KeysAll(nodes)
  }

  lemma {:induction false} ArrayHolds(shape: Node -> bool, blocks: Blocks, n: Node)
    requires IsArray(shape, n) && NodeStored(blocks, n) && NodeSeparate(n)
    ensures var t := TreeOf(n);
      && NodeKeys(n) == Keys(t) && n.nodes[0].value == |NodesOf(t)|
      && Holds(blocks, Address(t), NodesOf(t)) && AllShaped(shape, NodesOf(t))
      && SeparateAll(NodesOf(t)) && StoredAll(blocks, NodesOf(t)) && Stored(blocks, t) && Separate(t)
  {
    Two(blocks, n.nodes);
  }
}
