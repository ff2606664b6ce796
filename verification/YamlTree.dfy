/** The part of a YAML node tree the config editors touch: an alias-free tree of heap nodes,
    and the value it stands for. Comments and positions are not part of the value. */
module YamlTree {

  /** Anything but the first four (an alias, or an empty document's zero node) is Other. */
  datatype Kind = Document | Mapping | Sequence | Scalar | Other

  datatype Tree = Tree(kind: Kind, tag: string, value: string, style: nat, content: seq<Tree>)

  class Node {
    var kind: Kind
    var tag: string
    var value: string
    var style: nat
    var content: seq<Node>

    constructor (kind: Kind, tag: string, value: string)
      ensures this.kind == kind && this.tag == tag && this.value == value && style == 0 && content == []
    {
      this.kind, this.tag, this.value, style, content := kind, tag, value, 0, [];
    }
  }

  /** Which node sits where: the shape of the tree, without the nodes' fields. */
  datatype Layout = Layout(node: Node, children: seq<Layout>)

  ghost function Nodes(l: Layout): set<Node> {
    {l.node} + set c, n | c in l.children && n in Nodes(c) :: n
  }

  /** No node occurs twice: the tree has no alias. */
  ghost predicate Separate(l: Layout) {
    && (forall i :: 0 <= i < |l.children| ==> Separate(l.children[i]) && l.node !in Nodes(l.children[i]))
    && (forall i, j :: 0 <= i < j < |l.children| ==> Nodes(l.children[i]) !! Nodes(l.children[j]))
  }

  /** The heap's content fields link the nodes as the layout says. */
  ghost predicate Linked(l: Layout)
    reads Nodes(l)
  {
    && |l.node.content| == |l.children|
    && (forall i :: 0 <= i < |l.children| ==> l.node.content[i] == l.children[i].node && Linked(l.children[i]))
  }

  /** The tree a linked layout stands for. */
  ghost function View(l: Layout): Tree
    reads Nodes(l)
  {
    Tree(l.node.kind, l.node.tag, l.node.value, l.node.style,
         seq(|l.children|, i requires 0 <= i < |l.children| reads Nodes(l) => View(l.children[i])))
  }

  lemma ChildNodes(l: Layout, i: nat)
    requires i < |l.children|
    ensures Nodes(l.children[i]) <= Nodes(l)
  {}

  // ---------------------------------------------------------------- subtrees by position

  ghost predicate ValidPos(l: Layout, pos: seq<nat>) {
    pos == [] || (pos[0] < |l.children| && ValidPos(l.children[pos[0]], pos[1..]))
  }

  ghost function Sub(l: Layout, pos: seq<nat>): Layout
    requires ValidPos(l, pos)
  {
    if pos == [] then l else Sub(l.children[pos[0]], pos[1..])
  }

  ghost function Put(l: Layout, pos: seq<nat>, sub: Layout): Layout
    requires ValidPos(l, pos)
  {
    if pos == [] then sub
    else l.(children := l.children[pos[0] := Put(l.children[pos[0]], pos[1..], sub)])
  }

  ghost predicate ValidTreePos(t: Tree, pos: seq<nat>) {
    pos == [] || (pos[0] < |t.content| && ValidTreePos(t.content[pos[0]], pos[1..]))
  }

  ghost function PutTree(t: Tree, pos: seq<nat>, sub: Tree): Tree
    requires ValidTreePos(t, pos)
  {
    if pos == [] then sub
    else t.(content := t.content[pos[0] := PutTree(t.content[pos[0]], pos[1..], sub)])
  }

  ghost function TreeAt(t: Tree, pos: seq<nat>): Tree
    requires ValidTreePos(t, pos)
  {
    if pos == [] then t else TreeAt(t.content[pos[0]], pos[1..])
  }

  lemma {:induction false} SubNodes(l: Layout, pos: seq<nat>)
    requires ValidPos(l, pos)
    ensures Nodes(Sub(l, pos)) <= Nodes(l) && Sub(l, pos).node in Nodes(Sub(l, pos))
    decreases pos
  {
    if pos != [] {
      SubNodes(l.children[pos[0]], pos[1..]);
    }
  }

  lemma {:induction false} PutPos(l: Layout, pos: seq<nat>, sub: Layout)
    requires ValidPos(l, pos)
    ensures ValidPos(Put(l, pos, sub), pos) && Sub(Put(l, pos, sub), pos) == sub
    decreases pos
  {
    if pos != [] {
      PutPos(l.children[pos[0]], pos[1..], sub);
    }
  }

  lemma {:induction false} PosConcat(l: Layout, pos: seq<nat>, i: nat)
    requires ValidPos(l, pos) && i < |Sub(l, pos).children|
    ensures ValidPos(l, pos + [i]) && Sub(l, pos + [i]) == Sub(l, pos).children[i]
    decreases pos
  {
    if pos == [] {
      assert ([] + [i])[1..] == [];
    } else {
      PosConcat(l.children[pos[0]], pos[1..], i);
      assert (pos + [i])[1..] == pos[1..] + [i];
    }
  }

  lemma {:induction false} PutTreeConcat(t: Tree, pos: seq<nat>, i: nat, mid: Tree, sub: Tree)
    requires ValidTreePos(t, pos) && i < |mid.content|
    ensures ValidTreePos(PutTree(t, pos, mid), pos + [i])
    ensures PutTree(PutTree(t, pos, mid), pos + [i], sub) == PutTree(t, pos, mid.(content := mid.content[i := sub]))
    ensures TreeAt(PutTree(t, pos, mid), pos + [i]) == mid.content[i]
    decreases pos
  {
    if pos == [] {
      assert ([] + [i])[1..] == [];
    } else {
      PutTreeConcat(t.content[pos[0]], pos[1..], i, mid, sub);
      assert (pos + [i])[1..] == pos[1..] + [i];
    }
  }

  lemma {:induction false} ViewPos(l: Layout, pos: seq<nat>)
    requires ValidPos(l, pos)
    ensures ValidTreePos(View(l), pos) && TreeAt(View(l), pos) == View(Sub(l, pos))
    ensures PutTree(View(l), pos, View(Sub(l, pos))) == View(l)
    decreases pos
  {
    if pos != [] {
      ViewPos(l.children[pos[0]], pos[1..]);
      assert View(l).content[pos[0]] == View(l.children[pos[0]]);
    }
  }

  lemma {:induction false} LinkedSub(l: Layout, pos: seq<nat>)
    requires ValidPos(l, pos)
    ensures Linked(l) ==> Linked(Sub(l, pos))
    ensures Separate(l) ==> Separate(Sub(l, pos))
    decreases pos
  {
    if pos != [] {
      LinkedSub(l.children[pos[0]], pos[1..]);
    }
  }

  // ---------------------------------------------------------------- framing

  /** Everything outside the subtree at `pos` stands for its part of `t`. Depends on no node of
      that subtree, so it survives any change made inside it. */
  ghost predicate Around(l: Layout, pos: seq<nat>, t: Tree)
    requires Separate(l) && ValidPos(l, pos)
    reads Nodes(l) - Nodes(Sub(l, pos))
    decreases pos
  {
    pos != [] ==>
      var k, n := pos[0], l.node;
      SubNodes(l.children[k], pos[1..]);
      ChildNodes(l, k);
      && n.kind == t.kind && n.tag == t.tag && n.value == t.value && n.style == t.style
      && |n.content| == |l.children| == |t.content|
      && (forall i :: 0 <= i < |l.children| ==> n.content[i] == l.children[i].node)
      && (forall i :: 0 <= i < |l.children| && i != k ==> Linked(l.children[i]) && View(l.children[i]) == t.content[i])
      && Around(l.children[k], pos[1..], t.content[k])
  }

  lemma {:induction false} LinkedAround(l: Layout, pos: seq<nat>, t: Tree)
    requires Linked(l) && Separate(l) && ValidPos(l, pos) && View(l) == t
    ensures Around(l, pos, t)
    decreases pos
  {
    if pos != [] {
      LinkedAround(l.children[pos[0]], pos[1..], t.content[pos[0]]);
    }
  }

  /** Replacing one child's layout keeps the nodes apart, if the newcomer brings only its own. */
  lemma PutSeparate(l: Layout, k: nat, child: Layout)
    requires Separate(l) && k < |l.children| && Separate(child)
    requires forall n :: n in Nodes(child) && n in Nodes(l) ==> n in Nodes(l.children[k])
    ensures Separate(l.(children := l.children[k := child]))
  {
    var l' := l.(children := l.children[k := child]);
    ChildNodes(l, k);
    assert l.node !in Nodes(child);
    forall i, j | 0 <= i < j < |l'.children| ensures Nodes(l'.children[i]) !! Nodes(l'.children[j]) {
      ChildNodes(l, i);
      ChildNodes(l, j);
    }
  }

  lemma PlugChild(l: Layout, pos: seq<nat>, t: Tree, child: Layout)
    requires Separate(l) && ValidPos(l, pos) && pos != [] && Around(l, pos, t)
    requires Linked(child) && child.node == l.children[pos[0]].node
    ensures Linked(l.(children := l.children[pos[0] := child]))
    ensures View(l.(children := l.children[pos[0] := child])) == t.(content := t.content[pos[0] := View(child)])
  {
    var l' := l.(children := l.children[pos[0] := child]);
    assert View(l').content == t.content[pos[0] := View(child)];
  }

  /** Where the surroundings of a subtree are intact, whatever now stands there is plugged in. */
  lemma {:induction false} Plug(l: Layout, pos: seq<nat>, t: Tree, sub: Layout)
    requires Separate(l) && ValidPos(l, pos) && Around(l, pos, t)
    requires Linked(sub) && sub.node == Sub(l, pos).node
    ensures Linked(Put(l, pos, sub)) && Put(l, pos, sub).node == l.node
    ensures ValidTreePos(t, pos) && View(Put(l, pos, sub)) == PutTree(t, pos, View(sub))
    decreases pos
  {
    if pos != [] {
      Plug(l.children[pos[0]], pos[1..], t.content[pos[0]], sub);
      PlugChild(l, pos, t, Put(l.children[pos[0]], pos[1..], sub));
    }
  }

  /** Plugging in keeps the nodes apart, if the newcomer brings only its own. */
  lemma {:induction false} PlugSeparate(l: Layout, pos: seq<nat>, sub: Layout)
    requires Separate(l) && ValidPos(l, pos) && Separate(sub)
    requires forall n :: n in Nodes(sub) && n in Nodes(l) ==> n in Nodes(Sub(l, pos))
    ensures Separate(Put(l, pos, sub))
    ensures forall n :: n in Nodes(Put(l, pos, sub)) ==> n in Nodes(l) || n in Nodes(sub)
    decreases pos
  {
    if pos != [] {
      var k := pos[0];
      SubNodes(l.children[k], pos[1..]);
      ChildNodes(l, k);
      PlugSeparate(l.children[k], pos[1..], sub);
      PutSeparate(l, k, Put(l.children[k], pos[1..], sub));
    }
  }

  /** The plugged tree, seen from the position it was plugged in at. */
  lemma PlugAt(l: Layout, pos: seq<nat>, t: Tree, sub: Layout) returns (l': Layout)
    requires Separate(l) && ValidPos(l, pos) && Around(l, pos, t)
    requires Linked(sub) && Separate(sub) && sub.node == Sub(l, pos).node
    requires forall n :: n in Nodes(sub) && n in Nodes(l) ==> n in Nodes(Sub(l, pos))
    ensures Linked(l') && Separate(l') && l'.node == l.node && ValidPos(l', pos) && Sub(l', pos) == sub
    ensures forall n :: n in Nodes(l') ==> n in Nodes(l) || n in Nodes(sub)
    ensures ValidTreePos(t, pos) && View(l') == PutTree(t, pos, View(sub))
  {
    Plug(l, pos, t, sub);
    PlugSeparate(l, pos, sub);
    PutPos(l, pos, sub);
    l' := Put(l, pos, sub);
  }

  lemma Leaf(n: Node)
    requires n.content == []
    ensures Linked(Layout(n, [])) && Separate(Layout(n, [])) && Nodes(Layout(n, [])) == {n}
    ensures View(Layout(n, [])) == Tree(n.kind, n.tag, n.value, n.style, [])
  {}
}
