/** core/config/write.go: setting one nested key of a config file in its node tree. */
module YamlPatch {
  import opened Wrappers
  import opened YamlTree

  // ---------------------------------------------------------------- on values

  /** mappingValue: where the value of the first pair with this key stands, or -1. */
  function Find(content: seq<Tree>, key: string): (v: int)
    ensures v == -1 || (1 <= v < |content| && v % 2 == 1 && content[v - 1].value == key)
    ensures forall j :: 0 <= j < |content| - 1 && j % 2 == 0 && content[j].value == key ==> 1 <= v <= j + 1
  {
    FindFrom(content, key, 0)
  }

  function FindFrom(content: seq<Tree>, key: string, from: nat): (v: int)
    requires from % 2 == 0
    ensures v == -1 || (from + 1 <= v < |content| && v % 2 == 1 && content[v - 1].value == key)
    ensures forall j :: from <= j < |content| - 1 && j % 2 == 0 && content[j].value == key ==> 1 <= v <= j + 1
    decreases |content| - from
  {
    if from + 1 >= |content| then -1
    else if content[from].value == key then from + 1
    else FindFrom(content, key, from + 2)
  }

  function ScalarTree(tag: string, value: string): Tree {
    Tree(Scalar, tag, value, 0, [])
  }

  function KeyTree(key: string): Tree {
    ScalarTree("!!str", key)
  }

  const EMPTY_MAPPING := Tree(Mapping, "!!map", "", 0, [])

  /** An intermediate that is not a mapping becomes an empty one, keeping only its style. */
  function AsMapping(t: Tree): Tree {
    if t.kind == Mapping then t else Tree(Mapping, "!!map", "", t.style, [])
  }

  /** The mapping `t` with the scalar set at `path`. */
  function PatchTree(t: Tree, path: seq<string>, tag: string, value: string): Tree
    requires path != []
    decreases |path|
  {
    var v := Find(t.content, path[0]);
    var child := if v < 0 then EMPTY_MAPPING else AsMapping(t.content[v]);
    var patched := if |path| == 1 then ScalarTree(tag, value) else PatchTree(child, path[1..], tag, value);
    t.(content := if v < 0 then t.content + [KeyTree(path[0]), patched] else t.content[v := patched])
  }

  /** Looking a path up: only mappings have keys, and the first pair with a key counts. */
  function Lookup(t: Tree, path: seq<string>): Option<Tree>
    decreases |path|
  {
    if path == [] then Some(t)
    else if t.kind != Mapping then None
    else
      var v := Find(t.content, path[0]);
      if v < 0 then None else Lookup(t.content[v], path[1..])
  }

  /** What the parser guarantees: a mapping's content is key, value, key, value, ... */
  ghost predicate Paired(t: Tree) {
    && (t.kind == Mapping ==> |t.content| % 2 == 0)
    && forall i :: 0 <= i < |t.content| ==> Paired(t.content[i])
  }

  function Keys(content: seq<Tree>): seq<string> {
    if |content| < 2 then [] else [content[0].value] + Keys(content[2..])
  }

  // ---------------------------------------------------------------- laws on values

  lemma FindAppended(content: seq<Tree>, k: Tree, v: Tree, key: string)
    requires |content| % 2 == 0
    ensures Find(content + [k, v], key)
         == if Find(content, key) >= 0 then Find(content, key) else if k.value == key then |content| + 1 else -1
  {
    var c := content + [k, v];
    assert forall j :: 0 <= j < |content| ==> c[j] == content[j];
    assert c[|content|] == k;
    var found := Find(c, key);
    assert found >= 0 ==> c[found - 1].value == key;
  }

  lemma FindReplaced(content: seq<Tree>, v: int, t: Tree, key: string)
    requires 1 <= v < |content| && v % 2 == 1
    ensures Find(content[v := t], key) == Find(content, key)
  {
    var c := content[v := t];
    assert forall j :: 0 <= j < |content| && j % 2 == 0 ==> c[j] == content[j];
  }

  /** The key just written is found at its place, and every other key where it was. */
  lemma FindPatched(t: Tree, path: seq<string>, tag: string, value: string, key: string)
    requires path != [] && |t.content| % 2 == 0
    ensures var c := PatchTree(t, path, tag, value).content;
            && (key != path[0] ==> Find(c, key) == Find(t.content, key))
            && (key != path[0] && Find(c, key) >= 0 ==> c[Find(c, key)] == t.content[Find(c, key)])
            && Find(c, path[0]) == (if Find(t.content, path[0]) >= 0 then Find(t.content, path[0]) else |t.content| + 1)
  {
    var v := Find(t.content, path[0]);
    var c := PatchTree(t, path, tag, value).content;
    if v < 0 {
      FindAppended(t.content, KeyTree(path[0]), c[|t.content| + 1], key);
      FindAppended(t.content, KeyTree(path[0]), c[|t.content| + 1], path[0]);
    } else {
      FindReplaced(t.content, v, c[v], key);
      FindReplaced(t.content, v, c[v], path[0]);
    }
  }

  /** The child the patch goes on with. */
  function Next(t: Tree, key: string): Tree {
    var v := Find(t.content, key);
    if v < 0 then EMPTY_MAPPING else AsMapping(t.content[v])
  }

  lemma NextPaired(t: Tree, key: string)
    requires Paired(t)
    ensures Paired(Next(t, key)) && Next(t, key).kind == Mapping
  {}

  lemma {:induction false} PatchedPaired(t: Tree, path: seq<string>, tag: string, value: string)
    requires path != [] && Paired(t) && t.kind == Mapping
    ensures Paired(PatchTree(t, path, tag, value)) && PatchTree(t, path, tag, value).kind == Mapping
    decreases |path|
  {
    if |path| > 1 {
      NextPaired(t, path[0]);
      PatchedPaired(Next(t, path[0]), path[1..], tag, value);
    }
    assert Paired(ScalarTree(tag, value)) && Paired(KeyTree(path[0]));
  }

  /** What stands under the first key of the path after patching. */
  lemma PatchedChild(t: Tree, path: seq<string>, tag: string, value: string)
    requires path != [] && Paired(t) && t.kind == Mapping
    ensures var c := PatchTree(t, path, tag, value).content;
            Find(c, path[0]) >= 0
            && c[Find(c, path[0])]
                 == if |path| == 1 then ScalarTree(tag, value) else PatchTree(Next(t, path[0]), path[1..], tag, value)
  {
    FindPatched(t, path, tag, value, path[0]);
  }

  /** Put then get: the patched path now holds exactly the new scalar. */
  lemma {:induction false} LookupPatched(t: Tree, path: seq<string>, tag: string, value: string)
    requires path != [] && Paired(t) && t.kind == Mapping
    ensures Lookup(PatchTree(t, path, tag, value), path) == Some(Tree(Scalar, tag, value, 0, []))
    decreases |path|
  {
    PatchedChild(t, path, tag, value);
    if |path| > 1 {
      NextPaired(t, path[0]);
      LookupPatched(Next(t, path[0]), path[1..], tag, value);
    }
  }

  /** Looking below the first key of the path is looking at the patched child. */
  lemma LookupBelow(t: Tree, path: seq<string>, tag: string, value: string, q: seq<string>)
    requires |path| > 1 && Paired(t) && t.kind == Mapping && q != [] && q[0] == path[0]
    ensures Lookup(PatchTree(t, path, tag, value), q)
         == Lookup(PatchTree(Next(t, path[0]), path[1..], tag, value), q[1..])
  {
    PatchedChild(t, path, tag, value);
  }

  lemma LookupNext(t: Tree, q: seq<string>)
    requires t.kind == Mapping && |q| > 1
    ensures Lookup(t, q) == Lookup(Next(t, q[0]), q[1..])
  {
    var v := Find(t.content, q[0]);
    if v < 0 || t.content[v].kind != Mapping {
      assert Lookup(Next(t, q[0]), q[1..]) == None;
    }
  }

  /** Every path that is neither a prefix nor an extension of the patched one looks up exactly as
      before, even below an intermediate that had to be turned into a mapping. */
  lemma {:induction false} LookupElsewhere(t: Tree, path: seq<string>, tag: string, value: string, q: seq<string>)
    requires path != [] && Paired(t) && t.kind == Mapping
    requires !(q <= path) && !(path <= q)
    ensures Lookup(PatchTree(t, path, tag, value), q) == Lookup(t, q)
    decreases |path|
  {
    if q[0] == path[0] {
      assert [path[0]] <= q && |path| > 1;
      assert q == [q[0]] + q[1..] && path == [path[0]] + path[1..];
      assert q[1..] != [];
      LookupBelow(t, path, tag, value, q);
      NextPaired(t, path[0]);
      LookupElsewhere(Next(t, path[0]), path[1..], tag, value, q[1..]);
      LookupNext(t, q);
    } else {
      FindPatched(t, path, tag, value, q[0]);
    }
  }

  /** The last of two patches to a path decides. */
  lemma {:induction false} PatchTwice(t: Tree, path: seq<string>, tag: string, value: string, tag': string,
        value': string)
    requires path != [] && Paired(t) && t.kind == Mapping
    ensures PatchTree(PatchTree(t, path, tag, value), path, tag', value') == PatchTree(t, path, tag', value')
    decreases |path|
  {
    if |path| > 1 {
      NextPaired(t, path[0]);
      PatchedPaired(Next(t, path[0]), path[1..], tag, value);
      PatchTwice(Next(t, path[0]), path[1..], tag, value, tag', value');
    }
    SetTwice(t, path, tag, value, tag', value');
  }

  lemma SetTwice(t: Tree, path: seq<string>, tag: string, value: string, tag': string, value': string)
    requires path != [] && Paired(t) && t.kind == Mapping
    requires |path| > 1 ==>
               var next := Next(t, path[0]);
               var c := PatchTree(next, path[1..], tag, value);
               c.kind == Mapping && PatchTree(c, path[1..], tag', value') == PatchTree(next, path[1..], tag', value')
    ensures PatchTree(PatchTree(t, path, tag, value), path, tag', value') == PatchTree(t, path, tag', value')
  {
    var once := PatchTree(t, path, tag, value);
    FindPatched(t, path, tag, value, path[0]);
    PatchedChild(t, path, tag, value);
    assert PatchTree(once, path, tag', value').content == PatchTree(t, path, tag', value').content;
  }

  /** Get then put: writing back the scalar that is already there changes nothing. */
  lemma {:induction false} PatchSame(t: Tree, path: seq<string>, tag: string, value: string)
    requires path != [] && Lookup(t, path) == Some(Tree(Scalar, tag, value, 0, []))
    ensures PatchTree(t, path, tag, value) == t
    decreases |path|
  {
    var v := Find(t.content, path[0]);
    if |path| == 1 {
      assert path[1..] == [];
    } else {
      PatchSame(t.content[v], path[1..], tag, value);
    }
    assert t.content[v := t.content[v]] == t.content;
  }

  lemma {:induction false} KeysAppended(content: seq<Tree>, k: Tree, v: Tree)
    requires |content| % 2 == 0
    ensures Keys(content + [k, v]) == Keys(content) + [k.value]
    decreases |content|
  {
    if |content| < 2 {
      assert content + [k, v] == [k, v];
    } else {
      KeysAppended(content[2..], k, v);
      assert (content + [k, v])[2..] == content[2..] + [k, v];
    }
  }

  lemma {:induction false} KeysReplaced(content: seq<Tree>, v: nat, t: Tree)
    requires v < |content| && v % 2 == 1
    ensures Keys(content[v := t]) == Keys(content)
    decreases |content|
  {
    if v == 1 {
      assert content[v := t][2..] == content[2..];
    } else {
      KeysReplaced(content[2..], v - 2, t);
      assert content[v := t][2..] == content[2..][v - 2 := t];
    }
  }

  ghost predicate KeysKept(before: Tree, after: Tree, key: string) {
    && after.kind == Mapping && after.tag == before.tag && after.style == before.style
    && var keys := Keys(before.content);
    Keys(after.content) == if Find(before.content, key) >= 0 then keys else keys + [key]
  }

  lemma TopKeysKept(t: Tree, path: seq<string>, tag: string, value: string)
    requires path != [] && Paired(t) && t.kind == Mapping
    ensures KeysKept(t, PatchTree(t, path, tag, value), path[0])
  {
    var c := PatchTree(t, path, tag, value).content;
    var v := Find(t.content, path[0]);
    if v < 0 {
      KeysAppended(t.content, KeyTree(path[0]), c[|t.content| + 1]);
    } else {
      KeysReplaced(t.content, v, c[v]);
    }
  }

  /** In every mapping on the way down, the existing keys keep their order and at most the next
      key of the path is added behind them. */
  lemma {:induction false} KeyOrderKept(t: Tree, path: seq<string>, tag: string, value: string, q: seq<string>)
    requires path != [] && Paired(t) && t.kind == Mapping && q < path
    requires Lookup(t, q).Some? && Lookup(t, q).value.kind == Mapping
    ensures Lookup(PatchTree(t, path, tag, value), q).Some?
    ensures KeysKept(Lookup(t, q).value, Lookup(PatchTree(t, path, tag, value), q).value, path[|q|])
    decreases |path|
  {
    if q == [] {
      TopKeysKept(t, path, tag, value);
    } else {
      LookupBelow(t, path, tag, value, q);
      NextPaired(t, path[0]);
      assert q[0] == path[0] && q[1..] < path[1..] && path[1..][|q| - 1] == path[|q|];
      var v := Find(t.content, path[0]);
      MappingAbove(t.content[v], q[1..]);
      KeyOrderKept(t.content[v], path[1..], tag, value, q[1..]);
    }
  }

  lemma MappingAbove(t: Tree, q: seq<string>)
    requires Lookup(t, q).Some? && Lookup(t, q).value.kind == Mapping
    ensures t.kind == Mapping && AsMapping(t) == t
  {}

  /** A mapping after one more pair, or with one value replaced: what stands under the key is x. */
  function Extended(m: Tree, key: string, x: Tree): Tree {
    var v := Find(m.content, key);
    m.(content := if v < 0 then m.content + [Tree(Scalar, "!!str", key, 0, []), x] else m.content[v := x])
  }

  lemma TopExtended(t: Tree, path: seq<string>, tag: string, value: string)
    requires path != [] && Paired(t) && t.kind == Mapping
    ensures var p := PatchTree(t, path, tag, value);
            Lookup(p, [path[0]]).Some? && p == Extended(t, path[0], Lookup(p, [path[0]]).value)
  {
    PatchedChild(t, path, tag, value);
    FindPatched(t, path, tag, value, path[0]);
    assert [path[0]][1..] == [];
  }

  /** Looking below the first key after patching, one key further too. */
  lemma LookupBoth(t: Tree, path: seq<string>, tag: string, value: string, q: seq<string>, key: string)
    requires |path| > 1 && Paired(t) && t.kind == Mapping && q != [] && q[0] == path[0]
    ensures var p, p' := PatchTree(t, path, tag, value), PatchTree(Next(t, path[0]), path[1..], tag, value);
            Lookup(p, q) == Lookup(p', q[1..]) && Lookup(p, q + [key]) == Lookup(p', q[1..] + [key])
  {
    LookupBelow(t, path, tag, value, q);
    LookupBelow(t, path, tag, value, q + [key]);
    assert (q + [key])[1..] == q[1..] + [key];
  }

  lemma PrefixBelow(q: seq<string>, path: seq<string>)
    requires q != [] && q < path
    ensures q[0] == path[0] && q[1..] < path[1..] && path[1..][|q| - 1] == path[|q|]
  {}

  /** A mapping on the way down that was there already: everything in it stays, but for the value under
      the next key, or that key and its value at the end. */
  lemma {:induction false} OldMappings(t: Tree, path: seq<string>, tag: string, value: string, q: seq<string>)
    requires path != [] && Paired(t) && t.kind == Mapping && q < path
    requires Lookup(t, q).Some? && Lookup(t, q).value.kind == Mapping
    ensures var p, key := PatchTree(t, path, tag, value), path[|q|];
            && Lookup(p, q + [key]).Some?
            && Lookup(p, q) == Some(Extended(Lookup(t, q).value, key, Lookup(p, q + [key]).value))
    decreases |path|
  {
    if q == [] {
      TopExtended(t, path, tag, value);
      assert q + [path[0]] == [path[0]];
    } else {
      PrefixBelow(q, path);
      LookupBoth(t, path, tag, value, q, path[|q|]);
      NextPaired(t, path[0]);
      OldNext(t, q);
      OldMappings(Next(t, path[0]), path[1..], tag, value, q[1..]);
    }
  }

  lemma OldNext(t: Tree, q: seq<string>)
    requires q != [] && t.kind == Mapping && Lookup(t, q).Some? && Lookup(t, q).value.kind == Mapping
    ensures Lookup(Next(t, q[0]), q[1..]) == Lookup(t, q)
  {
    MappingAbove(t.content[Find(t.content, q[0])], q[1..]);
  }

  lemma NextIsEmpty(t: Tree, key: string)
    requires t.kind == Mapping
    requires Lookup(t, [key]).Some? ==> Lookup(t, [key]).value.kind != Mapping
    ensures var style := if Lookup(t, [key]).Some? then Lookup(t, [key]).value.style else 0;
            Next(t, key) == Tree(Mapping, "!!map", "", style, [])
  {
    assert [key][1..] == [];
  }

  lemma EmptyExtended(style: nat, key: string, x: Tree)
    ensures Extended(Tree(Mapping, "!!map", "", style, []), key, x)
         == Tree(Mapping, "!!map", "", style, [Tree(Scalar, "!!str", key, 0, []), x])
  {
    assert [] + [Tree(Scalar, "!!str", key, 0, []), x] == [Tree(Scalar, "!!str", key, 0, []), x];
  }

  /** Where there was `was`, if anything, there is now a mapping with this key and x alone. */
  ghost predicate MadeFor(key: string, was: Option<Tree>, now: Option<Tree>, x: Option<Tree>) {
    && x.Some?
    && var style := if was.Some? then was.value.style else 0;
    now == Some(Tree(Mapping, "!!map", "", style, [Tree(Scalar, "!!str", key, 0, []), x.value]))
  }

  lemma NewMappingHere(t: Tree, path: seq<string>, tag: string, value: string)
    requires |path| > 1 && Paired(t) && t.kind == Mapping
    requires Lookup(t, [path[0]]).Some? ==> Lookup(t, [path[0]]).value.kind != Mapping
    ensures var p := PatchTree(Next(t, path[0]), path[1..], tag, value);
            MadeFor(path[1], Lookup(t, [path[0]]), Lookup(p, []), Lookup(p, [path[1]]))
  {
    NextPaired(t, path[0]);
    NextIsEmpty(t, path[0]);
    TopExtended(Next(t, path[0]), path[1..], tag, value);
    EmptyExtended(Next(t, path[0]).style, path[1],
                  Lookup(PatchTree(Next(t, path[0]), path[1..], tag, value), [path[1]]).value);
  }

  lemma NewMappingBelow(t: Tree, path: seq<string>, tag: string, value: string, q: seq<string>, was: Option<Tree>)
    requires |path| > 1 && Paired(t) && t.kind == Mapping && q != [] && q < path
    requires var p := PatchTree(Next(t, path[0]), path[1..], tag, value);
             MadeFor(path[|q|], was, Lookup(p, q[1..]), Lookup(p, q[1..] + [path[|q|]]))
    ensures var p := PatchTree(t, path, tag, value);
            MadeFor(path[|q|], was, Lookup(p, q), Lookup(p, q + [path[|q|]]))
  {
    PrefixBelow(q, path);
    LookupBoth(t, path, tag, value, q, path[|q|]);
  }

  /** One that was missing, or something else: it holds the next key of the path and nothing more, and
      of what stood there only the style is left. */
  lemma {:induction false} NewMappings(t: Tree, path: seq<string>, tag: string, value: string, q: seq<string>)
    requires path != [] && Paired(t) && t.kind == Mapping && q != [] && q < path
    requires Lookup(t, q).Some? ==> Lookup(t, q).value.kind != Mapping
    ensures var p, key := PatchTree(t, path, tag, value), path[|q|];
            MadeFor(key, Lookup(t, q), Lookup(p, q), Lookup(p, q + [key]))
    decreases |path|
  {
    PrefixBelow(q, path);
    if |q| == 1 {
      assert q == [path[0]] && q[1..] == [] && [] + [path[1]] == [path[1]];
      NewMappingHere(t, path, tag, value);
    } else {
      NextPaired(t, path[0]);
      LookupNext(t, q);
      NewMappings(Next(t, path[0]), path[1..], tag, value, q[1..]);
    }
    NewMappingBelow(t, path, tag, value, q, Lookup(t, q));
  }

  // ---------------------------------------------------------------- in place

  /** mappingValue's search; -1 stands for nil. */
  method MappingValue(m: Node, key: string, ghost l: Layout) returns (v: int)
    requires Linked(l) && l.node == m
    ensures v == Find(View(l).content, key)
  {
    var i := 0;
    while i + 1 < |m.content|
      invariant 0 <= i && i % 2 == 0
      invariant FindFrom(View(l).content, key, i) == Find(View(l).content, key)
    {
      assert View(l).content[i] == View(l.children[i]);
      if m.content[i].value == key {
        return i + 1;
      }
      i := i + 2;
    }
    return -1;
  }

  /** What hangs below a node stands for `content`; independent of the node's own fields. */
  ghost predicate Below(l: Layout, content: seq<Tree>)
    requires Separate(l)
    reads Nodes(l) - {l.node}
  {
    && |content| == |l.children|
    && forall i :: 0 <= i < |l.children| ==>
         (ChildNodes(l, i); Linked(l.children[i]) && View(l.children[i]) == content[i])
  }

  /** Two leaves more behind the children, once the content field links them. */
  lemma Appended(l: Layout, k: Node, value: Node, content: seq<Tree>) returns (l': Layout)
    requires Separate(l) && k !in Nodes(l) && value !in Nodes(l) && k != value && k.content == [] && value.content == []
    requires Below(l, content) && l.node.content == ChildRefs(l) + [k, value]
    ensures l' == Layout(l.node, l.children + [Layout(k, []), Layout(value, [])])
    ensures Linked(l') && Separate(l') && (forall n :: n in Nodes(l') ==> n in Nodes(l) || n == value || n == k)
    ensures View(l').content == content + [View(Layout(k, [])), View(Layout(value, []))]
  {
    l' := Layout(l.node, l.children + [Layout(k, []), Layout(value, [])]);
    Leaf(k);
    Leaf(value);
    AppendedNodes(l, k, value);
    AppendedViews(l, l', k, value, content);
  }

  lemma LeafNodes(n: Node)
    ensures Nodes(Layout(n, [])) == {n} && Separate(Layout(n, []))
  {}

  ghost function WithLeaf(l: Layout, n: Node): Layout {
    l.(children := l.children + [Layout(n, [])])
  }

  lemma WithLeafNodes(l: Layout, n: Node)
    ensures Nodes(WithLeaf(l, n)) == Nodes(l) + {n}
  {
    var l', leaf := WithLeaf(l, n), Layout(n, []);
    LeafNodes(n);
    assert l'.children[|l.children|] == leaf && leaf in l'.children;
    forall c | c in l.children ensures c in l'.children {}
    forall x ensures x in Nodes(l') <==> x in Nodes(l) + {n} {
      if x in Nodes(l') && x != l.node {
        var c :| c in l'.children && x in Nodes(c);
      }
    }
  }

  lemma WithLeafSeparate(l: Layout, n: Node)
    requires Separate(l) && n !in Nodes(l)
    ensures Separate(WithLeaf(l, n))
  {
    var l' := WithLeaf(l, n);
    LeafNodes(n);
    forall i | 0 <= i < |l.children| ensures l'.children[i] == l.children[i] && n !in Nodes(l.children[i]) {
      ChildNodes(l, i);
    }
  }

  lemma AppendedNodes(l: Layout, k: Node, value: Node)
    requires Separate(l) && k !in Nodes(l) && value !in Nodes(l) && k != value
    ensures var l' := Layout(l.node, l.children + [Layout(k, []), Layout(value, [])]);
            Separate(l') && forall n :: n in Nodes(l') ==> n in Nodes(l) || n == value || n == k
  {
    var l' := Layout(l.node, l.children + [Layout(k, []), Layout(value, [])]);
    assert l'.children == l.children + [Layout(k, [])] + [Layout(value, [])];
    assert l' == WithLeaf(WithLeaf(l, k), value);
    WithLeafNodes(l, k);
    WithLeafSeparate(l, k);
    WithLeafNodes(WithLeaf(l, k), value);
    WithLeafSeparate(WithLeaf(l, k), value);
  }

  lemma AppendedViews(l: Layout, l': Layout, k: Node, value: Node, content: seq<Tree>)
    requires Separate(l) && Below(l, content)
    requires l' == Layout(l.node, l.children + [Layout(k, []), Layout(value, [])])
    requires Linked(Layout(k, [])) && Linked(Layout(value, []))
    requires l.node.content == ChildRefs(l) + [k, value]
    ensures Linked(l')
    ensures View(l').content == content + [View(Layout(k, [])), View(Layout(value, []))]
  {
    forall i | 0 <= i < |l'.children|
      ensures l'.node.content[i] == l'.children[i].node && Linked(l'.children[i])
      ensures View(l'.children[i]) == (content + [View(Layout(k, [])), View(Layout(value, []))])[i]
    {
      if i < |l.children| {
        assert l'.children[i] == l.children[i];
      }
    }
  }

  ghost function ChildRefs(l: Layout): seq<Node> {
    seq(|l.children|, i requires 0 <= i < |l.children| => l.children[i].node)
  }

  lemma BelowIntro(l: Layout, t: Tree)
    requires Linked(l) && Separate(l) && View(l) == t
    ensures Below(l, t.content) && l.node.content == ChildRefs(l)
  {}

  method Link(m: Node, k: Node, value: Node)
    modifies m
    ensures m.content == old(m.content) + [k, value]
    ensures m.kind == old(m.kind) && m.tag == old(m.tag) && m.value == old(m.value) && m.style == old(m.style)
  {
    m.content := m.content + [k, value];
  }

  /** appendMapping: a new key node and the given value node behind the node's content. */
  method AppendMapping(m: Node, key: string, value: Node, ghost l: Layout, ghost t: Tree, ghost v: Tree,
        ghost all: set<Node>)
    returns (ghost l': Layout)
    requires Linked(l) && Separate(l) && l.node == m && View(l) == t && Nodes(l) <= all
    requires value !in all && value.content == [] && View(Layout(value, [])) == v
    modifies m
    ensures Linked(l') && Separate(l') && l'.node == m
    ensures forall n :: n in Nodes(l') ==> n in Nodes(l) || n == value || fresh(n)
    ensures forall n :: n in Nodes(l') && n in all ==> n in Nodes(l)
    ensures |l'.children| == |l.children| + 2 && l'.children[|l.children| + 1] == Layout(value, [])
    ensures View(l') == t.(content := t.content + [KeyTree(key), v])
  {
    BelowIntro(l, t);
    assert Below(l, t.content) && allocated(Nodes(l));
    var k := new Node(Scalar, "!!str", key);
    assert Below(l, t.content);
    Link(m, k, value);
    assert Below(l, t.content);
    Leaf(k);
    Leaf(value);
    l' := Appended(l, k, value, t.content);
  }

  lemma AppendedThere(l: Layout, pos: seq<nat>, t: Tree, sub: Layout, last: nat, value: Node) returns (l': Layout)
    requires Separate(l) && ValidPos(l, pos) && Around(l, pos, t)
    requires Linked(sub) && Separate(sub) && sub.node == Sub(l, pos).node
    requires forall n :: n in Nodes(sub) && n in Nodes(l) ==> n in Nodes(Sub(l, pos))
    requires last < |sub.children| && sub.children[last] == Layout(value, [])
    ensures Linked(l') && Separate(l') && l'.node == l.node
    ensures forall n :: n in Nodes(l') ==> n in Nodes(l) || n in Nodes(sub)
    ensures ValidPos(l', pos + [last]) && Sub(l', pos + [last]).node == value
    ensures ValidTreePos(t, pos) && View(l') == PutTree(t, pos, View(sub))
  {
    l' := PlugAt(l, pos, t, sub);
    PosConcat(l', pos, last);
  }

  /** The pair is appended to the mapping node at `pos`; everything outside it stands as before. */
  method AppendUnder(m: Node, key: string, value: Node, ghost l: Layout, ghost pos: seq<nat>, ghost t: Tree,
        ghost s: Tree, ghost v: Tree)
    returns (ghost sub': Layout)
    requires Linked(l) && Separate(l) && ValidPos(l, pos) && Sub(l, pos).node == m && View(l) == t
    requires View(Sub(l, pos)) == s
    requires Linked(Sub(l, pos)) && Separate(Sub(l, pos)) && |s.content| == |Sub(l, pos).children|
    requires value !in Nodes(l) && value.content == [] && View(Layout(value, [])) == v
    modifies m
    ensures Around(l, pos, t) && Linked(sub') && Separate(sub') && sub'.node == m
    ensures forall n :: n in Nodes(sub') ==> n in Nodes(l) || n == value || fresh(n)
    ensures forall n :: n in Nodes(sub') && n in Nodes(l) ==> n in Nodes(Sub(l, pos))
    ensures |sub'.children| == |s.content| + 2 && sub'.children[|s.content| + 1] == Layout(value, [])
    ensures View(sub') == s.(content := s.content + [KeyTree(key), v])
  {
    LinkedAround(l, pos, t);
    SubNodes(l, pos);
    assert Around(l, pos, t) && allocated(Nodes(l));
    sub' := AppendMapping(m, key, value, Sub(l, pos), s, v, Nodes(l));
    assert Around(l, pos, t);
  }

  /** The same, with the layout of the whole tree. */
  method AppendAt(m: Node, key: string, value: Node, ghost l: Layout, ghost pos: seq<nat>, ghost t: Tree,
        ghost s: Tree, ghost v: Tree)
    returns (ghost l': Layout)
    requires Linked(l) && Separate(l) && ValidPos(l, pos) && Sub(l, pos).node == m
    requires View(l) == t && View(Sub(l, pos)) == s
    requires Linked(Sub(l, pos)) && Separate(Sub(l, pos)) && |s.content| == |Sub(l, pos).children|
    requires value !in Nodes(l) && value.content == [] && View(Layout(value, [])) == v
    modifies m
    ensures Linked(l') && Separate(l') && l'.node == l.node
    ensures forall n :: n in Nodes(l') ==> n in Nodes(l) || n == value || fresh(n)
    ensures ValidPos(l', pos + [|s.content| + 1]) && Sub(l', pos + [|s.content| + 1]).node == value
    ensures ValidTreePos(t, pos) && View(l') == PutTree(t, pos, s.(content := s.content + [KeyTree(key), v]))
  {
    ghost var sub' := AppendUnder(m, key, value, l, pos, t, s, v);
    l' := AppendedThere(l, pos, t, sub', |s.content| + 1, value);
  }

  /** appendMapping with a node made for the purpose. */
  method AppendNew(m: Node, key: string, kind: Kind, tag: string, value: string,
                   ghost l: Layout, ghost pos: seq<nat>, ghost t: Tree, ghost s: Tree)
    returns (n: Node, ghost l': Layout)
    requires Linked(l) && Separate(l) && ValidPos(l, pos) && Sub(l, pos).node == m
    requires View(l) == t && View(Sub(l, pos)) == s
    requires Linked(Sub(l, pos)) && Separate(Sub(l, pos)) && |s.content| == |Sub(l, pos).children|
    modifies m
    ensures Linked(l') && Separate(l') && l'.node == l.node
    ensures forall x :: x in Nodes(l') ==> x in Nodes(l) || fresh(x)
    ensures ValidPos(l', pos + [|s.content| + 1]) && Sub(l', pos + [|s.content| + 1]).node == n
    ensures ValidTreePos(t, pos)
    ensures View(l') == PutTree(t, pos, s.(content := s.content + [KeyTree(key), Tree(kind, tag, value, 0, [])]))
  {
    SubNodes(l, pos);
    assert allocated(Nodes(l)) && allocated(Nodes(Sub(l, pos)));
    n := new Node(kind, tag, value);
    Leaf(n);
    l' := AppendAt(m, key, n, l, pos, t, s, Tree(kind, tag, value, 0, []));
  }

  method Reset(n: Node, kind: Kind, tag: string, value: string, style: nat)
    modifies n
    ensures n.content == [] && View(Layout(n, [])) == Tree(kind, tag, value, style, [])
  {
    n.kind, n.tag, n.value, n.style, n.content := kind, tag, value, style, [];
    Leaf(n);
  }

  /** Overwriting the node at `pos` with a childless one. */
  method Overwrite(n: Node, kind: Kind, tag: string, value: string, style: nat, ghost l: Layout, ghost pos: seq<nat>,
        ghost t: Tree)
    returns (ghost l': Layout)
    requires Linked(l) && Separate(l) && ValidPos(l, pos) && Sub(l, pos).node == n && View(l) == t
    modifies n
    ensures Linked(l') && Separate(l') && l'.node == l.node
    ensures forall m :: m in Nodes(l') ==> m in Nodes(l)
    ensures ValidPos(l', pos) && Sub(l', pos).node == n
    ensures ValidTreePos(t, pos) && View(l') == PutTree(t, pos, Tree(kind, tag, value, style, []))
  {
    LinkedAround(l, pos, t);
    SubNodes(l, pos);
    assert Around(l, pos, t) && n in Nodes(Sub(l, pos)) && allocated(Nodes(l));
    Reset(n, kind, tag, value, style);
    assert Around(l, pos, t);
    Leaf(n);
    l' := PlugAt(l, pos, t, Layout(n, []));
  }

  method ToMapping(n: Node, ghost l: Layout, ghost pos: seq<nat>, ghost t: Tree, ghost c: Tree)
    returns (ghost l': Layout)
    requires Linked(l) && Separate(l) && ValidPos(l, pos) && Sub(l, pos).node == n
    requires View(l) == t && View(Sub(l, pos)) == c
    modifies n
    ensures Linked(l') && Separate(l') && l'.node == l.node
    ensures forall m :: m in Nodes(l') ==> m in Nodes(l)
    ensures ValidPos(l', pos) && Sub(l', pos).node == n
    ensures ValidTreePos(t, pos) && View(l') == PutTree(t, pos, AsMapping(c))
  {
    ViewPos(l, pos);
    if n.kind != Mapping {
      l' := Overwrite(n, Mapping, "!!map", "", n.style, l, pos, t);
    } else {
      l' := l;
    }
  }

  /** Patching below a position of the tree, seen from the top. */
  ghost function PatchAt(t: Tree, pos: seq<nat>, s: Tree, path: seq<string>, tag: string, value: string): Tree
    requires ValidTreePos(t, pos) && path != []
  {
    PutTree(t, pos, PatchTree(s, path, tag, value))
  }

  /** The mapping once the child under the key, found at `v`, is there and a mapping. */
  ghost function Emptied(s: Tree, key: string, v: int): Tree
    requires v < |s.content|
  {
    s.(content := if v < 0 then s.content + [KeyTree(key), EMPTY_MAPPING] else s.content[v := AsMapping(s.content[v])])
  }

  /** Going down one key: the work left below the child is the work left below the mapping. */
  lemma Descend(t: Tree, pos: seq<nat>, s: Tree, s': Tree, v: nat, path: seq<string>, tag: string, value: string)
    requires ValidTreePos(t, pos) && |path| > 1 && v < |s'.content|
    requires var f := Find(s.content, path[0]);
             s' == Emptied(s, path[0], f) && v == if f < 0 then |s.content| + 1 else f
    ensures ValidTreePos(PutTree(t, pos, s'), pos + [v])
    ensures PatchAt(PutTree(t, pos, s'), pos + [v], s'.content[v], path[1..], tag, value)
         == PatchAt(t, pos, s, path, tag, value)
    ensures TreeAt(PutTree(t, pos, s'), pos + [v]) == s'.content[v]
  {
    var x := PatchTree(s'.content[v], path[1..], tag, value);
    PutTreeConcat(t, pos, v, s', x);
    assert s'.(content := s'.content[v := x]).content == PatchTree(s, path, tag, value).content;
  }

  /** The v-th child of the node at `pos`, as a position of its own. */
  lemma ChildAt(l: Layout, pos: seq<nat>, v: nat, t: Tree, s: Tree, c: Tree)
    requires Linked(l) && Separate(l) && ValidPos(l, pos) && View(l) == t && View(Sub(l, pos)) == s && v < |s.content|
    ensures ValidPos(l, pos + [v]) && View(Sub(l, pos + [v])) == s.content[v]
    ensures |Sub(l, pos).node.content| == |s.content| && Sub(l, pos + [v]).node == Sub(l, pos).node.content[v]
    ensures Sub(l, pos + [v]).node in Nodes(l)
    ensures ValidTreePos(t, pos) && ValidTreePos(t, pos + [v])
    ensures PutTree(t, pos + [v], c) == PutTree(t, pos, s.(content := s.content[v := c]))
  {
    LinkedSub(l, pos);
    PosConcat(l, pos, v);
    SubNodes(l, pos + [v]);
    ViewPos(l, pos);
    PutTreeConcat(t, pos, v, s, c);
  }

  /** Going on with an existing child, emptied first if it is no mapping. */
  method IntoChild(cur: Node, v: nat, ghost l: Layout, ghost pos: seq<nat>, ghost t: Tree, ghost s: Tree)
    returns (next: Node, ghost l': Layout)
    requires Linked(l) && Separate(l) && ValidPos(l, pos) && Sub(l, pos).node == cur
    requires View(l) == t && View(Sub(l, pos)) == s && v < |s.content|
    modifies Nodes(l)
    ensures Linked(l') && Separate(l') && l'.node == l.node && (forall n :: n in Nodes(l') ==> n in Nodes(l))
    ensures ValidPos(l', pos + [v]) && Sub(l', pos + [v]).node == next
    ensures ValidTreePos(t, pos) && View(l') == PutTree(t, pos, s.(content := s.content[v := AsMapping(s.content[v])]))
  {
    ChildAt(l, pos, v, t, s, AsMapping(s.content[v]));
    next := cur.content[v];
    l' := ToMapping(next, l, pos + [v], t, s.content[v]);
  }

  /** The search on the node at `pos`; looking changes nothing. */
  method Locate(cur: Node, key: string, ghost l: Layout, ghost pos: seq<nat>, ghost t: Tree, ghost s: Tree)
    returns (v: int)
    requires Linked(l) && Separate(l) && ValidPos(l, pos) && Sub(l, pos).node == cur
    requires View(l) == t && View(Sub(l, pos)) == s
    ensures v == Find(s.content, key)
    ensures Linked(l) && View(l) == t && View(Sub(l, pos)) == s && cur in Nodes(l)
    ensures Linked(Sub(l, pos)) && Separate(Sub(l, pos)) && |s.content| == |Sub(l, pos).children|
  {
    LinkedSub(l, pos);
    SubNodes(l, pos);
    assert Linked(l) && allocated(Nodes(l)) && allocated(Nodes(Sub(l, pos)));
    v := MappingValue(cur, key, Sub(l, pos));
  }

  /** The child under the key, created or emptied if need be. */
  method Child(cur: Node, key: string, ghost l: Layout, ghost pos: seq<nat>, ghost t: Tree, ghost s: Tree)
    returns (next: Node, ghost l': Layout, ghost v: int)
    requires Linked(l) && Separate(l) && ValidPos(l, pos) && Sub(l, pos).node == cur
    requires View(l) == t && View(Sub(l, pos)) == s && ValidTreePos(t, pos)
    modifies Nodes(l)
    ensures v == Find(s.content, key)
    ensures Linked(l') && Separate(l') && l'.node == l.node
    ensures forall n :: n in Nodes(l') ==> n in Nodes(l) || fresh(n)
    ensures var at := pos + [if v < 0 then |s.content| + 1 else v]; ValidPos(l', at) && Sub(l', at).node == next
    ensures View(l') == PutTree(t, pos, Emptied(s, key, v))
  {
    var found := Locate(cur, key, l, pos, t, s);
    v := found;
    if found < 0 {
      next, l' := AppendNew(cur, key, Mapping, "!!map", "", l, pos, t, s);
    } else {
      next, l' := IntoChild(cur, found, l, pos, t, s);
    }
  }

  /** One turn of the loop: down to the child under `path[0]`. */
  method StepDown(cur: Node, path: seq<string>, ghost tag: string, ghost value: string, ghost l: Layout,
        ghost pos: seq<nat>,
                  ghost t: Tree, ghost s: Tree)
    returns (next: Node, ghost l': Layout, ghost pos': seq<nat>, ghost t': Tree, ghost s': Tree)
    requires Linked(l) && Separate(l) && ValidPos(l, pos) && Sub(l, pos).node == cur && |path| > 1
    requires View(l) == t && View(Sub(l, pos)) == s && ValidTreePos(t, pos)
    modifies Nodes(l)
    ensures Linked(l') && Separate(l') && l'.node == l.node
    ensures forall n :: n in Nodes(l') ==> n in Nodes(l) || fresh(n)
    ensures ValidPos(l', pos') && Sub(l', pos').node == next
    ensures View(l') == t' && View(Sub(l', pos')) == s' && ValidTreePos(t', pos')
    ensures PatchAt(t', pos', s', path[1..], tag, value) == PatchAt(t, pos, s, path, tag, value)
  {
    ghost var v;
    next, l', v := Child(cur, path[0], l, pos, t, s);
    ghost var mid := Emptied(s, path[0], v);
    ghost var at := if v < 0 then |s.content| + 1 else v;
    pos', t', s' := pos + [at], PutTree(t, pos, mid), mid.content[at];
    Descend(t, pos, s, mid, at, path, tag, value);
    Arrived(l', pos', t', s');
  }

  lemma Arrived(l: Layout, pos: seq<nat>, t: Tree, s: Tree)
    requires ValidPos(l, pos) && View(l) == t && ValidTreePos(t, pos) && TreeAt(t, pos) == s
    ensures View(Sub(l, pos)) == s
  {
    ViewPos(l, pos);
  }

  /** An existing value becomes the scalar. */
  method OverwriteChild(cur: Node, v: nat, tag: string, value: string, ghost l: Layout, ghost pos: seq<nat>,
        ghost t: Tree, ghost s: Tree)
    returns (ghost l': Layout)
    requires Linked(l) && Separate(l) && ValidPos(l, pos) && Sub(l, pos).node == cur
    requires View(l) == t && View(Sub(l, pos)) == s && v < |s.content|
    modifies Nodes(l)
    ensures Linked(l') && Separate(l') && l'.node == l.node && (forall n :: n in Nodes(l') ==> n in Nodes(l))
    ensures ValidTreePos(t, pos) && View(l') == PutTree(t, pos, s.(content := s.content[v := ScalarTree(tag, value)]))
  {
    ChildAt(l, pos, v, t, s, ScalarTree(tag, value));
    l' := Overwrite(cur.content[v], Scalar, tag, value, 0, l, pos + [v], t);
  }

  /** The assignment to the last key. */
  method SetScalar(cur: Node, key: string, tag: string, value: string, ghost l: Layout, ghost pos: seq<nat>,
        ghost t: Tree, ghost s: Tree)
    returns (ghost l': Layout)
    requires Linked(l) && Separate(l) && ValidPos(l, pos) && Sub(l, pos).node == cur
    requires View(l) == t && View(Sub(l, pos)) == s && ValidTreePos(t, pos)
    modifies Nodes(l)
    ensures Linked(l') && Separate(l') && l'.node == l.node
    ensures forall n :: n in Nodes(l') ==> n in Nodes(l) || fresh(n)
    ensures View(l') == PatchAt(t, pos, s, [key], tag, value)
  {
    var v := Locate(cur, key, l, pos, t, s);
    if v >= 0 {
      l' := OverwriteChild(cur, v, tag, value, l, pos, t, s);
    } else {
      var n: Node;
      n, l' := AppendNew(cur, key, Scalar, tag, value, l, pos, t, s);
    }
  }

  /** The loop over all keys but the last. */
  method Walk(root: Node, keyPath: seq<string>, ghost tag: string, ghost value: string, ghost l: Layout, ghost t0: Tree)
    returns (cur: Node, ghost l': Layout, ghost pos: seq<nat>, ghost t: Tree, ghost s: Tree)
    requires Linked(l) && Separate(l) && l.node == root && View(l) == t0 && keyPath != []
    modifies Nodes(l)
    ensures Linked(l') && Separate(l') && l'.node == root
    ensures forall n :: n in Nodes(l') ==> n in Nodes(l) || fresh(n)
    ensures ValidPos(l', pos) && Sub(l', pos).node == cur
    ensures View(l') == t && View(Sub(l', pos)) == s && ValidTreePos(t, pos)
    ensures PatchAt(t, pos, s, [keyPath[|keyPath| - 1]], tag, value) == PatchTree(t0, keyPath, tag, value)
  {
    cur, l', pos, t, s := root, l, [], t0, t0;
    ghost var goal := PatchTree(t0, keyPath, tag, value);
    assert keyPath[0..] == keyPath;
    for i := 0 to |keyPath| - 1
      invariant Linked(l') && Separate(l') && l'.node == root
      invariant forall n :: n in Nodes(l') ==> n in Nodes(l) || fresh(n)
      invariant ValidPos(l', pos) && Sub(l', pos).node == cur
      invariant View(l') == t && View(Sub(l', pos)) == s && ValidTreePos(t, pos)
      invariant PatchAt(t, pos, s, keyPath[i..], tag, value) == goal
    {
      cur, l', pos, t, s := StepDown(cur, keyPath[i..], tag, value, l', pos, t, s);
      assert keyPath[i..][1..] == keyPath[i + 1..];
    }
    assert keyPath[|keyPath| - 1..] == [keyPath[|keyPath| - 1]];
  }

  /** patch on the mapping node `root`, in place; false stands for the two errors the code
      reports before touching anything. */
  method Patch(root: Node, keyPath: seq<string>, tag: string, value: string, ghost l: Layout)
    returns (ok: bool, ghost l': Layout)
    requires Linked(l) && Separate(l) && l.node == root
    modifies Nodes(l)
    ensures ok <==> keyPath != [] && old(root.kind) == Mapping
    ensures !ok ==> l' == l && Linked(l) && View(l) == old(View(l))
    ensures ok ==> l'.node == root && Linked(l') && Separate(l')
    ensures ok ==> View(l') == PatchTree(old(View(l)), keyPath, tag, value)
    ensures forall n :: n in Nodes(l') ==> n in Nodes(l) || fresh(n)
  {
    l' := l;
    ok := keyPath != [] && root.kind == Mapping;
    if !ok {
      return;
    }
    var cur: Node;
    ghost var pos, t, s;
    cur, l', pos, t, s := Walk(root, keyPath, tag, value, l, View(l));
    l' := SetScalar(cur, keyPath[|keyPath| - 1], tag, value, l', pos, t, s);
  }
}
