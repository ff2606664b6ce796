/** core/config/redact.go: hiding credentials in a config file's node tree. */
module YamlRedact {
  import opened Substrings
  import opened YamlTree

  const REDACTED := "***redacted***"

  /** strings.ToLower, as far as an ASCII needle can tell: the Kelvin sign and the dotted capital I
      also have ASCII lower-case letters. */
  function Lower(c: char): char {
    if 'A' <= c <= 'Z' then (c as int + 32) as char
    else if c == '\U{212A}' then 'k'
    else if c == '\U{0130}' then 'i'
    else c
  }

  function ToLower(s: string): string {
    if s == "" then "" else [Lower(s[0])] + ToLower(s[1..])
  }

  const NAMES_SOMETHING_ELSE: seq<string> := ["_file", "_path", "_auth", "_policy", "_source", "_type"]
  const CREDENTIAL_WORDS: seq<string> := ["token", "password", "secret", "passphrase", "credential", "private_key"]

  predicate HasSuffix(s: string, suffix: string) {
    |s| >= |suffix| && s[|s| - |suffix|..] == suffix
  }

  predicate HasOneSuffix(s: string, suffixes: seq<string>) {
    exists i :: 0 <= i < |suffixes| && HasSuffix(s, suffixes[i])
  }

  predicate HasOneWord(s: string, words: seq<string>) {
    exists i :: 0 <= i < |words| && Index(s, words[i]) >= 0
  }

  predicate SensitiveKey(key: string) {
    var k := ToLower(key);
    !HasOneSuffix(k, NAMES_SOMETHING_ELSE) && HasOneWord(k, CREDENTIAL_WORDS)
  }

  // ---------------------------------------------------------------- on values

  /** A scalar that can be a credential: a non-empty string below a sensitive key. */
  predicate Hidden(t: Tree, sensitive: bool) {
    t.kind == Scalar && sensitive && t.value != "" && (t.tag == "" || t.tag == "!!str")
  }

  /** How a node's i-th child is reached: not at all, or with the sensitivity it inherits. */
  datatype Reach = Skipped | Reached(sensitive: bool)

  function ReachChild(t: Tree, i: nat, sensitive: bool): Reach
    requires i < |t.content|
  {
    match t.kind
    case Document => Reached(sensitive)
    case Sequence => Reached(sensitive)
    case Mapping => if i % 2 == 0 then Skipped else Reached(sensitive || SensitiveKey(t.content[i - 1].value))
    case Scalar => Skipped
    case Other => Skipped
  }

  function RedactTree(t: Tree, sensitive: bool): Tree {
    var content := seq(|t.content|, i requires 0 <= i < |t.content| =>
      match ReachChild(t, i, sensitive) case Skipped => t.content[i] case Reached(s) => RedactTree(t.content[i], s));
    if Hidden(t, sensitive) then t.(tag := "!!str", value := REDACTED, content := content) else t.(content := content)
  }

  /** Equal but for what a credential scalar holds: its value, and whether its string tag is spelled out. */
  ghost predicate SameButSecrets(t: Tree, u: Tree, sensitive: bool)
    decreases t
  {
    && t.kind == u.kind && t.style == u.style && |t.content| == |u.content|
    && (Hidden(t, sensitive) <==> Hidden(u, sensitive))
    && (!Hidden(t, sensitive) ==> t.tag == u.tag && t.value == u.value)
    && forall i :: 0 <= i < |t.content| ==>
         match ReachChild(t, i, sensitive)
         case Skipped => t.content[i] == u.content[i]
         case Reached(s) => SameButSecrets(t.content[i], u.content[i], s)
  }

  lemma RedactedChild(t: Tree, sensitive: bool, i: nat)
    requires i < |t.content|
    ensures |RedactTree(t, sensitive).content| == |t.content|
    ensures RedactTree(t, sensitive).content[i]
         == match ReachChild(t, i, sensitive)
            case Skipped => t.content[i]
            case Reached(s) => RedactTree(t.content[i], s)
  {}

  lemma SameReachAt(t: Tree, u: Tree, sensitive: bool, i: nat)
    requires t.kind == u.kind && i < |t.content| == |u.content|
    requires t.kind == Mapping && i % 2 == 1 ==> t.content[i - 1].value == u.content[i - 1].value
    ensures ReachChild(t, i, sensitive) == ReachChild(u, i, sensitive)
  {}

  lemma KeysAreSkipped(t: Tree, sensitive: bool, i: nat)
    requires i < |t.content| && t.kind == Mapping && i % 2 == 0
    ensures ReachChild(t, i, sensitive).Skipped?
  {}

  /** Keys are never touched, so trees that agree on them reach their children alike. */
  lemma SameReach(t: Tree, u: Tree, sensitive: bool)
    requires t.kind == u.kind && |t.content| == |u.content|
    requires forall i {:trigger ReachChild(t, i, sensitive)} ::
               0 <= i < |t.content| && ReachChild(t, i, sensitive).Skipped? ==> t.content[i] == u.content[i]
    ensures forall i {:trigger ReachChild(t, i, sensitive)} ::
              0 <= i < |t.content| ==> ReachChild(t, i, sensitive) == ReachChild(u, i, sensitive)
  {
    forall i | 0 <= i < |t.content| ensures ReachChild(t, i, sensitive) == ReachChild(u, i, sensitive) {
      if t.kind == Mapping && i % 2 == 1 {
        KeysAreSkipped(t, sensitive, i - 1);
      }
      SameReachAt(t, u, sensitive, i);
    }
  }

  lemma {:induction false} EqualWhenSame(t: Tree, u: Tree, sensitive: bool)
    requires SameButSecrets(t, u, sensitive)
    ensures RedactTree(t, sensitive) == RedactTree(u, sensitive)
    decreases t
  {
    SameReach(t, u, sensitive);
    forall i | 0 <= i < |t.content| ensures RedactTree(t, sensitive).content[i] == RedactTree(u, sensitive).content[i] {
      RedactedChild(t, sensitive, i);
      RedactedChild(u, sensitive, i);
      match ReachChild(t, i, sensitive)
      case Skipped =>
      case Reached(s) => EqualWhenSame(t.content[i], u.content[i], s);
    }
    assert RedactTree(t, sensitive).content == RedactTree(u, sensitive).content;
  }

  lemma {:induction false} SameWhenEqual(t: Tree, u: Tree, sensitive: bool)
    requires RedactTree(t, sensitive) == RedactTree(u, sensitive)
    ensures SameButSecrets(t, u, sensitive)
    decreases t
  {
    assert |t.content| == |RedactTree(t, sensitive).content| == |u.content| && t.kind == u.kind;
    forall i | 0 <= i < |t.content| && ReachChild(t, i, sensitive).Skipped? ensures t.content[i] == u.content[i] {
      RedactedChild(t, sensitive, i);
      RedactedChild(u, sensitive, i);
      assert ReachChild(u, i, sensitive).Skipped?;
    }
    SameReach(t, u, sensitive);
    forall i | 0 <= i < |t.content|
      ensures match ReachChild(t, i, sensitive)
              case Skipped => t.content[i] == u.content[i]
              case Reached(s) => SameButSecrets(t.content[i], u.content[i], s)
    {
      RedactedChild(t, sensitive, i);
      RedactedChild(u, sensitive, i);
      match ReachChild(t, i, sensitive)
      case Skipped =>
      case Reached(s) => SameWhenEqual(t.content[i], u.content[i], s);
    }
  }

  /** Non-interference, and nothing more: two trees become identical exactly when they differ only
      in what their credentials hold. What is printed depends on no credential, and every other
      difference still shows. */
  lemma RedactionHidesExactly(t: Tree, u: Tree, sensitive: bool)
    ensures RedactTree(t, sensitive) == RedactTree(u, sensitive) <==> SameButSecrets(t, u, sensitive)
  {
    if SameButSecrets(t, u, sensitive) {
      EqualWhenSame(t, u, sensitive);
    }
    if RedactTree(t, sensitive) == RedactTree(u, sensitive) {
      SameWhenEqual(t, u, sensitive);
    }
  }

  /** A redacted tree differs from the original in nothing but its credentials, and redacting it
      again changes nothing. */
  lemma {:induction false} RedactionTouchesOnlySecrets(t: Tree, sensitive: bool)
    ensures SameButSecrets(t, RedactTree(t, sensitive), sensitive)
    ensures RedactTree(RedactTree(t, sensitive), sensitive) == RedactTree(t, sensitive)
    decreases t
  {
    var u := RedactTree(t, sensitive);
    forall i | 0 <= i < |t.content|
      ensures match ReachChild(t, i, sensitive)
              case Skipped => t.content[i] == u.content[i]
              case Reached(s) => SameButSecrets(t.content[i], u.content[i], s)
    {
      RedactedChild(t, sensitive, i);
      match ReachChild(t, i, sensitive)
      case Skipped =>
      case Reached(s) => RedactionTouchesOnlySecrets(t.content[i], s);
    }
    EqualWhenSame(t, u, sensitive);
  }

  /** No credential survives: every scalar that could be one now holds the placeholder. */
  ghost predicate AllMasked(t: Tree, sensitive: bool)
    decreases t
  {
    && (Hidden(t, sensitive) ==> t.value == REDACTED)
    && forall i :: 0 <= i < |t.content| ==>
         match ReachChild(t, i, sensitive) case Skipped => true case Reached(s) => AllMasked(t.content[i], s)
  }

  lemma {:induction false} RedactedIsMasked(t: Tree, sensitive: bool)
    ensures AllMasked(RedactTree(t, sensitive), sensitive)
    decreases t
  {
    var u := RedactTree(t, sensitive);
    RedactionTouchesOnlySecrets(t, sensitive);
    SameReach(t, u, sensitive);
    forall i | 0 <= i < |u.content|
      ensures match ReachChild(u, i, sensitive) case Skipped => true case Reached(s) => AllMasked(u.content[i], s)
    {
      RedactedChild(t, sensitive, i);
      match ReachChild(t, i, sensitive)
      case Skipped =>
      case Reached(s) => RedactedIsMasked(t.content[i], s);
    }
  }

  // ---------------------------------------------------------------- which keys, spelled out

  /** A letter's lower case, said without computing it. */
  predicate LowerLetter(c: char, low: char) {
    if 'A' <= c <= 'Z' then low as int == c as int + 32
    else if c == '\U{212A}' then low == 'k'
    else if c == '\U{0130}' then low == 'i'
    else low == c
  }

  ghost predicate LowerCaseOf(key: string, low: string) {
    |low| == |key| && forall i :: 0 <= i < |key| ==> LowerLetter(key[i], low[i])
  }

  ghost predicate EndsIn(s: string, suffix: string) {
    exists stem: string :: s == stem + suffix
  }

  ghost predicate Holds(s: string, word: string) {
    exists a: string, b: string :: s == a + word + b
  }

  lemma {:induction false} LowerCaseIsUnique(key: string, low: string)
    requires LowerCaseOf(key, low)
    ensures ToLower(key) == low
  {
    if key != "" {
      LowerCaseIsUnique(key[1..], low[1..]);
      assert low == [low[0]] + low[1..];
    }
  }

  lemma SuffixMeans(s: string, suffix: string)
    ensures HasSuffix(s, suffix) <==> EndsIn(s, suffix)
  {
    if HasSuffix(s, suffix) {
      assert s == s[..|s| - |suffix|] + suffix;
    }
    if EndsIn(s, suffix) {
      var stem: string :| s == stem + suffix;
      assert s[|stem|..] == suffix;
    }
  }

  lemma IndexMeans(s: string, word: string)
    ensures Index(s, word) >= 0 <==> Holds(s, word)
  {
    if Index(s, word) >= 0 {
      var i := Index(s, word);
      assert s == s[..i] + word + s[i + |word|..];
    }
    if Holds(s, word) {
      var a: string, b: string :| s == a + word + b;
      assert s[|a|..|a| + |word|] == word;
      assert At(s, word, |a|);
    }
  }

  lemma SixSuffixes(s: string, a: string, b: string, c: string, d: string, e: string, f: string)
    ensures HasOneSuffix(s, [a, b, c, d, e, f]) <==>
      EndsIn(s, a) || EndsIn(s, b) || EndsIn(s, c) || EndsIn(s, d) || EndsIn(s, e) || EndsIn(s, f)
  {
    var all := [a, b, c, d, e, f];
    assert all[0] == a && all[1] == b && all[2] == c && all[3] == d && all[4] == e && all[5] == f;
    forall i | 0 <= i < 6 ensures HasSuffix(s, all[i]) <==> EndsIn(s, all[i]) {
      SuffixMeans(s, all[i]);
    }
  }

  lemma SixWords(s: string, a: string, b: string, c: string, d: string, e: string, f: string)
    ensures HasOneWord(s, [a, b, c, d, e, f]) <==>
      Holds(s, a) || Holds(s, b) || Holds(s, c) || Holds(s, d) || Holds(s, e) || Holds(s, f)
  {
    var all := [a, b, c, d, e, f];
    assert all[0] == a && all[1] == b && all[2] == c && all[3] == d && all[4] == e && all[5] == f;
    forall i | 0 <= i < 6 ensures Index(s, all[i]) >= 0 <==> Holds(s, all[i]) {
      IndexMeans(s, all[i]);
    }
  }

  /** A key whose lower case is this holds a credential. */
  ghost predicate HoldsCredential(low: string) {
    && !(EndsIn(low, "_file") || EndsIn(low, "_path") || EndsIn(low, "_auth")
         || EndsIn(low, "_policy") || EndsIn(low, "_source") || EndsIn(low, "_type"))
    && (Holds(low, "token") || Holds(low, "password") || Holds(low, "secret")
        || Holds(low, "passphrase") || Holds(low, "credential") || Holds(low, "private_key"))
  }

  lemma SensitiveMeans(key: string, low: string)
    requires LowerCaseOf(key, low)
    ensures SensitiveKey(key) <==> HoldsCredential(low)
  {
    LowerCaseIsUnique(key, low);
    SixSuffixes(low, "_file", "_path", "_auth", "_policy", "_source", "_type");
    SixWords(low, "token", "password", "secret", "passphrase", "credential", "private_key");
  }

  lemma LeafRedacted(t: Tree, sensitive: bool)
    requires t.kind == Scalar
    ensures RedactTree(t, sensitive) ==
            if sensitive && t.value != "" && t.tag in {"", "!!str"}
            then Tree(Scalar, "!!str", "***redacted***", t.style, t.content)
            else t
  {
    assert RedactTree(t, sensitive).content == t.content;
  }

  /** One pair of a mapping: the key stays, and its value is redacted below a sensitive parent or when
      the key itself holds a credential. */
  lemma PairIsRedacted(t: Tree, sensitive: bool, i: nat, low: string)
    requires t.kind == Mapping && i % 2 == 0 && i + 1 < |t.content| && LowerCaseOf(t.content[i].value, low)
    ensures |RedactTree(t, sensitive).content| == |t.content| && RedactTree(t, sensitive).content[i] == t.content[i]
    ensures var value, below := t.content[i + 1], sensitive || HoldsCredential(low);
            var redacted := RedactTree(t, sensitive).content[i + 1];
            && redacted == RedactTree(value, below)
            && (value.kind == Scalar ==>
                  redacted == if below && value.value != "" && value.tag in {"", "!!str"}
                              then Tree(Scalar, "!!str", "***redacted***", value.style, value.content)
                              else value)
  {
    RedactedChild(t, sensitive, i);
    RedactedChild(t, sensitive, i + 1);
    SensitiveMeans(t.content[i].value, low);
    if t.content[i + 1].kind == Scalar {
      LeafRedacted(t.content[i + 1], sensitive || HoldsCredential(low));
    }
  }

  /** A node that is no scalar keeps its own fields. The children of documents and sequences inherit
      their sensitivity; keys, and the children of anything else, stay as they are. */
  lemma InnerNodeIsRedacted(t: Tree, sensitive: bool, i: nat)
    requires t.kind != Scalar
    ensures var u := RedactTree(t, sensitive);
            && u.kind == t.kind && u.tag == t.tag && u.value == t.value && u.style == t.style
            && |u.content| == |t.content|
            && (i < |t.content| ==>
                  match t.kind
                  case Document => u.content[i] == RedactTree(t.content[i], sensitive)
                  case Sequence => u.content[i] == RedactTree(t.content[i], sensitive)
                  case Mapping => i % 2 == 0 ==> u.content[i] == t.content[i]
                  case _ => u.content[i] == t.content[i])
  {
    if i < |t.content| {
      RedactedChild(t, sensitive, i);
    }
  }

  /** Equal but for the case of ASCII letters. */
  ghost predicate SameLetters(a: string, b: string) {
    |a| == |b| && forall i :: 0 <= i < |a| ==> SameLetter(a[i], b[i])
  }

  predicate SameLetter(a: char, b: char) {
    || a == b
    || ('A' <= a <= 'Z' && b as int == a as int + 32)
    || ('A' <= b <= 'Z' && a as int == b as int + 32)
  }

  lemma {:induction false} LowerCaseExists(key: string)
    ensures LowerCaseOf(key, ToLower(key))
  {
    if key != "" {
      LowerCaseExists(key[1..]);
      assert forall i :: 1 <= i < |key| ==> key[i] == key[1..][i - 1];
    }
  }

  /** How a key is capitalised makes no difference. */
  lemma CaseIsNoMatter(t: Tree, u: Tree, sensitive: bool, i: nat)
    requires t.kind == u.kind == Mapping && i % 2 == 0 && i + 1 < |t.content| && i + 1 < |u.content|
    requires SameLetters(t.content[i].value, u.content[i].value) && t.content[i + 1] == u.content[i + 1]
    ensures |RedactTree(t, sensitive).content| == |t.content| && |RedactTree(u, sensitive).content| == |u.content|
    ensures RedactTree(t, sensitive).content[i + 1] == RedactTree(u, sensitive).content[i + 1]
  {
    var low := ToLower(t.content[i].value);
    LowerCaseExists(t.content[i].value);
    assert LowerCaseOf(u.content[i].value, low);
    PairIsRedacted(t, sensitive, i, low);
    PairIsRedacted(u, sensitive, i, low);
  }

  // ---------------------------------------------------------------- in place

  /** The nodes of the layout form this tree. */
  ghost predicate Stands(l: Layout, t: Tree)
    reads Nodes(l)
  {
    Linked(l) && View(l) == t
  }

  /** The children before `k` already redacted, the others not yet. */
  ghost function Partly(t: Tree, sensitive: bool, k: nat): Tree
    requires k <= |t.content|
  {
    t.(content := seq(|t.content|, i requires 0 <= i < |t.content| =>
      if i < k then RedactTree(t, sensitive).content[i] else t.content[i]))
  }

  lemma PartlyAt(t: Tree, sensitive: bool, k: nat, i: nat)
    requires k <= |t.content| && i < |t.content|
    ensures |Partly(t, sensitive, k).content| == |RedactTree(t, sensitive).content| == |t.content|
    ensures Partly(t, sensitive, k).content[i] == if i < k then RedactTree(t, sensitive).content[i] else t.content[i]
  {}

  /** One child more: the only difference is at its place. */
  lemma PartlyGrows(t: Tree, sensitive: bool, k: nat)
    requires k < |t.content|
    ensures |Partly(t, sensitive, k).content| == |RedactTree(t, sensitive).content| == |t.content|
    ensures var cur := Partly(t, sensitive, k);
            && cur.content[k] == t.content[k]
            && Partly(t, sensitive, k + 1) == cur.(content := cur.content[k := RedactTree(t, sensitive).content[k]])
  {
    var cur, next := Partly(t, sensitive, k), Partly(t, sensitive, k + 1);
    PartlyAt(t, sensitive, k, k);
    var one := RedactTree(t, sensitive).content[k];
    forall i | 0 <= i < |t.content| ensures next.content[i] == cur.content[k := one][i] {
      PartlyAt(t, sensitive, k, i);
      PartlyAt(t, sensitive, k + 1, i);
    }
    assert next.content == cur.content[k := one];
  }

  lemma PartlyNext(t: Tree, sensitive: bool, k: nat)
    requires k < |t.content|
    ensures |Partly(t, sensitive, k).content| == |t.content| && Partly(t, sensitive, k).content[k] == t.content[k]
    ensures match ReachChild(t, k, sensitive)
            case Skipped => Partly(t, sensitive, k + 1) == Partly(t, sensitive, k)
            case Reached(s) =>
              var cur := Partly(t, sensitive, k);
              Partly(t, sensitive, k + 1) == cur.(content := cur.content[k := RedactTree(t.content[k], s)])
  {
    PartlyGrows(t, sensitive, k);
    RedactedChild(t, sensitive, k);
    assert Partly(t, sensitive, k).content[k := t.content[k]] == Partly(t, sensitive, k).content;
  }

  lemma PartlyEnds(t: Tree, sensitive: bool)
    ensures Partly(t, sensitive, 0) == t
    ensures !Hidden(t, sensitive) ==> Partly(t, sensitive, |t.content|) == RedactTree(t, sensitive)
  {
    assert Partly(t, sensitive, 0).content == t.content;
    assert Partly(t, sensitive, |t.content|).content == RedactTree(t, sensitive).content;
  }

  lemma NoneReached(t: Tree, sensitive: bool)
    requires t.kind == Scalar || t.kind == Other
    ensures RedactTree(t, sensitive) == if Hidden(t, sensitive) then t.(tag := "!!str", value := REDACTED) else t
  {
    assert RedactTree(t, sensitive).content == t.content;
  }

  /** The recursive call on one child, seen from its parent. */
  method RedactChild(n: Node, i: nat, sensitive: bool, ghost l: Layout, ghost t: Tree)
    requires Stands(l, t) && Separate(l) && l.node == n && i < |n.content|
    modifies Nodes(l.children[i])
    ensures i < |t.content| && Stands(l, t.(content := t.content[i := RedactTree(t.content[i], sensitive)]))
    decreases l, 0
  {
    ghost var child := l.children[i];
    ChildNodes(l, i);
    LinkedAround(l, [i], t);
    assert Sub(l, [i]) == child && [i][1..] == [];
    assert Around(l, [i], t) && allocated(Nodes(l));
    RedactNode(n.content[i], sensitive, child, t.content[i]);
    assert Around(l, [i], t);
    Plug(l, [i], t, child);
    assert l.children[i := child] == l.children;
  }

  /** redactNode: the nodes stay where they are, and the tree they form is redacted. */
  method RedactNode(n: Node, sensitive: bool, ghost l: Layout, ghost t: Tree)
    requires Stands(l, t) && Separate(l) && l.node == n
    modifies Nodes(l)
    ensures Stands(l, RedactTree(t, sensitive))
    decreases l, 2
  {
    PartlyEnds(t, sensitive);
    match n.kind
    case Document => RedactAll(n, sensitive, l, t);
    case Sequence => RedactAll(n, sensitive, l, t);
    case Mapping => RedactValues(n, sensitive, l, t);
    case Scalar => RedactScalar(n, sensitive, l, t);
    case Other => NoneReached(t, sensitive);
  }

  method RedactAll(n: Node, sensitive: bool, ghost l: Layout, ghost t: Tree)
    requires Stands(l, t) && Separate(l) && l.node == n && (n.kind == Document || n.kind == Sequence)
    modifies Nodes(l)
    ensures Stands(l, RedactTree(t, sensitive))
    decreases l, 1, 1
  {
    PartlyEnds(t, sensitive);
    var i := 0;
    while i < |n.content|
      invariant i <= |n.content| == |t.content| && Stands(l, Partly(t, sensitive, i))
    {
      RedactItem(n, i, sensitive, l, t, Partly(t, sensitive, i));
      i := i + 1;
    }
  }

  /** One item of a document or sequence, visited with the sensitivity of its parent. */
  method RedactItem(n: Node, i: nat, sensitive: bool, ghost l: Layout, ghost t: Tree, ghost cur: Tree)
    requires i < |t.content| && (t.kind == Document || t.kind == Sequence) && cur == Partly(t, sensitive, i)
    requires Stands(l, cur) && Separate(l) && l.node == n
    modifies Nodes(l)
    ensures Stands(l, Partly(t, sensitive, i + 1))
    decreases l, 1, 0
  {
    PartlyNext(t, sensitive, i);
    ChildNodes(l, i);
    RedactChild(n, i, sensitive, l, cur);
  }

  lemma ChildValue(l: Layout, t: Tree, i: nat)
    requires Stands(l, t) && i < |t.content|
    ensures |l.node.content| == |t.content| && l.node.content[i].value == t.content[i].value
  {
    assert View(l).content[i] == View(l.children[i]);
  }

  lemma PartlyPair(t: Tree, sensitive: bool, i: nat, below: bool)
    requires i + 1 < |t.content| && i % 2 == 0 && t.kind == Mapping
    requires below == (sensitive || SensitiveKey(t.content[i].value))
    ensures |Partly(t, sensitive, i).content| == |t.content|
    ensures Partly(t, sensitive, i).content[i] == t.content[i]
    ensures Partly(t, sensitive, i).content[i + 1] == t.content[i + 1]
    ensures var cur := Partly(t, sensitive, i);
            Partly(t, sensitive, i + 2) == cur.(content := cur.content[i + 1 := RedactTree(t.content[i + 1], below)])
  {
    PartlyNext(t, sensitive, i);
    PartlyNext(t, sensitive, i + 1);
  }

  /** One key and its value; the key decides, and is left alone. */
  method RedactPair(n: Node, i: nat, sensitive: bool, ghost l: Layout, ghost t: Tree, ghost cur: Tree)
    requires i + 1 < |t.content| && i % 2 == 0 && t.kind == Mapping && cur == Partly(t, sensitive, i)
    requires Stands(l, cur) && Separate(l) && l.node == n
    modifies Nodes(l)
    ensures Stands(l, Partly(t, sensitive, i + 2))
    decreases l, 1, 0
  {
    PartlyPair(t, sensitive, i, sensitive || SensitiveKey(t.content[i].value));
    ChildValue(l, cur, i);
    ChildNodes(l, i + 1);
    var below := sensitive || SensitiveKey(n.content[i].value);
    RedactChild(n, i + 1, below, l, cur);
  }

  method RedactValues(n: Node, sensitive: bool, ghost l: Layout, ghost t: Tree)
    requires Stands(l, t) && Separate(l) && l.node == n && n.kind == Mapping
    modifies Nodes(l)
    ensures Stands(l, RedactTree(t, sensitive))
    decreases l, 1, 1
  {
    PartlyEnds(t, sensitive);
    var i := 0;
    while i + 1 < |n.content|
      invariant i <= |n.content| == |t.content| && i % 2 == 0 && Stands(l, Partly(t, sensitive, i))
    {
      RedactPair(n, i, sensitive, l, t, Partly(t, sensitive, i));
      i := i + 2;
    }
    if i < |n.content| {
      PartlyNext(t, sensitive, i);
    }
  }

  method RedactScalar(n: Node, sensitive: bool, ghost l: Layout, ghost t: Tree)
    requires Stands(l, t) && Separate(l) && l.node == n && n.kind == Scalar
    modifies n
    ensures Stands(l, RedactTree(t, sensitive))
  {
    NoneReached(t, sensitive);
    if sensitive && n.value != "" && (n.tag == "" || n.tag == "!!str") {
      n.tag, n.value := "!!str", REDACTED;
    }
  }
}
