/** providers/github/keys.go: pinned host keys, one `name key` line each, in a text file the
    operator may also edit. */
module HostKeys {
  import opened Substrings
  import opened Lines
  import opened Wrappers

  datatype Policy = Insecure | Strict | TrustOnFirstUse

  /** One line's pin, if it holds one: the name up to the first space, and the key text. */
  function Entry(line: string): Option<(string, string)> {
    EntryOf(TrimSpace(line))
  }

  function EntryOf(l: string): Option<(string, string)> {
    if l == "" || l[0] == '#' then None
    else
      var i := Index(l, " ");
      if i < 0 then None else Some((l[..i], TrimSpace(l[i + 1..]) + "\n"))
  }

  function Pin(known: map<string, string>, line: string): map<string, string> {
    match Entry(line)
    case None => known
    case Some((name, key)) => known[name := key]
  }

  function Pins(lines: seq<string>): map<string, string> {
    if lines == [] then map[] else Pin(Pins(lines[..|lines| - 1]), lines[|lines| - 1])
  }

  /** The pins a file's text stands for: later lines override earlier ones. */
  function Load(text: string): map<string, string> {
    Pins(Split(text))
  }

  function PinLine(name: string, key: string): string {
    name + " " + TrimSpace(key) + "\n"
  }

  /** A name that survives being written at the start of a line. */
  predicate GoodName(name: string) {
    name != "" && !Space(name[0]) && name[0] != '#' && ' ' !in name && '\n' !in name
  }

  /** One line of key text, as the SSH library marshals it, newline included. */
  predicate GoodKey(key: string) {
    |key| >= 2 && key[|key| - 1] == '\n' && Trimmed(key[..|key| - 1]) && '\n' !in key[..|key| - 1]
  }

  predicate Covers(forgotten: string, name: string) {
    forgotten == "" || forgotten == name
  }

  class HostKeyStore {
    var file: Option<string>
    const policy: Policy

    constructor (policy: Policy, file: Option<string>)
      ensures this.policy == policy && this.file == file
    {
      this.policy := policy;
      this.file := file;
    }

    method ReadPins() returns (known: map<string, string>)
      ensures known == Load(Content(file))
    {
      known := map[];
      var lines := Split(Content(file));
      for i := 0 to |lines|
        invariant known == Pins(lines[..i])
      {
        PinsSnoc(lines[..i], lines[i]);
        assert lines[..i + 1] == lines[..i] + [lines[i]];
        var line := TrimSpace(lines[i]);
        if line == "" || line[0] == '#' { continue; }
        var cut := Index(line, " ");
        if cut < 0 { continue; }
        known := known[line[..cut] := TrimSpace(line[cut + 1..]) + "\n"];
      }
      assert lines[..|lines|] == lines;
    }

    method Check(name: string, key: string) returns (accepted: bool)
      modifies this
      ensures CheckStep(policy, Content(old(file)), name, key, accepted, Content(file))
      ensures Content(file) == Content(old(file)) ==> file == old(file)
    {
      if policy == Insecure {
        return true;
      }
      var known := ReadPins();
      if name in known {
        return known[name] == key;
      }
      if policy == Strict {
        return false;
      }
      file := Some(Content(file) + PinLine(name, key));
      return true;
    }

    /** The map is visited in an order Go does not define; the result must not depend on it. */
    method Forget(name: string) returns (removed: nat)
      modifies this
      ensures ForgetStep(Content(old(file)), name, removed, Content(file))
      ensures file.None? <==> old(file).None? || (removed > 0 && Load(Content(file)) == map[])
    {
      var known := ReadPins();
      WholeFileIsGood(Content(file));
      var b, dropped := Rewrite(known, name);
      removed := dropped;
      if removed == 0 {
        NothingDropped(known, name);
        return;
      }
      file := if b == "" then None else Some(b);
    }
  }

  method Rewrite(known: map<string, string>, name: string) returns (b: string, removed: nat)
    requires forall k :: k in known ==> GoodName(k) && GoodKey(known[k])
    ensures removed == |Dropped(known, name, {})| && LineEnded(b)
    ensures Load(b) == Kept(known, name, {}) && (b == "" <==> Load(b) == map[])
  {
    EmptyHoldsNoPin();
    removed := 0;
    b := "";
    var rest := known.Keys;
    while rest != {}
      invariant rest <= known.Keys && LineEnded(b)
      invariant removed == |Dropped(known, name, rest)|
      invariant Load(b) == Kept(known, name, rest)
      invariant b == "" <==> Load(b) == map[]
      decreases |rest|
    {
      var k :| k in rest;
      if name == "" || k == name {
        VisitDropped(known, name, rest, k);
        removed := removed + 1;
      } else {
        VisitKept(known, name, rest, k);
        AppendPin(b, k, known[k]);
        b := b + (k + " " + known[k]);
      }
      rest := rest - {k};
    }
  }

  /** The pins Forget has dropped, and those it has copied, when `rest` is still to be visited. */
  ghost function Dropped(known: map<string, string>, name: string, rest: set<string>): set<string> {
    set k | k in known && k !in rest && Covers(name, k)
  }

  ghost function Kept(known: map<string, string>, name: string, rest: set<string>): map<string, string> {
    map k | k in known && k !in rest && !Covers(name, k) :: known[k]
  }

  lemma VisitDropped(known: map<string, string>, name: string, rest: set<string>, k: string)
    requires k in rest && k in known && Covers(name, k)
    ensures Kept(known, name, rest - {k}) == Kept(known, name, rest)
    ensures |Dropped(known, name, rest - {k})| == |Dropped(known, name, rest)| + 1
  {
    var d := Dropped(known, name, rest);
    assert k !in d && Dropped(known, name, rest - {k}) == d + {k};
  }

  lemma VisitKept(known: map<string, string>, name: string, rest: set<string>, k: string)
    requires k in rest && k in known && !Covers(name, k)
    ensures Kept(known, name, rest - {k}) == Kept(known, name, rest)[k := known[k]]
    ensures Dropped(known, name, rest - {k}) == Dropped(known, name, rest)
  {}

  lemma NothingDropped(known: map<string, string>, name: string)
    requires |Dropped(known, name, {})| == 0
    ensures Kept(known, name, {}) == known
  {
    assert Dropped(known, name, {}) == {};
    assert forall k :: k in known ==> k !in Dropped(known, name, {});
  }

  lemma WholeFileIsGood(text: string)
    ensures forall name :: name in Load(text) ==> GoodName(name) && GoodKey(Load(text)[name])
  {
    SplitJoin(text);
    LoadedPinsAreGood(Split(text));
  }

  lemma EmptyHoldsNoPin()
    ensures Load("") == map[]
  {
    BlankLine("");
    assert Split("") == [""];
    assert [""][..0] == [];
  }

  // ---------------------------------------------------------------- what each call does to the text

  /** One verification of a codespace's host key. */
  ghost predicate CheckStep(policy: Policy, text: string, name: string, key: string, accepted: bool, text': string) {
    var known := Load(text);
    if policy == Insecure then accepted && text' == text
    else if name in known then (accepted <==> known[name] == key) && text' == text
    else if policy == Strict then !accepted && text' == text
    else accepted && text' == text + PinLine(name, key)
  }

  /** Forgetting one name, or all of them. */
  ghost predicate ForgetStep(text: string, name: string, removed: nat, text': string) {
    && removed == |Dropped(Load(text), name, {})|
    && Load(text') == Kept(Load(text), name, {})
    && (removed == 0 ==> text' == text)
    && (removed > 0 ==> LineEnded(text'))
  }

  // ---------------------------------------------------------------- reading back what was written

  lemma BlankLine(line: string)
    requires Blank(line)
    ensures Entry(line) == None
  {
    var i, j := TrimSpaceParts(line);
  }

  lemma FirstSpace(name: string, rest: string)
    requires ' ' !in name
    ensures Index(name + " " + rest, " ") == |name|
  {
    var s := name + " " + rest;
    assert s[|name|..|name| + 1] == " ";
    assert At(s, " ", |name|);
    forall j | At(s, " ", j) ensures j >= |name| {
      AtElement(s, " ", j, j);
      assert s[j] == ' ';
    }
  }

  /** A well-formed pin is read back from its own line. */
  lemma EntryOfLine(name: string, w: string)
    requires GoodName(name) && Trimmed(w)
    ensures Trimmed(name + " " + w) && Entry(name + " " + w) == Some((name, w + "\n"))
  {
    var line := name + " " + w;
    assert line[0] == name[0] && line[|line| - 1] == w[|w| - 1];
    TrimTrimmed(line);
    FirstSpace(name, w);
    assert line[..|name|] == name && line[|name| + 1..] == w;
    TrimTrimmed(w);
  }

  lemma PinLineText(name: string, key: string)
    requires GoodKey(key)
    ensures PinLine(name, key) == name + " " + key
    ensures PinLine(name, key) == name + " " + key[..|key| - 1] + "\n"
  {
    var w := key[..|key| - 1];
    assert key == "" + w + "\n";
    TrimBetween("", w, "\n");
  }

  lemma NameIsGood(l: string)
    requires Trimmed(l) && l[0] != '#' && '\n' !in l && Index(l, " ") >= 0
    ensures var i := Index(l, " "); 0 < i < |l| - 1 && GoodName(l[..i])
  {
    var i := Index(l, " ");
    AtElement(l, " ", i, i);
    assert l[i] == ' ' && i != 0 && i != |l| - 1;
    forall x | 0 <= x < i ensures l[x] != ' ' {
      if l[x] == ' ' {
        assert l[x..x + 1] == " ";
        assert At(l, " ", x);
      }
    }
  }

  lemma KeyIsGood(rest: string)
    requires rest != "" && !Space(rest[|rest| - 1]) && '\n' !in rest
    ensures GoodKey(TrimSpace(rest) + "\n")
  {
    var c, d := TrimSpaceParts(rest);
    var w := TrimSpace(rest);
    assert forall x :: 0 <= x < |w| ==> w[x] == rest[c + x];
    assert (w + "\n")[..|w|] == w;
  }

  lemma TrimmedEntryIsGood(l: string)
    requires l == "" || (Trimmed(l) && '\n' !in l)
    ensures EntryOf(l).Some? ==> GoodName(EntryOf(l).value.0) && GoodKey(EntryOf(l).value.1)
  {
    if l != "" && l[0] != '#' && Index(l, " ") >= 0 {
      NameIsGood(l);
      KeyIsGood(l[Index(l, " ") + 1..]);
    }
  }

  /** Every pin a file can hold is one that can be written back. */
  lemma EntryIsGood(line: string)
    requires '\n' !in line
    ensures Entry(line).Some? ==> GoodName(Entry(line).value.0) && GoodKey(Entry(line).value.1)
  {
    var a, b := TrimSpaceParts(line);
    assert '\n' !in line[a..b];
    TrimmedEntryIsGood(TrimSpace(line));
  }

  lemma {:induction false} LoadedPinsAreGood(lines: seq<string>)
    requires forall k :: 0 <= k < |lines| ==> '\n' !in lines[k]
    ensures forall name :: name in Pins(lines) ==> GoodName(name) && GoodKey(Pins(lines)[name])
  {
    if lines != [] {
      LoadedPinsAreGood(lines[..|lines| - 1]);
      EntryIsGood(lines[|lines| - 1]);
    }
  }

  lemma {:induction false} LastLineEmpty(text: string)
    ensures LineEnded(text) <==> Split(text)[|Split(text)| - 1] == ""
  {
    if text != "" {
      LastLineEmpty(text[1..]);
    }
  }

  function LongerLast(lines: seq<string>, more: string): seq<string>
    requires lines != []
  {
    lines[..|lines| - 1] + [lines[|lines| - 1] + more]
  }

  lemma LongerFirst(c: char, rest: seq<string>, more: string)
    requires rest != []
    ensures var longer := LongerLast(rest, more);
            [[c] + longer[0]] + longer[1..] == LongerLast([[c] + rest[0]] + rest[1..], more)
  {
    var longer := LongerLast(rest, more);
    if |rest| == 1 {
      assert [c] + (rest[0] + more) == [c] + rest[0] + more;
    } else {
      assert longer[1..] == rest[1..|rest| - 1] + [rest[|rest| - 1] + more];
    }
  }

  /** Text without a newline only makes the last line longer. */
  lemma {:induction false} SplitExtend(text: string, more: string)
    requires '\n' !in more
    ensures Split(text + more) == LongerLast(Split(text), more)
  {
    if text == "" {
      SplitOneLine(more);
      assert text + more == more;
    } else {
      SplitExtend(text[1..], more);
      var s, rest := text + more, Split(text[1..]);
      assert s[0] == text[0] && s[1..] == text[1..] + more;
      if text[0] == '\n' {
        assert [""] + LongerLast(rest, more) == LongerLast([""] + rest, more);
      } else {
        LongerFirst(text[0], rest, more);
      }
    }
  }

  lemma PinsSnoc(before: seq<string>, line: string)
    ensures Pins(before + [line]) == Pin(Pins(before), line)
  {
    assert (before + [line])[..|before|] == before;
  }

  lemma PinOfBlank(known: map<string, string>, line: string)
    requires Blank(line)
    ensures Pin(known, line) == known
  {
    BlankLine(line);
  }

  /** What follows the last newline, and what appending one line makes of it. */
  lemma AppendedPins(text: string, more: string) returns (base: map<string, string>, partial: string)
    requires '\n' !in more
    ensures '\n' !in partial && (LineEnded(text) <==> partial == "")
    ensures Split(text)[|Split(text)| - 1] == partial
    ensures Load(text) == Pin(base, partial)
    ensures Load(text + more + "\n") == Pin(base, partial + more)
  {
    var lines := Split(text);
    var before := lines[..|lines| - 1];
    base, partial := Pins(before), lines[|lines| - 1];
    SplitJoin(text);
    LastLineEmpty(text);
    PinsSnoc(before, partial);
    SplitExtend(text, more);
    SplitConcat(text + more, "");
    assert text + more + "\n" + "" == text + more + "\n";
    PinsSnoc(before, partial + more);
    PinsSnoc(before + [partial + more], "");
    PinOfBlank(Pins(before + [partial + more]), "");
  }

  lemma AppendPinText(text: string, name: string, w: string)
    requires LineEnded(text) && GoodName(name) && Trimmed(w) && '\n' !in w
    ensures Load(text + (name + " " + w) + "\n") == Load(text)[name := w + "\n"]
  {
    var line := name + " " + w;
    var base, partial := AppendedPins(text, line);
    PinOfBlank(base, partial);
    PinOfShifted(base, partial, name, w);
  }

  /** Appending a well-formed pin to whole lines adds exactly that pin. */
  lemma AppendPin(text: string, name: string, key: string)
    requires LineEnded(text) && GoodName(name) && GoodKey(key)
    ensures Load(text + (name + " " + key)) == Load(text)[name := key]
    ensures LineEnded(text + (name + " " + key)) && text + (name + " " + key) != ""
    ensures Load(text + (name + " " + key)) != map[]
  {
    assert name in Load(text)[name := key];
    var w := key[..|key| - 1];
    AppendPinText(text, name, w);
    assert key == w + "\n";
    assert text + (name + " " + key) == text + (name + " " + w) + "\n";
  }

  // ---------------------------------------------------------------- exactly which files can be appended to

  /** Text left of a pin on the same line stays in front of it when the line is trimmed. */
  lemma TrimSpoilt(p: string, line: string) returns (q: string)
    requires !Blank(p) && Trimmed(line)
    ensures q != "" && TrimSpace(p + line) == q + line
  {
    var s := p + line;
    var i, j := TrimSpaceParts(s);
    assert s[|s| - 1] == line[|line| - 1];
    var x :| 0 <= x < |p| && !Space(p[x]);
    assert s[x] == p[x];
    q := p[i..];
    assert s[i..|s|] == q + line;
  }

  lemma NoSpaceInName(q: string, name: string, w: string)
    requires ' ' !in name
    ensures var cut := Index(q + (name + " " + w), " ");
            0 <= cut < |q| || cut == |q| + |name|
  {
    var l := q + (name + " " + w);
    assert l == (q + name) + " " + w;
    assert l[|q| + |name|..|q| + |name| + 1] == " ";
    assert At(l, " ", |q| + |name|);
    var cut := Index(l, " ");
    AtElement(l, " ", cut, cut);
    assert forall x :: 0 <= x < |name| ==> l[|q| + x] == name[x];
  }

  lemma LongTail(front: string, line: string)
    requires Trimmed(line)
    ensures |TrimSpace(front + line)| >= |line|
  {
    var s := front + line;
    var i, j := TrimSpaceParts(s);
    assert s[|front|] == line[0] && s[|s| - 1] == line[|line| - 1];
  }

  lemma SpoiltKey(q: string, line: string, cut: nat, w: string)
    requires Trimmed(line) && cut < |q| && |line| > |w|
    ensures TrimSpace((q + line)[cut + 1..]) + "\n" != w + "\n"
  {
    assert (q + line)[cut + 1..] == q[cut + 1..] + line;
    LongTail(q[cut + 1..], line);
  }

  /** The pin is lost when other text already stands on the line it is appended to. */
  lemma SpoiltLine(p: string, name: string, w: string)
    requires !Blank(p) && GoodName(name) && Trimmed(w)
    ensures Entry(p + (name + " " + w)) != Some((name, w + "\n"))
  {
    EntryOfLine(name, w);
    var q := TrimSpoilt(p, name + " " + w);
    NoSpaceInName(q, name, w);
    SpoiltEntry(p + (name + " " + w), q, name + " " + w, name, w);
  }

  lemma SpoiltEntry(s: string, q: string, line: string, name: string, w: string)
    requires TrimSpace(s) == q + line && q != "" && Trimmed(line) && |line| == |name| + 1 + |w|
    requires 0 <= Index(q + line, " ") < |q| || Index(q + line, " ") == |q| + |name|
    ensures Entry(s) != Some((name, w + "\n"))
  {
    var cut := Index(q + line, " ");
    if cut < |q| {
      SpoiltKey(q, line, cut, w);
    } else {
      assert |(q + line)[..cut]| > |name|;
    }
  }

  predicate Holds(known: map<string, string>, name: string, key: string) {
    name in known && known[name] == key
  }

  /** Nothing but white space after the last newline: exactly the files a pin can be appended to. */
  predicate Clean(text: string) {
    Blank(Split(text)[|Split(text)| - 1])
  }

  /** Trust on first use records the new pin, and nothing else, exactly when no text stands after
      the file's last newline. Otherwise the appended line runs into what the operator left there. */
  lemma AppendRecordsPinExactly(text: string, name: string, key: string)
    requires GoodName(name) && GoodKey(key) && name !in Load(text)
    ensures Load(text + PinLine(name, key)) == Load(text)[name := key] <==> Clean(text)
    ensures Holds(Load(text + PinLine(name, key)), name, key) <==> Clean(text)
  {
    var w := key[..|key| - 1];
    assert key == w + "\n";
    PinLineText(name, key);
    assert text + PinLine(name, key) == text + (name + " " + w) + "\n";
    AppendTextExactly(text, name, w);
  }

  lemma AppendTextExactly(text: string, name: string, w: string)
    requires GoodName(name) && Trimmed(w) && '\n' !in w && name !in Load(text)
    ensures Load(text + (name + " " + w) + "\n") == Load(text)[name := w + "\n"] <==> Clean(text)
    ensures Holds(Load(text + (name + " " + w) + "\n"), name, w + "\n") <==> Clean(text)
  {
    var line := name + " " + w;
    var base, partial := AppendedPins(text, line);
    if Blank(partial) {
      PinOfBlank(base, partial);
      PinOfShifted(base, partial, name, w);
    } else {
      SpoiltLine(partial, name, w);
      NotPinned(base, partial, partial + line, name, w + "\n");
    }
  }

  lemma EntryShifted(p: string, line: string)
    requires Blank(p) && Trimmed(line)
    ensures Entry(p + line) == Entry(line)
  {
    TrimBetween(p, line, "");
    assert p + line + "" == p + line;
    TrimTrimmed(line);
  }

  lemma PinOfShifted(known: map<string, string>, p: string, name: string, w: string)
    requires Blank(p) && GoodName(name) && Trimmed(w)
    ensures Pin(known, p + (name + " " + w)) == known[name := w + "\n"]
  {
    EntryOfLine(name, w);
    EntryShifted(p, name + " " + w);
  }

  lemma NotPinned(known: map<string, string>, line: string, line': string, name: string, key: string)
    requires name !in Pin(known, line) && Entry(line') != Some((name, key))
    ensures Pin(known, line') != Pin(known, line)[name := key]
    ensures !Holds(Pin(known, line'), name, key)
  {
    var m := Pin(known, line');
    assert name !in known;
    assert name in m ==> m[name] != key;
    assert Pin(known, line)[name := key][name] == key;
  }

  // ---------------------------------------------------------------- runs

  datatype Event = Checked(name: string, key: string, accepted: bool) | Forgot(name: string, removed: nat)

  ghost predicate Step(policy: Policy, text: string, e: Event, text': string) {
    match e
    case Checked(name, key, accepted) =>
      && (policy == TrustOnFirstUse ==> GoodName(name) && GoodKey(key))
      && CheckStep(policy, text, name, key, accepted, text')
    case Forgot(name, removed) => ForgetStep(text, name, removed, text')
  }

  /** Any interleaving of calls on one store: they exclude each other through its mutex. */
  ghost predicate Steps(policy: Policy, texts: seq<string>, events: seq<Event>) {
    && |texts| == |events| + 1
    && forall i :: 0 <= i < |events| ==> Step(policy, texts[i], events[i], texts[i + 1])
  }

  /** Only trust on first use ever appends; the file it starts from must be one to append to. */
  ghost predicate Run(policy: Policy, texts: seq<string>, events: seq<Event>) {
    Steps(policy, texts, events) && (policy == TrustOnFirstUse ==> Clean(texts[0]))
  }

  lemma WholeLinesAreClean(text: string)
    requires LineEnded(text)
    ensures Clean(text)
  {
    LastLineEmpty(text);
  }

  predicate Appends(policy: Policy, e: Event) {
    policy == TrustOnFirstUse && e.Checked?
  }

  /** The whole decision. Keys are not looked at when that is switched off; otherwise a key is accepted
      if it is the pinned one, or none is pinned and the first one is trusted. Only then is anything
      written, one line behind the text. */
  lemma CheckDecides(policy: Policy, text: string, name: string, key: string, accepted: bool, text': string)
    requires GoodKey(key) && CheckStep(policy, text, name, key, accepted, text')
    ensures accepted <==>
      || policy == Insecure
      || (name in Load(text) && Load(text)[name] == key)
      || (name !in Load(text) && policy == TrustOnFirstUse)
    ensures text' == if policy == TrustOnFirstUse && name !in Load(text) then text + name + " " + key else text
  {
    PinLineText(name, key);
    if policy == TrustOnFirstUse && name !in Load(text) {
      assert text + (name + " " + key) == text + name + " " + key;
    }
  }

  /** What Forget leaves and how many it reports, for one name and for all. */
  lemma ForgetDecides(text: string, name: string, removed: nat, text': string)
    requires ForgetStep(text, name, removed, text')
    ensures name == "" ==> removed == |Load(text)| && Load(text') == map[]
    ensures name != "" ==> removed == (if name in Load(text) then 1 else 0) && Load(text') == Load(text) - {name}
  {
    var known := Load(text);
    if name == "" {
      assert Dropped(known, name, {}) == known.Keys;
    } else if name in known {
      assert Dropped(known, name, {}) == {name};
    } else {
      assert Dropped(known, name, {}) == {};
    }
  }

  /** A step changes the pins only where it says so, and leaves a clean file clean. */
  lemma StepTexts(policy: Policy, text: string, e: Event, text': string)
    requires Step(policy, text, e, text')
    requires Appends(policy, e) ==> Clean(text)
    ensures Clean(text) ==> Clean(text')
    ensures e.Checked? ==> text' == text || (e.name !in Load(text) && Load(text') == Load(text)[e.name := e.key])
  {
    if text' != text {
      if e.Checked? {
        AppendRecordsPinExactly(text, e.name, e.key);
        assert LineEnded(text');
      }
      WholeLinesAreClean(text');
    }
  }

  /** A check touches no pin but its own, and Forget only those it covers. */
  lemma StepFrame(policy: Policy, text: string, e: Event, text': string, name: string)
    requires Step(policy, text, e, text')
    requires Appends(policy, e) ==> Clean(text)
    requires if e.Checked? then e.name != name else !Covers(e.name, name)
    ensures name in Load(text) <==> name in Load(text')
    ensures name in Load(text) ==> Load(text')[name] == Load(text)[name]
  {
    StepTexts(policy, text, e, text');
  }

  /** A pin once set survives every step but a Forget covering it. */
  lemma PinStandsStep(policy: Policy, text: string, e: Event, text': string, name: string)
    requires Step(policy, text, e, text') && name in Load(text)
    requires Appends(policy, e) ==> Clean(text)
    requires !(e.Forgot? && Covers(e.name, name))
    ensures name in Load(text') && Load(text')[name] == Load(text)[name]
  {
    if !(e.Checked? && e.name == name) {
      StepFrame(policy, text, e, text', name);
    }
  }

  /** Unless keys are not looked at, an accepted key is the pinned one afterwards, exactly if it was
      pinned already or the file was one to append to. */
  lemma AcceptedIsPinned(policy: Policy, text: string, e: Event, text': string)
    requires policy != Insecure && Step(policy, text, e, text') && e.Checked? && e.accepted
    ensures Holds(Load(text'), e.name, e.key) <==> e.name in Load(text) || Clean(text)
    ensures e.name in Load(text) ==> text' == text
  {
    if e.name !in Load(text) {
      AppendRecordsPinExactly(text, e.name, e.key);
    }
  }

  lemma {:induction false} RunStaysClean(texts: seq<string>, events: seq<Event>, k: nat)
    requires Run(TrustOnFirstUse, texts, events) && k <= |events|
    ensures Clean(texts[k])
  {
    if k > 0 {
      RunStaysClean(texts, events, k - 1);
      StepTexts(TrustOnFirstUse, texts[k - 1], events[k - 1], texts[k]);
    }
  }

  /** A pin stands until a Forget covering it. */
  lemma {:induction false} PinStands(policy: Policy, texts: seq<string>, events: seq<Event>,
                                     first: nat, last: nat, name: string)
    requires Run(policy, texts, events) && first <= last <= |events|
    requires name in Load(texts[first])
    requires forall m :: first <= m < last ==> !(events[m].Forgot? && Covers(events[m].name, name))
    ensures name in Load(texts[last]) && Load(texts[last])[name] == Load(texts[first])[name]
    decreases last
  {
    if first < last {
      PinStands(policy, texts, events, first, last - 1, name);
      if policy == TrustOnFirstUse {
        RunStaysClean(texts, events, last - 1);
      }
      PinStandsStep(policy, texts[last - 1], events[last - 1], texts[last], name);
    }
  }

  lemma AcceptedInRun(policy: Policy, texts: seq<string>, events: seq<Event>, i: nat)
    requires policy != Insecure && Run(policy, texts, events) && i < |events|
    requires events[i].Checked? && events[i].accepted
    ensures Holds(Load(texts[i + 1]), events[i].name, events[i].key)
  {
    if policy == TrustOnFirstUse {
      RunStaysClean(texts, events, i);
    }
    AcceptedIsPinned(policy, texts[i], events[i], texts[i + 1]);
  }

  /** All keys accepted for a codespace between two Forgets covering it are the same key. */
  lemma AcceptedKeysAgree(policy: Policy, texts: seq<string>, events: seq<Event>, i: nat, j: nat)
    requires policy != Insecure && Run(policy, texts, events) && i < j < |events|
    requires events[i].Checked? && events[i].accepted && events[j].Checked? && events[j].accepted
    requires events[i].name == events[j].name
    requires forall m :: i < m < j ==> !(events[m].Forgot? && Covers(events[m].name, events[i].name))
    ensures events[i].key == events[j].key
  {
    AcceptedInRun(policy, texts, events, i);
    PinStands(policy, texts, events, i + 1, j, events[i].name);
    assert Step(policy, texts[j], events[j], texts[j + 1]);
  }

  /** That a file must be clean is exact: from any other file trust on first use can accept two
      different keys, for any name and first key, without a Forget in between. */
  lemma UnfinishedLineAcceptsTwoKeys(text: string, name: string, key: string)
    returns (texts: seq<string>, events: seq<Event>)
    requires !Clean(text) && GoodName(name) && GoodKey(key) && name !in Load(text)
    ensures Steps(TrustOnFirstUse, texts, events) && texts[0] == text && |events| == 2
    ensures events[0] == Checked(name, key, true)
    ensures events[1].Checked? && events[1].name == name && events[1].accepted && events[1].key != key
  {
    var text' := text + PinLine(name, key);
    AppendRecordsPinExactly(text, name, key);
    WholeFileIsGood(text');
    var other := if name in Load(text') then Load(text')[name] else if key == "a\n" then "b\n" else "a\n";
    var text'' := if name in Load(text') then text' else text' + PinLine(name, other);
    texts, events := [text, text', text''], [Checked(name, key, true), Checked(name, other, true)];
  }

  /** Over any run no pin appears or changes under the strict policy, whatever the file. */
  lemma {:induction false} StrictNeverPins(texts: seq<string>, events: seq<Event>, k: nat)
    requires Run(Strict, texts, events) && k <= |events|
    ensures forall name :: name in Load(texts[k]) ==> Holds(Load(texts[0]), name, Load(texts[k])[name])
  {
    if k > 0 {
      StrictNeverPins(texts, events, k - 1);
      assert Step(Strict, texts[k - 1], events[k - 1], texts[k]);
    }
  }
}
