/** cli/sshconfig.go: the block this tool manages inside the user's ~/.ssh/config. */
module SshConfig {
  import opened Substrings
  import opened Lines
  import opened Wrappers

  const BEGIN := "# >>> ssh-gateway >>>"
  const END := "# <<< ssh-gateway <<<"
  const COMMENT_WRITTEN_BY := "# 由 gateway ssh-config 写入，"
  const COMMENT_REMOVE_WITH := "可以用 `gateway ssh-config -remove` 删除。"
  const COMMENT := COMMENT_WRITTEN_BY + COMMENT_REMOVE_WITH
  const POLICY_TEXT := "# 网关的 host key 是固定的：首次连接自动信任，之后变了会报警。"
  const POLICY_COMMENT := "    " + POLICY_TEXT

  function Settings(hostname: string, port: string): string {
    "    HostName " + hostname + "\n" + ("    Port " + port + "\n"
      + ("    User root" + "\n" + (POLICY_COMMENT + "\n" + "    StrictHostKeyChecking accept-new")))
  }

  function BlockBody(host: string, hostname: string, port: string): string {
    COMMENT + "\n" + ("Host " + host + "\n" + Settings(hostname, port))
  }

  function SshConfigBlock(host: string, hostname: string, port: string): string {
    BEGIN + "\n" + (BlockBody(host, hostname, port) + "\n" + (END + "\n"))
  }

  /** strings.EqualFold(s, "Host"); the long s folds with the letter s. */
  predicate IsHostKeyword(s: string) {
    && |s| == 4
    && (s[0] == 'H' || s[0] == 'h')
    && (s[1] == 'O' || s[1] == 'o')
    && (s[2] == 'S' || s[2] == 's' || s[2] == '\U{017F}')
    && (s[3] == 'T' || s[3] == 't')
  }

  predicate HostLine(line: string, host: string) {
    var fields := Fields(line);
    |fields| >= 2 && IsHostKeyword(fields[0]) && host in fields[1..]
  }

  predicate HasHostEntry(content: string, host: string) {
    var lines := Split(content);
    exists i :: 0 <= i < |lines| && HostLine(lines[i], host)
  }

  // ---------------------------------------------------------------- the file

  datatype Action = Unchanged | Updated | Removed | NothingToRemove | Written | Refused

  /** writeSSHConfig: a file with nothing but white space in it is written empty. */
  function OnDisk(content: string): string {
    if Blank(content) then "" else content
  }

  /** Separates an appended block from what is there: end the last line, leave one line blank. */
  function Pad(content: string): string {
    if content == "" then ""
    else if content[|content| - 1] == '\n' then content + "\n"
    else content + "\n" + "\n"
  }

  /** The text before and after the managed block, if there is one. */
  function Located(content: string): Option<(string, string)> {
    LocatedBy(content, BEGIN, END)
  }

  function LocatedBy(content: string, b: string, e: string): Option<(string, string)> {
    CutAt(content, Index(content, b), Index(content, e), |e|)
  }

  function CutAt(content: string, begin: int, end: int, endLen: nat): Option<(string, string)>
    requires begin <= |content| && (end >= 0 ==> end + endLen <= |content|)
  {
    if 0 <= begin < end then
      var tail := end + endLen;
      var after := if tail < |content| && content[tail] == '\n' then content[tail + 1..] else content[tail..];
      Some((content[..begin], after))
    else None
  }

  /** The text with the block between these two markers replaced. */
  function Spliced(content: string, begin: nat, end: nat, endLen: nat, block: string): string
    requires begin < end && end + endLen <= |content|
  {
    var cut := CutAt(content, begin, end, endLen).value;
    cut.0 + block + cut.1
  }

  lemma SplicedAt(content: string, begin: nat, end: nat, endLen: nat, tail: nat, block: string)
    requires begin < end && end + endLen <= |content|
    requires var t := end + endLen; tail == if t < |content| && content[t] == '\n' then t + 1 else t
    ensures Spliced(content, begin, end, endLen, block) == content[..begin] + block + content[tail..]
  {}

  /** What is left without the block is shorter: removing always changes the text. */
  lemma CutIsShorter(content: string, begin: nat, end: nat, endLen: nat)
    requires begin < end && end + endLen <= |content|
    ensures |Spliced(content, begin, end, endLen, "")| < |content|
  {}

  lemma CutBetween(before: string, block: string, after: string, endLen: nat)
    requires endLen + 1 < |block| && block[|block| - 1] == '\n'
    ensures CutAt(before + block + after, |before|, |before| + |block| - endLen - 1, endLen) == Some((before, after))
  {
    var content := before + block + after;
    var tail := |before| + |block| - 1;
    assert content[tail] == block[|block| - 1];
    assert content[tail + 1..] == after;
    assert content[..|before|] == before;
  }

  /** The text with the new block in place of the one that is there, if one is. */
  function Replaced(content: string, block: string): string {
    match Located(content)
    case Some((before, after)) => before + block + after
    case None => content
  }

  /** The file's text after patching; an empty block removes. */
  function Patched(content: string, block: string, host: string): string {
    match Located(content)
    case Some((before, after)) => OnDisk(before + block + after)
    case None => if block == "" || HasHostEntry(content, host) then content else OnDisk(Pad(content) + block)
  }

  class ConfigFile {
    var file: Option<string>

    method Write(content: string)
      modifies this
      ensures file == Some(OnDisk(content))
    {
      var trimmed := TrimSpace(content);
      var i, j := TrimSpaceParts(content);
      file := if trimmed == "" then Some("") else Some(content);
    }

    /** A block is there: put the new one in its place. */
    method Splice(content: string, begin: nat, end: nat, block: string) returns (action: Action)
      requires begin < end && end + |END| <= |content|
      modifies this
      ensures var updated := Spliced(content, begin, end, |END|, block);
              && file == Some(OnDisk(updated))
              && action == if updated == content then Unchanged else if block == "" then Removed else Updated
    {
      var tail := end + |END|;
      if tail < |content| && content[tail] == '\n' {
        tail := tail + 1;
      }
      SplicedAt(content, begin, end, |END|, tail, block);
      var updated := content[..begin] + block + content[tail..];
      if updated == content {
        Write(updated);
        return Unchanged;
      }
      action := Updated;
      if block == "" {
        action := Removed;
      }
      Write(updated);
    }

    /** No block is there: add one, set apart from what the file holds. */
    method Append(original: string, block: string)
      modifies this
      ensures file == Some(OnDisk(Pad(original) + block))
    {
      var content := original;
      if content != "" && content[|content| - 1] != '\n' {
        content := content + "\n";
      }
      if content != "" {
        content := content + "\n";
      }
      Write(content + block);
    }

    method Patch(block: string, host: string) returns (action: Action)
      modifies this
      ensures Content(file) == Patched(Content(old(file)), block, host)
      ensures action == Refused || action == NothingToRemove ==> file == old(file)
      // a block was found
      ensures action in {Unchanged, Updated, Removed} <==> Located(Content(old(file))).Some?
      ensures action == Unchanged ==> Content(file) == OnDisk(Content(old(file)))
      ensures action == Updated ==> block != "" && Replaced(Content(old(file)), block) != Content(old(file))
      ensures action == Removed <==> Located(Content(old(file))).Some? && block == ""
      // none was found
      ensures action == NothingToRemove <==> Located(Content(old(file))).None? && block == ""
      ensures action == Refused <==>
                Located(Content(old(file))).None? && block != "" && HasHostEntry(Content(old(file)), host)
      ensures action == Written <==>
                Located(Content(old(file))).None? && block != "" && !HasHostEntry(Content(old(file)), host)
    {
      var content := Content(file);
      var begin := Index(content, BEGIN);
      var end := Index(content, END);
      if begin >= 0 && end > begin {
        CutIsShorter(content, begin, end, |END|);
        action := Splice(content, begin, end, block);
      } else if block == "" {
        return NothingToRemove;
      } else if HasHostEntry(content, host) {
        return Refused;
      } else {
        Append(content, block);
        return Written;
      }
    }
  }

  // ---------------------------------------------------------------- finding the block

  /** A block whose markers occur only at its two ends. */
  ghost predicate WellFormed(block: string) {
    WellFormedBy(block, BEGIN, END)
  }

  ghost predicate WellFormedBy(block: string, b: string, e: string) {
    && |block| > |b| + |e|
    && Index(block, b) == 0
    && Index(block, e) == |block| - |e| - 1
    && block[|block| - 1] == '\n'
  }

  predicate OneLine(m: string) {
    m != "" && '\n' !in m
  }

  /** A marker starts with the only `#` it holds, so none can begin before another one and end in it. */
  predicate HashedOnce(m: string) {
    m != "" && m[0] == '#' && '#' !in m[1..]
  }

  ghost predicate Marked(s: string) {
    Contains(s, BEGIN) || Contains(s, END)
  }

  lemma MarkersHaveNoNewline()
    ensures '\n' !in BEGIN && '\n' !in END
  {}

  lemma MarkersAreHashedOnce()
    ensures HashedOnce(BEGIN) && HashedOnce(END)
  {}

  /** Behind a marker-free text of whole lines, the first marker is found where it was. */
  lemma IndexBehind(before: string, x: string, m: string)
    requires LineEnded(before) && '\n' !in m && m != "" && !Contains(before, m)
    ensures Index(before + x, m) == if Index(x, m) < 0 then -1 else |before| + Index(x, m)
  {
    var s := before + x;
    forall i | At(s, m, i) ensures i >= |before| && At(x, m, i - |before|) {
      AtConcat(before, x, m, i);
      if before != "" {
        var a := before[..|before| - 1];
        assert s == a + ['\n'] + x;
        SplitAtForeign(a, '\n', x, m);
      }
    }
    if Index(x, m) >= 0 {
      AtConcat(before, x, m, |before| + Index(x, m));
    }
  }

  /** Text added behind an occurrence does not move the first one. */
  lemma SameIndex(content: string, x: string, m: string)
    requires Contains(content, m)
    ensures Index(content + x, m) == Index(content, m)
  {
    var i := Index(content, m);
    AtConcat(content, x, m, i);
    forall j | At(content + x, m, j) && j < i ensures At(content, m, j) {
      AtConcat(content, x, m, j);
    }
  }

  lemma OnlyFirst(m: string, k: nat)
    requires HashedOnce(m) && 0 < k < |m|
    ensures m[k] != '#'
  {
    assert m[k] == m[1..][k - 1];
  }

  /** A marker in front of a block does not reach into it. */
  lemma NoStraddle(before: string, x: string, m: string, i: int)
    requires HashedOnce(m) && x != "" && x[0] == '#' && At(before + x, m, i) && i < |before|
    ensures At(before, m, i)
  {
    if i + |m| > |before| {
      OnlyFirst(m, |before| - i);
      AtElement(before + x, m, i, |before|);
      assert false;
    }
    AtConcat(before, x, m, i);
  }

  lemma MarkerBehind(before: string, block: string, after: string, m: string)
    requires HashedOnce(m) && block != "" && block[0] == '#' && !Contains(before, m) && Contains(block, m)
    ensures Index(before + block + after, m) == |before| + Index(block, m)
  {
    var x := block + after;
    SameIndex(block, after, m);
    assert before + x == before + block + after;
    forall i | At(before + x, m, i) ensures i >= |before| && At(x, m, i - |before|) {
      if i < |before| {
        NoStraddle(before, x, m, i);
      }
      AtConcat(before, x, m, i);
    }
    AtConcat(before, x, m, |before| + Index(x, m));
  }

  lemma LocatedAt(content: string, b: string, e: string, begin: int, end: int)
    requires begin == Index(content, b) && end == Index(content, e)
    ensures LocatedBy(content, b, e) == CutAt(content, begin, end, |e|)
  {}

  /** A block up to its end marker: the markers stand at its two ends and nowhere else. */
  ghost predicate CoreBy(core: string, b: string, e: string) {
    |core| >= |b| + |e| && Index(core, b) == 0 && Index(core, e) == |core| - |e| > 0
  }

  lemma CoreOf(block: string, b: string, e: string)
    requires HashedOnce(b) && HashedOnce(e) && WellFormedBy(block, b, e)
    ensures block == block[..|block| - 1] + "\n" && CoreBy(block[..|block| - 1], b, e)
  {
    var core := block[..|block| - 1];
    assert block == core + "\n";
    AtConcat(core, "\n", b, 0);
    AtConcat(core, "\n", e, |block| - |e| - 1);
    SameIndex(core, "\n", b);
    SameIndex(core, "\n", e);
  }

  /** The text behind a block: one newline is part of the block. */
  function BehindLine(rest: string): string {
    if rest != "" && rest[0] == '\n' then rest[1..] else rest
  }

  lemma CutCore(before: string, core: string, rest: string, endLen: nat)
    requires 0 < endLen < |core|
    ensures CutAt(before + core + rest, |before|, |before| + |core| - endLen, endLen)
         == Some((before, BehindLine(rest)))
  {
    var content := before + core + rest;
    var tail := |before| + |core|;
    assert content[..|before|] == before && content[tail..] == rest;
    assert rest != "" ==> content[tail] == rest[0] && content[tail + 1..] == rest[1..];
  }

  lemma LocatedCoreBy(before: string, core: string, rest: string, b: string, e: string)
    requires HashedOnce(b) && HashedOnce(e) && CoreBy(core, b, e)
    requires !Contains(before, b) && !Contains(before, e)
    ensures LocatedBy(before + core + rest, b, e) == Some((before, BehindLine(rest)))
  {
    AtElement(core, b, 0, 0);
    MarkerBehind(before, core, rest, b);
    MarkerBehind(before, core, rest, e);
    LocatedAt(before + core + rest, b, e, |before|, |before| + |core| - |e|);
    CutCore(before, core, rest, |e|);
  }

  lemma LocatedBetweenBy(before: string, block: string, after: string, b: string, e: string)
    requires HashedOnce(b) && HashedOnce(e) && WellFormedBy(block, b, e)
    requires !Contains(before, b) && !Contains(before, e)
    ensures LocatedBy(before + block + after, b, e) == Some((before, after))
  {
    var core := block[..|block| - 1];
    CoreOf(block, b, e);
    LineOfBlock(before, core, after);
    LocatedCoreBy(before, core, "\n" + after, b, e);
  }

  lemma LineOfBlock(before: string, core: string, after: string)
    ensures before + core + ("\n" + after) == before + (core + "\n") + after && BehindLine("\n" + after) == after
  {}

  lemma LocatedUnfinishedBy(before: string, core: string, after: string, b: string, e: string)
    requires HashedOnce(b) && HashedOnce(e) && WellFormedBy(core + "\n", b, e) && BehindLine(after) == after
    requires !Contains(before, b) && !Contains(before, e)
    ensures LocatedBy(before + core + after, b, e) == Some((before, after))
  {
    CoreOf(core + "\n", b, e);
    assert (core + "\n")[..|core|] == core;
    LocatedCoreBy(before, core, after, b, e);
  }

  lemma EarlyIndex(before: string, x: string, m: string)
    requires m != "" && Contains(before, m)
    ensures 0 <= Index(before + x, m) < |before|
  {
    SameIndex(before, x, m);
  }

  lemma CutBegins(content: string, begin: int, end: int, endLen: nat)
    requires begin <= |content| && (end >= 0 ==> end + endLen <= |content|)
    ensures var cut := CutAt(content, begin, end, endLen);
            cut.Some? ==> |cut.value.0| == begin < end
  {}

  /** A marker in the text before the block is found instead of the one in the block. */
  lemma MisledBy(before: string, x: string, after: string, b: string, e: string)
    requires b != "" && e != "" && (Contains(before, b) || Contains(before, e))
    ensures LocatedBy(before + x, b, e) != Some((before, after))
  {
    var content := before + x;
    CutBegins(content, Index(content, b), Index(content, e), |e|);
    if Contains(before, b) {
      EarlyIndex(before, x, b);
    } else {
      EarlyIndex(before, x, e);
    }
  }

  /** The managed block is found with exactly the text around it, whatever that text ends or starts
      with, if and only if no marker stands before it. */
  lemma LocatedExactly(before: string, block: string, after: string)
    requires WellFormed(block)
    ensures Located(before + block + after) == Some((before, after)) <==> !Marked(before)
  {
    if Marked(before) {
      assert before + (block + after) == before + block + after;
      MisledBy(before, block + after, after, BEGIN, END);
    } else {
      MarkersAreHashedOnce();
      LocatedBetweenBy(before, block, after, BEGIN, END);
    }
  }

  /** The same for a block that has lost its final newline, at the end of the file or before other
      text: nothing of that text is taken for part of the block. */
  lemma LocatedUnfinishedExactly(before: string, core: string, after: string)
    requires WellFormed(core + "\n") && (after == "" || after[0] != '\n')
    ensures Located(before + core + after) == Some((before, after)) <==> !Marked(before)
  {
    if Marked(before) {
      assert before + (core + after) == before + core + after;
      MisledBy(before, core + after, after, BEGIN, END);
    } else {
      MarkersAreHashedOnce();
      LocatedUnfinishedBy(before, core, after, BEGIN, END);
    }
  }

  lemma BlockNotBlank(before: string, block: string, after: string)
    requires WellFormed(block)
    ensures !Blank(before + block + after)
  {
    assert block[..|BEGIN|][0] == BEGIN[0];
    assert (before + block + after)[|before|] == '#';
  }

  /** Replacing a block keeps everything around it, and leaves a file that can be replaced again. */
  lemma ReplaceInPlace(before: string, block: string, after: string, block': string, host: string)
    requires WellFormed(block) && !Marked(before)
    ensures Patched(before + block + after, block', host) == OnDisk(before + block' + after)
    ensures WellFormed(block') ==> Patched(before + block + after, block', host) == before + block' + after
  {
    LocatedExactly(before, block, after);
    if WellFormed(block') {
      BlockNotBlank(before, block', after);
    }
  }

  lemma ReplaceUnfinished(before: string, core: string, after: string, block': string, host: string)
    requires WellFormed(core + "\n") && (after == "" || after[0] != '\n') && !Marked(before)
    ensures Patched(before + core + after, block', host) == OnDisk(before + block' + after)
    ensures WellFormed(block') ==> Patched(before + core + after, block', host) == before + block' + after
  {
    LocatedUnfinishedExactly(before, core, after);
    if WellFormed(block') {
      BlockNotBlank(before, block', after);
    }
  }

  // ---------------------------------------------------------------- lens laws

  /** Text the tool has not touched: no marker, and nobody else's entry for the alias. */
  ghost predicate Fresh(content: string, host: string) {
    !Marked(content) && !HasHostEntry(content, host)
  }

  lemma PadIsClean(content: string, m: string)
    requires '\n' !in m && m != ""
    ensures LineEnded(Pad(content))
    ensures Contains(Pad(content), m) <==> Contains(content, m)
    ensures content <= Pad(content)
  {
    if content != "" {
      SplitAtForeign(content, '\n', "", m);
      SplitAtForeign(content + "\n", '\n', "", m);
      assert content + "\n" + "" == content + "\n";
      assert content + "\n" + "\n" + "" == content + "\n" + "\n";
    }
  }

  /** Writing a block and then patching again in any way acts as if only the second patch had
      found the padded text: the last write wins, and removing gives the padded text back. */
  lemma WriteThenPatch(content: string, block: string, block': string, host: string)
    requires Fresh(content, host) && WellFormed(block)
    ensures Patched(content, block, host) == Pad(content) + block
    ensures Patched(Patched(content, block, host), block', host) == OnDisk(Pad(content) + block')
  {
    MarkersHaveNoNewline();
    PadIsClean(content, BEGIN);
    PadIsClean(content, END);
    assert block != "";
    assert Pad(content) + block + "" == Pad(content) + block;
    assert Pad(content) + block' + "" == Pad(content) + block';
    BlockNotBlank(Pad(content), block, "");
    ReplaceInPlace(Pad(content), block, "", block', host);
  }

  lemma WriteTwice(content: string, block: string, host: string)
    requires Fresh(content, host) && WellFormed(block)
    ensures Patched(Patched(content, block, host), block, host) == Patched(content, block, host)
  {
    WriteThenPatch(content, block, block, host);
    BlockNotBlank(Pad(content), block, "");
    assert Pad(content) + block + "" == Pad(content) + block;
  }

  lemma LastWriteWins(content: string, block: string, block': string, host: string)
    requires Fresh(content, host) && WellFormed(block) && WellFormed(block')
    ensures Patched(Patched(content, block, host), block', host) == Patched(content, block', host)
  {
    WriteThenPatch(content, block, block', host);
    WriteThenPatch(content, block', block', host);
    BlockNotBlank(Pad(content), block', "");
    assert Pad(content) + block' + "" == Pad(content) + block';
  }

  /** Exactly when a first write can be undone: the file must hold neither marker. A stray end
      marker hides the new block from every later patch; a stray begin marker makes the later
      patch swallow the text between it and the new block. */
  lemma RemoveUndoesWriteExactly(content: string, block: string, host: string)
    requires Located(content).None? && !HasHostEntry(content, host) && WellFormed(block)
    ensures Patched(Patched(content, block, host), "", host) == OnDisk(Pad(content)) <==> !Marked(content)
  {
    if !Marked(content) {
      WriteThenPatch(content, block, "", host);
      assert Pad(content) + "" == Pad(content);
    } else {
      StrayMarker(content, block, host);
    }
  }

  /** Where a marker is first found once the padded block has been appended. */
  lemma IndexAppended(content: string, block: string, m: string)
    requires '\n' !in m && m != ""
    ensures Contains(content, m) ==> Index(Pad(content) + block, m) == Index(content, m)
    ensures !Contains(content, m) && Contains(block, m) ==>
              Index(Pad(content) + block, m) == |Pad(content)| + Index(block, m)
  {
    var p := Pad(content);
    PadIsClean(content, m);
    if Contains(content, m) {
      var x := p[|content|..] + block;
      assert p + block == content + x;
      SameIndex(content, x, m);
    } else {
      IndexBehind(p, block, m);
    }
  }

  lemma MarkerIndices(content: string, block: string, b: string, e: string)
    requires OneLine(b) && OneLine(e) && WellFormedBy(block, b, e)
    ensures Index(Pad(content) + block, b) == if Contains(content, b) then Index(content, b) else |Pad(content)|
    ensures Index(Pad(content) + block, e)
         == if Contains(content, e) then Index(content, e) else |Pad(content)| + |block| - |e| - 1
  {
    IndexAppended(content, block, b);
    IndexAppended(content, block, e);
  }

  lemma StrayEndBy(content: string, block: string, b: string, e: string)
    requires OneLine(b) && OneLine(e) && WellFormedBy(block, b, e)
    requires LocatedBy(content, b, e).None? && Contains(content, e)
    ensures LocatedBy(Pad(content) + block, b, e).None?
  {
    MarkerIndices(content, block, b, e);
  }

  /** An end marker already in the file comes before the new block's begin marker. */
  lemma StrayEnd(content: string, block: string)
    requires Located(content).None? && WellFormed(block) && Contains(content, END)
    ensures Located(Pad(content) + block).None?
  {
    MarkersHaveNoNewline();
    StrayEndBy(content, block, BEGIN, END);
  }

  lemma StrayBeginAt(content: string, block: string, b: string, e: string, begin: nat)
    requires |e| + 1 < |block| && block[|block| - 1] == '\n' && begin <= |content|
    requires Index(Pad(content) + block, b) == begin
    requires Index(Pad(content) + block, e) == |Pad(content)| + |block| - |e| - 1
    ensures LocatedBy(Pad(content) + block, b, e) == Some((content[..begin], ""))
  {
    LocatedAt(Pad(content) + block, b, e, begin, |Pad(content)| + |block| - |e| - 1);
    SwallowedTail(content, block, begin, |e|);
  }

  lemma StrayBeginBy(content: string, block: string, b: string, e: string)
    requires OneLine(b) && OneLine(e) && WellFormedBy(block, b, e)
    requires Contains(content, b) && !Contains(content, e)
    ensures LocatedBy(Pad(content) + block, b, e) == Some((content[..Index(content, b)], ""))
  {
    MarkerIndices(content, block, b, e);
    StrayBeginAt(content, block, b, e, Index(content, b));
  }

  /** A begin marker without its end pairs up with the new block's end marker. */
  lemma StrayBegin(content: string, block: string)
    requires WellFormed(block) && Contains(content, BEGIN) && !Contains(content, END)
    ensures Located(Pad(content) + block) == Some((content[..Index(content, BEGIN)], ""))
  {
    MarkersHaveNoNewline();
    StrayBeginBy(content, block, BEGIN, END);
  }

  lemma SwallowedTail(content: string, block: string, begin: nat, endLen: nat)
    requires begin <= |content| && endLen + 1 < |block| && block[|block| - 1] == '\n'
    ensures var end := |Pad(content)| + |block| - endLen - 1;
            CutAt(Pad(content) + block, begin, end, endLen) == Some((content[..begin], ""))
  {
    var c := Pad(content) + block;
    var swallowed := c[begin..];
    assert c[..begin] == content[..begin];
    assert c == content[..begin] + swallowed + "";
    CutBetween(content[..begin], swallowed, "", endLen);
  }

  lemma WriteAppends(content: string, block: string, host: string)
    requires Located(content).None? && !HasHostEntry(content, host) && WellFormed(block)
    ensures Patched(content, block, host) == Pad(content) + block
  {
    assert Pad(content) + block == Pad(content) + block + "";
    BlockNotBlank(Pad(content), block, "");
  }

  /** With a stray end marker the new block can never be removed again. */
  lemma StrayEndSticks(content: string, block: string, host: string)
    requires Located(content).None? && !HasHostEntry(content, host) && WellFormed(block) && Contains(content, END)
    ensures Patched(Patched(content, block, host), "", host) == Pad(content) + block
  {
    WriteAppends(content, block, host);
    StrayEnd(content, block);
  }

  /** With a stray begin marker removing also drops what stood between it and the new block. */
  lemma StrayBeginSwallows(content: string, block: string, host: string)
    requires Located(content).None? && !HasHostEntry(content, host) && WellFormed(block)
    requires Contains(content, BEGIN) && !Contains(content, END)
    ensures Patched(Patched(content, block, host), "", host) == OnDisk(content[..Index(content, BEGIN)])
  {
    WriteAppends(content, block, host);
    StrayBegin(content, block);
    var before := content[..Index(content, BEGIN)];
    assert before + "" + "" == before;
  }

  lemma NotBlankPadded(content: string, m: string)
    requires HashedOnce(m) && Contains(content, m)
    ensures OnDisk(Pad(content)) == Pad(content) && Index(content, m) < |content| <= |Pad(content)|
  {
    var i := Index(content, m);
    AtElement(content, m, i, i);
    assert Pad(content)[i] == '#';
  }

  lemma StrayMarker(content: string, block: string, host: string)
    requires Located(content).None? && !HasHostEntry(content, host) && WellFormed(block) && Marked(content)
    ensures Patched(Patched(content, block, host), "", host) != OnDisk(Pad(content))
  {
    var again := Patched(Patched(content, block, host), "", host);
    if Contains(content, END) {
      StrayEndSticks(content, block, host);
      assert |again| > |OnDisk(Pad(content))|;
    } else {
      StrayBeginSwallows(content, block, host);
      MarkersAreHashedOnce();
      NotBlankPadded(content, BEGIN);
      assert |again| < |OnDisk(Pad(content))|;
    }
  }

  // ---------------------------------------------------------------- the rendered block

  lemma CommentHasNoEnd()
    ensures !Contains(COMMENT, END)
  {
    assert END[2] == '<';
    assert '<' !in COMMENT_WRITTEN_BY && '<' !in COMMENT_REMOVE_WITH;
    LacksElement(COMMENT, END, 2);
  }

  lemma PolicyCommentHasNoEnd()
    ensures !Contains(POLICY_COMMENT, END)
  {
    assert END[2] == '<';
    LacksElement(POLICY_COMMENT, END, 2);
  }

  lemma PlainLinesHaveNoEnd()
    ensures !Contains("    User root", END) && !Contains("    StrictHostKeyChecking accept-new", END)
    ensures !Contains(BEGIN, END)
  {
    assert END[2] == '<';
    LacksElement("    User root", END, 2);
    LacksElement("    StrictHostKeyChecking accept-new", END, 2);
    LacksElement(BEGIN, END, 2);
  }

  lemma OwnLinesHaveNoEnd()
    ensures !Contains(COMMENT, END) && !Contains(POLICY_COMMENT, END) && !Contains(BEGIN, END)
    ensures !Contains("    User root", END) && !Contains("    StrictHostKeyChecking accept-new", END)
  {
    CommentHasNoEnd();
    PolicyCommentHasNoEnd();
    PlainLinesHaveNoEnd();
  }

  lemma NextLine(a: string, b: string)
    ensures Contains(a + "\n" + b, END) <==> Contains(a, END) || Contains(b, END)
  {
    MarkersHaveNoNewline();
    SplitAtForeign(a, '\n', b, END);
  }

  lemma LabelledLine(key: string, value: string)
    requires '#' !in key
    ensures Contains(key + value, END) <==> Contains(value, END)
  {
    assert END[0] == '#';
    PrefixWithout(key, value, END);
  }

  lemma BodyHoldsEnd(host: string, hostname: string, port: string)
    ensures Contains(BlockBody(host, hostname, port), END)
       <==> Contains(host, END) || Contains(hostname, END) || Contains(port, END)
  {
    OwnLinesHaveNoEnd();
    var l5 := POLICY_COMMENT + "\n" + "    StrictHostKeyChecking accept-new";
    NextLine(POLICY_COMMENT, "    StrictHostKeyChecking accept-new");
    var l4 := "    User root" + "\n" + l5;
    NextLine("    User root", l5);
    var l3 := "    Port " + port + "\n" + l4;
    LabelledLine("    Port ", port);
    NextLine("    Port " + port, l4);
    var l2 := "    HostName " + hostname + "\n" + l3;
    LabelledLine("    HostName ", hostname);
    NextLine("    HostName " + hostname, l3);
    var l1 := "Host " + host + "\n" + l2;
    LabelledLine("Host ", host);
    NextLine("Host " + host, l2);
    NextLine(COMMENT, l1);
    assert BlockBody(host, hostname, port) == COMMENT + "\n" + l1;
  }

  lemma EndAfter(head: string, e: string)
    requires OneLine(e) && !Contains(head, e)
    ensures Index(head + "\n" + (e + "\n"), e) == |head| + 1
  {
    var block := head + "\n" + (e + "\n");
    SplitAtForeign(head, '\n', e + "\n", e);
    forall j | At(block, e, j) ensures j >= |head| + 1 {
      AtConcat(head, "\n" + (e + "\n"), e, j);
      assert block == head + ("\n" + (e + "\n"));
    }
    assert block[|head| + 1..|head| + 1 + |e|] == e;
    assert At(block, e, |head| + 1);
  }

  lemma EndedBlock(head: string, b: string, e: string)
    requires OneLine(b) && OneLine(e) && |head| >= |b| && head[..|b|] == b
    ensures WellFormedBy(head + "\n" + (e + "\n"), b, e) <==> !Contains(head, e)
  {
    var block := head + "\n" + (e + "\n");
    assert block[0..|b|] == b;
    assert At(block, b, 0);
    if Contains(head, e) {
      var j :| At(head, e, j);
      AtConcat(head, "\n" + (e + "\n"), e, j);
      assert block == head + ("\n" + (e + "\n"));
      assert At(block, e, j) && j < |block| - |e| - 1;
    } else {
      EndAfter(head, e);
    }
  }

  lemma Regrouped(b: string, body: string, e: string, n: string)
    ensures b + n + (body + n + e) == b + n + body + n + e
  {}

  /** The rendered block meets the laws above exactly when none of its values holds the end marker. */
  lemma RenderedBlockWellFormed(host: string, hostname: string, port: string)
    ensures WellFormed(SshConfigBlock(host, hostname, port))
       <==> !Contains(host, END) && !Contains(hostname, END) && !Contains(port, END)
  {
    var body := BlockBody(host, hostname, port);
    BodyHoldsEnd(host, hostname, port);
    OwnLinesHaveNoEnd();
    NextLine(BEGIN, body);
    MarkersHaveNoNewline();
    EndedBlock(BEGIN + "\n" + body, BEGIN, END);
    Regrouped(BEGIN, body, END + "\n", "\n");
  }

  // ---------------------------------------------------------------- the alias

  lemma EntriesConcat(a: string, b: string, host: string)
    ensures HasHostEntry(a + "\n" + b, host) <==> HasHostEntry(a, host) || HasHostEntry(b, host)
  {
    SplitConcat(a, b);
    var la, lb := Split(a), Split(b);
    assert forall i :: 0 <= i < |la| ==> (la + lb)[i] == la[i];
    assert forall i :: 0 <= i < |lb| ==> (la + lb)[|la| + i] == lb[i];
  }

  lemma NoEntryInEmpty(host: string)
    ensures !HasHostEntry("", host)
  {
    assert Split("") == [""];
    assert Fields("") == [];
  }

  lemma AliasLine(host: string)
    requires Word(host)
    ensures HostLine("Host " + host, host)
  {
    assert "Host " + host == "Host" + " " + host;
    FieldsCons("Host", host);
    FieldsOfWord(host);
    var fields := Fields("Host " + host);
    assert fields == ["Host", host];
    assert fields[1] in fields[1..];
  }

  lemma AliasInside(front: string, rest: string, host: string)
    requires Word(host) && '\n' !in host
    ensures HasHostEntry(front + "\n" + ("Host " + host + "\n" + rest), host)
  {
    var line := "Host " + host;
    AliasLine(host);
    SplitOneLine(line);
    assert Split(line)[0] == line;
    assert HasHostEntry(line, host);
    EntriesConcat(line, rest, host);
    EntriesConcat(front, line + "\n" + rest, host);
  }

  lemma LinesRegrouped(p: string, b: string, c: string, l: string, s: string, e: string, a: string, n: string)
    ensures p + (b + n + ((c + n + (l + n + s)) + n + e)) + a == (p + b + n + c) + n + (l + n + (s + n + (e + a)))
  {}

  /** A written block declares the alias, wherever it stands. */
  lemma AliasInBlock(before: string, after: string, host: string, hostname: string, port: string)
    requires Word(host)
    ensures HasHostEntry(before + SshConfigBlock(host, hostname, port) + after, host)
  {
    var settings := Settings(hostname, port);
    assert Space('\n') && '\n' !in host;
    AliasInside(before + BEGIN + "\n" + COMMENT, settings + "\n" + (END + "\n" + after), host);
    LinesRegrouped(before, BEGIN, COMMENT, "Host " + host, settings, END + "\n", after, "\n");
  }

  lemma NotBlankWithBlock(before: string, after: string, host: string, hostname: string, port: string)
    ensures !Blank(before + SshConfigBlock(host, hostname, port) + after)
  {
    var text := before + SshConfigBlock(host, hostname, port) + after;
    assert SshConfigBlock(host, hostname, port)[0] == BEGIN[0];
    assert text[|before|] == '#' && !Space('#');
  }

  /** After patching in a rendered block the alias is declared, whatever the file held: a block was
      replaced, one was appended, or the alias was there already. */
  lemma WrittenAliasIsFound(content: string, host: string, hostname: string, port: string)
    requires Word(host)
    ensures HasHostEntry(Patched(content, SshConfigBlock(host, hostname, port), host), host)
  {
    var block := SshConfigBlock(host, hostname, port);
    match Located(content)
    case Some((before, after)) =>
      AliasInBlock(before, after, host, hostname, port);
      NotBlankWithBlock(before, after, host, hostname, port);
    case None =>
      AliasInBlock(Pad(content), "", host, hostname, port);
      NotBlankWithBlock(Pad(content), "", host, hostname, port);
      assert Pad(content) + block + "" == Pad(content) + block;
  }

  lemma PadEntries(content: string, host: string)
    ensures HasHostEntry(Pad(content), host) <==> HasHostEntry(content, host)
  {
    NoEntryInEmpty(host);
    if content != "" {
      EntriesConcat(content, "", host);
      assert content + "\n" + "" == content + "\n";
      EntriesConcat(content + "\n", "", host);
      assert content + "\n" + "\n" + "" == content + "\n" + "\n";
    }
  }

  // ---------------------------------------------------------------- what ssh reads in the file

  lemma LineThen(line: string, rest: string)
    requires '\n' !in line
    ensures Split(line + "\n" + rest) == [line] + Split(rest)
  {
    SplitConcat(line, rest);
    SplitOneLine(line);
  }

  lemma OwnLinesAreLines()
    ensures '\n' !in BEGIN && '\n' !in COMMENT && '\n' !in POLICY_COMMENT && '\n' !in END
  {
    CommentsAreLines();
  }

  lemma CommentsAreLines()
    ensures '\n' !in COMMENT && '\n' !in POLICY_COMMENT
  {
    assert '\n' !in COMMENT_WRITTEN_BY && '\n' !in COMMENT_REMOVE_WITH;
    assert '\n' !in POLICY_TEXT && '\n' !in "    ";
  }

  lemma FiveLines(a: string, b: string, c: string, d: string, e: string)
    requires '\n' !in a && '\n' !in b && '\n' !in c && '\n' !in d && '\n' !in e
    ensures Split(a + "\n" + (b + "\n" + (c + "\n" + (d + "\n" + e)))) == [a, b, c, d, e]
  {
    SplitOneLine(e);
    LineThen(d, e);
    LineThen(c, d + "\n" + e);
    LineThen(b, c + "\n" + (d + "\n" + e));
    LineThen(a, b + "\n" + (c + "\n" + (d + "\n" + e)));
  }

  lemma SettingsLines(hostname: string, port: string)
    requires '\n' !in hostname && '\n' !in port
    ensures Split(Settings(hostname, port)) ==
            ["    HostName " + hostname, "    Port " + port, "    User root", POLICY_COMMENT,
             "    StrictHostKeyChecking accept-new"]
  {
    OwnLinesAreLines();
    FiveLines("    HostName " + hostname, "    Port " + port, "    User root", POLICY_COMMENT,
              "    StrictHostKeyChecking accept-new");
  }

  /** The rendered block, line after line. */
  lemma BlockLines(host: string, hostname: string, port: string)
    requires '\n' !in host && '\n' !in hostname && '\n' !in port
    ensures Split(SshConfigBlock(host, hostname, port)) ==
            ["# >>> ssh-gateway >>>", COMMENT, "Host " + host, "    HostName " + hostname, "    Port " + port,
             "    User root", POLICY_COMMENT, "    StrictHostKeyChecking accept-new", "# <<< ssh-gateway <<<", ""]
  {
    OwnLinesAreLines();
    SettingsLines(hostname, port);
    var body := BlockBody(host, hostname, port);
    LineThen("Host " + host, Settings(hostname, port));
    LineThen(COMMENT, "Host " + host + "\n" + Settings(hostname, port));
    LineThen(END, "");
    assert END + "\n" + "" == END + "\n";
    SplitConcat(body, END + "\n");
    LineThen(BEGIN, body + "\n" + (END + "\n"));
  }

  /** What a line tells ssh: its words, unless it is empty or a comment. */
  function Says(line: string): seq<seq<string>> {
    var words := Fields(line);
    if words == [] || (words[0] != "" && words[0][0] == '#') then [] else [words]
  }

  function FlatMap<A, B>(f: A -> seq<B>, xs: seq<A>): seq<B> {
    if xs == [] then [] else f(xs[0]) + FlatMap(f, xs[1..])
  }

  lemma {:induction false} FlatMapConcat<A, B>(f: A -> seq<B>, xs: seq<A>, ys: seq<A>)
    ensures FlatMap(f, xs + ys) == FlatMap(f, xs) + FlatMap(f, ys)
  {
    if xs == [] {
      assert xs + ys == ys;
    } else {
      FlatMapConcat(f, xs[1..], ys);
      assert (xs + ys)[1..] == xs[1..] + ys;
    }
  }

  lemma FlatMapCons<A, B>(f: A -> seq<B>, x: A, xs: seq<A>)
    ensures FlatMap(f, [x] + xs) == f(x) + FlatMap(f, xs)
  {
    assert ([x] + xs)[1..] == xs;
  }

  function Directives(text: string): seq<seq<string>> {
    FlatMap(Says, Split(text))
  }

  lemma Shifted(line: string, space: string)
    requires |space| == 1 && Space(space[0])
    ensures Fields(space + line) == Fields(line)
  {
    assert (space + line)[1..] == line;
  }

  lemma Indented(line: string)
    ensures Fields("    " + line) == Fields(line)
  {
    Shifted(line, " ");
    Shifted(" " + line, " ");
    assert "  " + line == " " + (" " + line);
    Shifted("  " + line, " ");
    assert "   " + line == " " + ("  " + line);
    Shifted("   " + line, " ");
    assert "    " + line == " " + ("   " + line);
  }

  lemma Setting(key: string, value: string)
    requires Word(key) && Word(value)
    ensures Fields(key + " " + value) == [key, value] == Fields("    " + (key + " " + value))
  {
    FieldsCons(key, value);
    FieldsOfWord(value);
    Indented(key + " " + value);
  }

  lemma CommentLine(line: string)
    requires line != "" && line[0] == '#'
    ensures Says(line) == []
  {
    assert !Space(line[0]);
    assert Fields(line)[0][0] == line[0];
  }

  /** Five lines that say something, among others that do not. */
  lemma FiveOfTen<B>(f: string -> seq<B>, b: string, c: string, h: string, n: string, p: string, u: string, d: string,
        k: string, e: string)
    requires f(b) == f(c) == f(d) == f(e) == f("") == []
    ensures FlatMap(f, [b, c, h, n, p, u, d, k, e, ""]) == f(h) + f(n) + f(p) + f(u) + f(k)
  {
    var back := [u, d, k, e, ""];
    assert back == [u] + ([d] + ([k] + ([e] + ([""] + []))));
    FlatMapCons(f, "", []);
    FlatMapCons(f, e, [""] + []);
    FlatMapCons(f, k, [e] + ([""] + []));
    FlatMapCons(f, d, [k] + ([e] + ([""] + [])));
    FlatMapCons(f, u, [d] + ([k] + ([e] + ([""] + []))));
    FrontOfTen(f, b, c, h, n, p, back);
    assert [b, c, h, n, p] + back == [b, c, h, n, p, u, d, k, e, ""];
  }

  lemma FrontOfTen<B>(f: string -> seq<B>, b: string, c: string, h: string, n: string, p: string, back: seq<string>)
    requires f(b) == f(c) == []
    ensures FlatMap(f, [b, c, h, n, p] + back) == f(h) + f(n) + f(p) + FlatMap(f, back)
  {
    assert [b, c, h, n, p] + back == [b] + ([c] + ([h] + ([n] + ([p] + back))));
    FlatMapCons(f, p, back);
    FlatMapCons(f, n, [p] + back);
    FlatMapCons(f, h, [n] + ([p] + back));
    FlatMapCons(f, c, [h] + ([n] + ([p] + back)));
    FlatMapCons(f, b, [c] + ([h] + ([n] + ([p] + back))));
  }

  lemma MarkersSayNothing()
    ensures Says(BEGIN) == Says(COMMENT) == Says(END) == Says("") == []
  {
    CommentLine(BEGIN);
    CommentLine(COMMENT);
    CommentLine(END);
  }

  lemma IndentedComment(text: string)
    requires text != "" && text[0] == '#'
    ensures Says("    " + text) == []
  {
    Indented(text);
    CommentLine(text);
  }

  lemma IndentedSetting(key: string, value: string)
    requires Word(key) && Word(value)
    ensures Says("    " + (key + " " + value)) == if key[0] == '#' then [] else [[key, value]]
  {
    Setting(key, value);
  }

  lemma ValuesSaid(host: string, hostname: string, port: string)
    requires Word(host) && Word(hostname) && Word(port)
    ensures Says("Host " + host) == [["Host", host]]
    ensures Says("    HostName " + hostname) == [["HostName", hostname]]
    ensures Says("    Port " + port) == [["Port", port]]
  {
    Setting("Host", host);
    assert "Host " + host == "Host" + " " + host;
    HostNameSaid(hostname);
    PortSaid(port);
  }

  lemma HostNameSaid(hostname: string)
    requires Word(hostname)
    ensures Says("    HostName " + hostname) == [["HostName", hostname]]
  {
    IndentedSetting("HostName", hostname);
    assert "    HostName " + hostname == "    " + ("HostName" + " " + hostname);
  }

  lemma PortSaid(port: string)
    requires Word(port)
    ensures Says("    Port " + port) == [["Port", port]]
  {
    IndentedSetting("Port", port);
    assert "    Port " + port == "    " + ("Port" + " " + port);
  }

  lemma UserSaid()
    ensures Says("    User root") == [["User", "root"]]
  {
    IndentedSetting("User", "root");
    assert "    User root" == "    " + ("User" + " " + "root");
  }

  lemma PolicyLine()
    ensures "    StrictHostKeyChecking accept-new" == "    " + ("StrictHostKeyChecking" + " " + "accept-new")
  {}

  lemma PolicyWords()
    ensures Word("StrictHostKeyChecking") && Word("accept-new") && "StrictHostKeyChecking"[0] != '#'
  {}

  lemma PolicySaid()
    ensures Says("    StrictHostKeyChecking accept-new") == [["StrictHostKeyChecking", "accept-new"]]
  {
    PolicyLine();
    PolicyWords();
    IndentedSetting("StrictHostKeyChecking", "accept-new");
  }

  lemma BlockMapped<B>(f: string -> seq<B>, host: string, hostname: string, port: string)
    requires '\n' !in host && '\n' !in hostname && '\n' !in port
    requires f(BEGIN) == f(COMMENT) == f(POLICY_COMMENT) == f(END) == f("") == []
    ensures FlatMap(f, Split(SshConfigBlock(host, hostname, port)))
         == f("Host " + host) + f("    HostName " + hostname) + f("    Port " + port) + f("    User root")
          + f("    StrictHostKeyChecking accept-new")
  {
    BlockLines(host, hostname, port);
    FiveOfTen(f, BEGIN, COMMENT, "Host " + host, "    HostName " + hostname, "    Port " + port, "    User root",
              POLICY_COMMENT, "    StrictHostKeyChecking accept-new", END);
  }

  lemma OwnLinesSayNothing()
    ensures Says(BEGIN) == Says(COMMENT) == Says(POLICY_COMMENT) == Says(END) == Says("") == []
  {
    MarkersSayNothing();
    IndentedComment(POLICY_TEXT);
  }

  lemma OneByOne<T>(a: T, b: T, c: T, d: T, e: T)
    ensures [a] + [b] + [c] + [d] + [e] == [a, b, c, d, e]
  {}

  lemma WordsAreOnOneLine(s: string)
    requires Word(s)
    ensures '\n' !in s
  {
    assert Space('\n');
  }

  /** The rendered block says these five things, each once, and nothing else. */
  lemma BlockDirectives(host: string, hostname: string, port: string)
    requires Word(host) && Word(hostname) && Word(port)
    ensures Directives(SshConfigBlock(host, hostname, port)) ==
            [["Host", host], ["HostName", hostname], ["Port", port], ["User", "root"],
             ["StrictHostKeyChecking", "accept-new"]]
  {
    WordsAreOnOneLine(host);
    WordsAreOnOneLine(hostname);
    WordsAreOnOneLine(port);
    OwnLinesSayNothing();
    BlockMapped(Says, host, hostname, port);
    ValuesSaid(host, hostname, port);
    UserSaid();
    PolicySaid();
    OneByOne(["Host", host], ["HostName", hostname], ["Port", port], ["User", "root"],
             ["StrictHostKeyChecking", "accept-new"]);
  }

  lemma EmptyLineSaysNothing()
    ensures Directives("") == [] && FlatMap(Says, [""]) == []
  {
    assert Split("") == [""] && [""][1..] == [];
  }

  lemma DirectivesAfter(a: string, b: string)
    requires LineEnded(a)
    ensures Directives(a + b) == Directives(a) + Directives(b)
  {
    EmptyLineSaysNothing();
    if a == "" {
      assert a + b == b;
    } else {
      var line := a[..|a| - 1];
      assert a == line + "\n" + "" && a + b == line + "\n" + b;
      SplitConcat(line, "");
      SplitConcat(line, b);
      FlatMapConcat(Says, Split(line), [""]);
      FlatMapConcat(Says, Split(line), Split(b));
    }
  }

  lemma NewlineSaysNothing(content: string)
    ensures Directives(content + "\n") == Directives(content)
  {
    EmptyLineSaysNothing();
    SplitConcat(content, "");
    assert content + "\n" + "" == content + "\n";
    FlatMapConcat(Says, Split(content), [""]);
  }

  lemma PadSaysNothing(content: string)
    ensures LineEnded(Pad(content)) && Directives(Pad(content)) == Directives(content)
  {
    NewlineSaysNothing(content);
    NewlineSaysNothing(content + "\n");
  }

  /** What ssh reads after an install: the five settings, behind everything it read before, or in
      place of the block that was there. */
  lemma InstalledDirectives(content: string, host: string, hostname: string, port: string)
    requires Word(host) && Word(hostname) && Word(port)
    ensures var five := [["Host", host], ["HostName", hostname], ["Port", port], ["User", "root"],
                         ["StrictHostKeyChecking", "accept-new"]];
            var seen := Directives(Patched(content, SshConfigBlock(host, hostname, port), host));
            match Located(content)
            case Some((before, after)) => LineEnded(before) ==> seen == Directives(before) + five + Directives(after)
            case None => !HasHostEntry(content, host) ==> seen == Directives(content) + five
  {
    var block := SshConfigBlock(host, hostname, port);
    BlockDirectives(host, hostname, port);
    assert block != "" && LineEnded(block);
    match Located(content)
    case Some((before, after)) =>
      NotBlankWithBlock(before, after, host, hostname, port);
      if LineEnded(before) {
        BetweenSaid(before, block, after);
      }
    case None =>
      NotBlankWithBlock(Pad(content), "", host, hostname, port);
      assert Pad(content) + block + "" == Pad(content) + block;
      PadSaysNothing(content);
      DirectivesAfter(Pad(content), block);
  }

  lemma Grouped(a: string, b: string, c: string)
    ensures a + (b + c) == a + b + c
  {}

  lemma BetweenSaid(before: string, block: string, after: string)
    requires LineEnded(before) && LineEnded(block)
    ensures Directives(before + block + after) == Directives(before) + Directives(block) + Directives(after)
  {
    DirectivesAfter(block, after);
    DirectivesAfter(before, block + after);
    Grouped(before, block, after);
  }

  // ---------------------------------------------------------------- aliases and padding, spelled out

  /** Letters brought to one case; the long s folds with the letter s. */
  function LowerCase(c: char): char {
    if 'A' <= c <= 'Z' then (c as int + 32) as char else if c == '\U{017F}' then 's' else c
  }

  function Folded(word: string): string {
    seq(|word|, i requires 0 <= i < |word| => LowerCase(word[i]))
  }

  /** Every name on a Host line is an alias, not the first one alone; the keyword's case is no matter. */
  lemma AliasAnywhere(line: string, host: string)
    ensures HostLine(line, host) <==>
      var words := Fields(line);
      |words| >= 2 && Folded(words[0]) == "host" && exists i :: 1 <= i < |words| && words[i] == host
  {
    var words := Fields(line);
    if |words| >= 2 {
      var k := Folded(words[0]);
      assert k == "host" <==> |k| == 4 && k[0] == 'h' && k[1] == 'o' && k[2] == 's' && k[3] == 't';
      assert forall i :: 1 <= i < |words| ==> words[i] == words[1..][i - 1];
    }
  }

  lemma BlankParts(a: string, b: string)
    ensures Blank(a + b) <==> Blank(a) && Blank(b)
  {
    assert forall i :: 0 <= i < |a| ==> (a + b)[i] == a[i];
    assert forall i :: 0 <= i < |b| ==> (a + b)[|a| + i] == b[i];
  }

  /** An appended block stands behind the old text, which is ended by a newline if need be, and one
      blank line; text that would be white space alone becomes empty. */
  lemma AppendedAfterBlankLine(content: string, block: string, host: string)
    requires Located(content).None? && !HasHostEntry(content, host) && block != ""
    ensures Patched(content, block, host) ==
            if Blank(content) && Blank(block) then ""
            else if content == "" then block
            else if content[|content| - 1] == '\n' then content + "\n" + block
            else content + "\n\n" + block
  {
    BlankParts(Pad(content), block);
    BlankParts(content, "\n");
    BlankParts(content, "\n\n");
    assert content + "\n" + "\n" == content + "\n\n";
  }

  // ---------------------------------------------------------------- repeated installs

  /** One install followed by one removal. */
  function Round(content: string, block: string, host: string): string {
    Patched(Patched(content, block, host), "", host)
  }

  /** The file's text at the start and after each of a series of rounds. */
  ghost predicate Rounds(texts: seq<string>, blocks: seq<string>, host: string) {
    && |texts| == |blocks| + 1
    && forall k :: 0 <= k < |blocks| ==> WellFormed(blocks[k]) && texts[k + 1] == Round(texts[k], blocks[k], host)
  }

  /** A round leaves the owner's text in place, still fresh, plus the padding. */
  lemma RoundKeepsFresh(content: string, block: string, host: string)
    requires Fresh(content, host) && WellFormed(block)
    ensures Round(content, block, host) == OnDisk(Pad(content))
    ensures Fresh(Round(content, block, host), host)
  {
    WriteThenPatch(content, block, "", host);
    assert Pad(content) + "" == Pad(content);
    MarkersHaveNoNewline();
    PadIsClean(content, BEGIN);
    PadIsClean(content, END);
    PadEntries(content, host);
    NoEntryInEmpty(host);
  }

  /** A round is undone exactly for an empty file. */
  lemma RoundIsNeutralExactly(content: string, block: string, host: string)
    requires Fresh(content, host) && WellFormed(block)
    ensures Round(content, block, host) == content <==> content == ""
  {
    RoundKeepsFresh(content, block, host);
  }

  lemma OneRoundAddsOneLine(content: string, block: string, host: string)
    requires Fresh(content, host) && !Blank(content) && LineEnded(content) && WellFormed(block)
    ensures Round(content, block, host) == content + "\n"
    ensures Fresh(content + "\n", host) && !Blank(content + "\n") && LineEnded(content + "\n")
  {
    RoundKeepsFresh(content, block, host);
    var i :| 0 <= i < |content| && !Space(content[i]);
    assert (content + "\n")[i] == content[i];
  }

  function Newlines(n: nat): string {
    seq(n, _ => '\n')
  }

  lemma OneMoreNewline(content: string, n: nat)
    ensures content + Newlines(n) + "\n" == content + Newlines(n + 1)
    ensures content + Newlines(0) == content
  {}

  /** Removing is not a full undo: every round of install and removal leaves one more blank line
      behind, however the blocks differ, and nothing else in the file ever changes. */
  lemma {:induction false} EachRoundAddsOneLine(texts: seq<string>, blocks: seq<string>, host: string, k: nat)
    requires Rounds(texts, blocks, host) && k <= |blocks|
    requires Fresh(texts[0], host) && !Blank(texts[0]) && LineEnded(texts[0])
    ensures texts[k] == texts[0] + Newlines(k)
    ensures Fresh(texts[k], host) && !Blank(texts[k]) && LineEnded(texts[k])
  {
    OneMoreNewline(texts[0], if k == 0 then 0 else k - 1);
    if k > 0 {
      EachRoundAddsOneLine(texts, blocks, host, k - 1);
      OneRoundAddsOneLine(texts[k - 1], blocks[k - 1], host);
    }
  }
}
