/** Text as Go's strings package sees it: lines, white space and fields. A string is a
    sequence of Unicode characters. */
module Lines {
  import opened Substrings
  import opened Wrappers

  /** A file is its text, or absent; an absent file reads as empty. */
  function Content(file: Option<string>): string {
    if file.Some? then file.value else ""
  }

  /** Empty, or ended by a newline. */
  predicate LineEnded(text: string) {
    text == "" || text[|text| - 1] == '\n'
  }

  /** unicode.IsSpace */
  predicate Space(c: char) {
    || '\t' <= c <= '\r' || c == ' ' || c == '\U{0085}' || c == '\U{00A0}' || c == '\U{1680}'
    || '\U{2000}' <= c <= '\U{200A}' || c == '\U{2028}' || c == '\U{2029}' || c == '\U{202F}'
    || c == '\U{205F}' || c == '\U{3000}'
  }

  predicate Blank(s: string) {
    forall i :: 0 <= i < |s| ==> Space(s[i])
  }

  /** No white space inside, and not empty: what Fields returns. */
  predicate Word(s: string) {
    s != "" && forall i :: 0 <= i < |s| ==> !Space(s[i])
  }

  // ---------------------------------------------------------------- lines

  /** strings.Split(s, "\n") */
  function Split(s: string): (lines: seq<string>)
    ensures lines != []
  {
    if s == "" then [""]
    else
      var rest := Split(s[1..]);
      if s[0] == '\n' then [""] + rest else [[s[0]] + rest[0]] + rest[1..]
  }

  /** Splitting is exactly the inverse of joining: no line holds a newline, nothing is lost. */
  lemma {:induction false} SplitJoin(s: string)
    ensures Join(Split(s), "\n") == s
    ensures forall k :: 0 <= k < |Split(s)| ==> '\n' !in Split(s)[k]
  {
    if s != "" {
      SplitJoin(s[1..]);
      var rest := Split(s[1..]);
      if s[0] == '\n' {
        assert ([""] + rest)[1..] == rest;
      } else {
        assert ([[s[0]] + rest[0]] + rest[1..])[1..] == rest[1..];
      }
    }
  }

  lemma FirstOfBoth(c: char, xs: seq<string>, ys: seq<string>)
    requires xs != []
    ensures [[c] + (xs + ys)[0]] + (xs + ys)[1..] == [[c] + xs[0]] + xs[1..] + ys
  {
    assert (xs + ys)[1..] == xs[1..] + ys;
  }

  lemma {:induction false} SplitConcat(a: string, b: string)
    ensures Split(a + "\n" + b) == Split(a) + Split(b)
  {
    if a == "" {
      assert (a + "\n" + b)[1..] == b;
    } else {
      SplitConcat(a[1..], b);
      var s, xs, ys := a + "\n" + b, Split(a[1..]), Split(b);
      assert s[0] == a[0] && s[1..] == a[1..] + "\n" + b;
      if a[0] == '\n' {
        assert [""] + (xs + ys) == [""] + xs + ys;
      } else {
        FirstOfBoth(a[0], xs, ys);
      }
    }
  }

  lemma {:induction false} SplitOneLine(s: string)
    requires '\n' !in s
    ensures Split(s) == [s]
  {
    if s != "" {
      SplitOneLine(s[1..]);
      assert [s[0]] + s[1..] == s;
    }
  }

  // ---------------------------------------------------------------- white space

  function TrimLeft(s: string): string {
    if s != "" && Space(s[0]) then TrimLeft(s[1..]) else s
  }

  function TrimRight(s: string): string {
    if s != "" && Space(s[|s| - 1]) then TrimRight(s[..|s| - 1]) else s
  }

  /** strings.TrimSpace */
  function TrimSpace(s: string): string {
    TrimRight(TrimLeft(s))
  }

  predicate Trimmed(s: string) {
    s != "" && !Space(s[0]) && !Space(s[|s| - 1])
  }

  lemma {:induction false} TrimLeftParts(s: string) returns (k: nat)
    ensures k <= |s| && TrimLeft(s) == s[k..] && Blank(s[..k])
    ensures k < |s| ==> !Space(s[k])
  {
    if s != "" && Space(s[0]) {
      k := TrimLeftParts(s[1..]);
      assert s[1..][k..] == s[k + 1..];
      assert forall i :: 0 < i < k + 1 ==> s[i] == s[1..][..k][i - 1];
      k := k + 1;
    } else {
      k := 0;
    }
  }

  lemma {:induction false} TrimRightParts(s: string) returns (k: nat)
    ensures k <= |s| && TrimRight(s) == s[..k] && Blank(s[k..])
    ensures k > 0 ==> !Space(s[k - 1])
  {
    if s != "" && Space(s[|s| - 1]) {
      var t := s[..|s| - 1];
      k := TrimRightParts(t);
      assert t[..k] == s[..k];
      assert forall i :: 0 <= i < |t| - k ==> s[k..][i] == t[k..][i];
    } else {
      k := |s|;
    }
  }

  /** TrimSpace keeps one contiguous piece, and drops only white space around it. */
  lemma TrimSpaceParts(s: string) returns (i: nat, j: nat)
    ensures i <= j <= |s| && TrimSpace(s) == s[i..j]
    ensures forall x :: 0 <= x < i || j <= x < |s| ==> Space(s[x])
    ensures if Blank(s) then TrimSpace(s) == "" else Trimmed(TrimSpace(s))
  {
    i := TrimLeftParts(s);
    var k := TrimRightParts(s[i..]);
    j := i + k;
    assert s[i..][..k] == s[i..j];
    assert forall x :: 0 <= x < i ==> s[x] == s[..i][x];
    assert forall x :: j <= x < |s| ==> s[x] == s[i..][k..][x - j];
    if i < j {
      assert s[j - 1] == s[i..][k - 1];
    }
  }

  lemma TrimBetween(a: string, m: string, b: string)
    requires Blank(a) && Trimmed(m) && Blank(b)
    ensures TrimSpace(a + m + b) == m
  {
    var s := a + m + b;
    var i, j := TrimSpaceParts(s);
    assert s[|a|] == m[0] && s[|a| + |m| - 1] == m[|m| - 1];
    assert forall x :: 0 <= x < |a| ==> s[x] == a[x];
    assert forall x :: |a| + |m| <= x < |s| ==> s[x] == b[x - |a| - |m|];
    assert s[i] == TrimSpace(s)[0] && s[j - 1] == TrimSpace(s)[j - i - 1];
    assert s[|a|..|a| + |m|] == m;
  }

  lemma TrimTrimmed(s: string)
    requires Trimmed(s)
    ensures TrimSpace(s) == s
  {}

  // ---------------------------------------------------------------- fields

  function WordLen(s: string): (n: nat)
    ensures n <= |s|
    ensures forall i :: 0 <= i < n ==> !Space(s[i])
    ensures n < |s| ==> Space(s[n])
  {
    if s == "" || Space(s[0]) then 0 else 1 + WordLen(s[1..])
  }

  /** strings.Fields */
  function Fields(s: string): seq<string>
    decreases |s|
  {
    if s == "" then []
    else if Space(s[0]) then Fields(s[1..])
    else [s[..WordLen(s)]] + Fields(s[WordLen(s)..])
  }

  lemma FieldsOfWord(w: string)
    requires Word(w)
    ensures Fields(w) == [w]
  {
    assert WordLen(w) == |w|;
    assert w[..|w|] == w && w[|w|..] == "";
  }

  lemma FieldsCons(w: string, rest: string)
    requires Word(w)
    ensures Fields(w + " " + rest) == [w] + Fields(rest)
  {
    var s := w + " " + rest;
    assert s[0] == w[0];
    assert WordLen(s) == |w| by {
      assert s[|w|] == ' ';
      assert forall i :: 0 <= i < |w| ==> s[i] == w[i];
    }
    assert s[..|w|] == w && s[|w|..] == " " + rest;
    assert (" " + rest)[1..] == rest;
  }

  // ---------------------------------------------------------------- white space and fields, spelled out

  /** The twenty-five white space characters of Unicode. */
  lemma SpaceIs(c: char)
    ensures Space(c) <==>
      c in ['\t', '\n', '\U{000B}', '\U{000C}', '\r', ' ', '\U{0085}', '\U{00A0}', '\U{1680}', '\U{2000}', '\U{2001}',
            '\U{2002}', '\U{2003}', '\U{2004}', '\U{2005}', '\U{2006}', '\U{2007}', '\U{2008}', '\U{2009}', '\U{200A}',
            '\U{2028}', '\U{2029}', '\U{202F}', '\U{205F}', '\U{3000}']
  {}

  /** Gaps and words in turn, beginning and ending with a gap. */
  function Woven(gaps: seq<string>, words: seq<string>): string
    requires |gaps| == |words| + 1
  {
    if words == [] then gaps[0] else gaps[0] + words[0] + Woven(gaps[1..], words[1..])
  }

  ghost predicate Gaps(gaps: seq<string>) {
    && (forall i :: 0 <= i < |gaps| ==> Blank(gaps[i]))
    && (forall i :: 0 < i < |gaps| - 1 ==> gaps[i] != "")
  }

  /** Fields are the words of a text, all of them and in order: what lies between is white space. */
  lemma {:induction false} FieldsParts(s: string) returns (gaps: seq<string>)
    ensures |gaps| == |Fields(s)| + 1 && Gaps(gaps) && Woven(gaps, Fields(s)) == s
    ensures forall i :: 0 <= i < |Fields(s)| ==> Word(Fields(s)[i])
    ensures s != "" && Space(s[0]) ==> gaps[0] != ""
    decreases |s|
  {
    if s == "" {
      gaps := [""];
    } else if Space(s[0]) {
      var rest := FieldsParts(s[1..]);
      gaps := [[s[0]] + rest[0]] + rest[1..];
      WovenShifted(s[0], rest, Fields(s));
    } else {
      var n := FirstWord(s);
      var rest := FieldsParts(s[n..]);
      gaps := [""] + rest;
      WovenWord(s[..n], rest, Fields(s[n..]));
    }
  }

  lemma FirstWord(s: string) returns (n: nat)
    requires s != "" && !Space(s[0])
    ensures 0 < n <= |s| && Word(s[..n]) && s == s[..n] + s[n..]
    ensures Fields(s) == [s[..n]] + Fields(s[n..]) && (Fields(s[n..]) != [] ==> s[n..] != "" && Space(s[n..][0]))
  {
    n := WordLen(s);
  }

  lemma WovenWord(word: string, gaps: seq<string>, words: seq<string>)
    requires |gaps| == |words| + 1 && Gaps(gaps) && (words != [] ==> gaps[0] != "")
    ensures Gaps([""] + gaps) && Woven([""] + gaps, [word] + words) == word + Woven(gaps, words)
  {
    assert ([""] + gaps)[1..] == gaps && ([word] + words)[1..] == words;
    assert "" + word == word;
  }

  lemma WovenShifted(c: char, gaps: seq<string>, words: seq<string>)
    requires |gaps| == |words| + 1 && Space(c) && Gaps(gaps)
    ensures Gaps([[c] + gaps[0]] + gaps[1..])
    ensures Woven([[c] + gaps[0]] + gaps[1..], words) == [c] + Woven(gaps, words)
  {
    var more := [[c] + gaps[0]] + gaps[1..];
    assert more[1..] == gaps[1..];
  }
}
