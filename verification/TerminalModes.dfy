/** providers/github/connection.go, parseTerminalModes: the encoded terminal modes of a pty request
    (section 8 of RFC 4254): pairs of an opcode and a big-endian 32-bit argument, ended by opcode 0. */
module TerminalModes {

  type Byte = b: int | 0 <= b < 256
  type Word = w: int | 0 <= w < 0x1_0000_0000

  datatype Mode = Mode(op: Byte, argument: Word)

  const ECHO: Byte := 53
  const ISPEED: Byte := 128
  const OSPEED: Byte := 129
  const DEFAULTS: map<Byte, Word> := map[ECHO := 1, ISPEED := 14400, OSPEED := 14400]

  /** Four bytes, the most significant first. */
  function Argument(a: Byte, b: Byte, c: Byte, d: Byte): (w: Word)
  {
    var high: int, low: int := 256 * (a as int) + b, 256 * (c as int) + d;
    0x1_0000 * high + low
  }

  /** What is read of raw before the first opcode 0, or before fewer than five bytes remain. */
  function Scan(raw: seq<Byte>): seq<Mode> {
    if |raw| < 5 || raw[0] == 0 then [] else [Mode(raw[0], Argument(raw[1], raw[2], raw[3], raw[4]))] + Scan(raw[5..])
  }

  /** The table a list of modes stands for: a repeated opcode keeps its last argument. */
  function Table(modes: seq<Mode>): map<Byte, Word> {
    if modes == [] then map[]
    else Table(modes[..|modes| - 1])[modes[|modes| - 1].op := modes[|modes| - 1].argument]
  }

  lemma {:induction false} TableIsEmpty(modes: seq<Mode>)
    ensures Table(modes) == map[] <==> modes == []
  {
    if modes != [] {
      assert modes[|modes| - 1].op in Table(modes);
    }
  }

  /** Echo on and both speeds 14400, when the client sent no mode at all. */
  method Parse(input: seq<Byte>) returns (modes: map<Byte, Word>)
    ensures modes == if Scan(input) == [] then map[53 := 1, 128 := 14400, 129 := 14400] else Table(Scan(input))
  {
    var raw := input;
    modes := map[];
    ghost var seen: seq<Mode> := [];
    while |raw| >= 5
      invariant Scan(input) == seen + Scan(raw)
      invariant modes == Table(seen)
    {
      var op := raw[0];
      if op == 0 {
        break;
      }
      var argument: Word := Argument(raw[1], raw[2], raw[3], raw[4]);
      modes := modes[op := argument];
      assert (seen + [Mode(op, argument)])[..|seen|] == seen;
      seen := seen + [Mode(op, argument)];
      raw := raw[5..];
    }
    assert Scan(raw) == [] && Scan(input) == seen;
    TableIsEmpty(seen);
    if |modes| == 0 {
      modes := DEFAULTS;
    }
  }

  // ---------------------------------------------------------------- the encoder, and back

  /** The four bytes of a word, the most significant first. */
  function Bytes(w: Word): (Byte, Byte, Byte, Byte) {
    var high: int, low: int := w / 0x1_0000, w % 0x1_0000;
    (high / 256, high % 256, low / 256, low % 256)
  }

  /** The modes on the wire, without what ends them. */
  function Pairs(modes: seq<Mode>): seq<Byte> {
    if modes == [] then []
    else
      var (a, b, c, d) := Bytes(modes[0].argument);
      [modes[0].op, a, b, c, d] + Pairs(modes[1..])
  }

  /** Where reading stops: at an incomplete pair or at opcode 0. */
  predicate Ends(raw: seq<Byte>) {
    |raw| < 5 || raw[0] == 0
  }

  lemma HalfReadsBack(half: int)
    ensures 256 * (half / 256) + half % 256 == half
  {}

  lemma ArgumentReadsBack(w: Word)
    ensures var (a, b, c, d) := Bytes(w); Argument(a, b, c, d) == w
  {
    HalfReadsBack(w / 0x1_0000);
    HalfReadsBack(w % 0x1_0000);
  }

  lemma BytesReadBack(a: Byte, b: Byte, c: Byte, d: Byte)
    ensures Argument(a, b, c, d) == 16777216 * (a as int) + 65536 * (b as int) + 256 * (c as int) + d
    ensures Bytes(Argument(a, b, c, d)) == (a, b, c, d)
  {
    var high: int, low: int := 256 * (a as int) + b, 256 * (c as int) + d;
    assert (0x1_0000 * high + low) / 0x1_0000 == high && (0x1_0000 * high + low) % 0x1_0000 == low;
    assert high / 256 == a && high % 256 == b && low / 256 == c && low % 256 == d;
  }

  /** Whatever follows the terminator, an encoded list of modes is read back as it was. */
  lemma {:induction false} EncodedIsReadBack(modes: seq<Mode>, rest: seq<Byte>)
    requires forall i :: 0 <= i < |modes| ==> modes[i].op != 0
    requires Ends(rest)
    ensures Scan(Pairs(modes) + rest) == modes
  {
    if modes == [] {
      assert Pairs(modes) + rest == rest;
    } else {
      var raw := Pairs(modes) + rest;
      ArgumentReadsBack(modes[0].argument);
      assert raw[5..] == Pairs(modes[1..]) + rest;
      EncodedIsReadBack(modes[1..], rest);
    }
  }

  /** And every input is a list of modes followed by an end: nothing before it is skipped. */
  lemma {:induction false} ScanReadsAll(raw: seq<Byte>) returns (rest: seq<Byte>)
    ensures raw == Pairs(Scan(raw)) + rest && Ends(rest)
    ensures forall i :: 0 <= i < |Scan(raw)| ==> Scan(raw)[i].op != 0
  {
    if Ends(raw) {
      rest := raw;
      assert [] + rest == raw;
    } else {
      rest := ScanReadsAll(raw[5..]);
      BytesReadBack(raw[1], raw[2], raw[3], raw[4]);
      var first := Mode(raw[0], Argument(raw[1], raw[2], raw[3], raw[4]));
      assert Scan(raw) == [first] + Scan(raw[5..]) && Scan(raw)[1..] == Scan(raw[5..]);
      assert Pairs(Scan(raw)) == raw[..5] + Pairs(Scan(raw[5..]));
      assert raw == raw[..5] + raw[5..];
    }
  }

  ghost predicate LastOf(modes: seq<Mode>, i: nat) {
    i < |modes| && forall j :: i < j < |modes| ==> modes[j].op != modes[i].op
  }

  /** The table has exactly the opcodes that were sent, each with the argument sent last. */
  lemma {:induction false} TableHoldsLast(modes: seq<Mode>, op: Byte)
    ensures op in Table(modes) <==> exists i :: 0 <= i < |modes| && modes[i].op == op
    ensures forall i: nat :: LastOf(modes, i) ==>
              modes[i].op in Table(modes) && Table(modes)[modes[i].op] == modes[i].argument
  {
    if modes != [] {
      var before := modes[..|modes| - 1];
      TableHoldsLast(before, op);
      forall i: nat | LastOf(modes, i) && i < |before| ensures LastOf(before, i) {}
    }
  }
}
