/** core/logging/redact.go: registered secrets are replaced one after another, so a later
    replacement works on text that already carries the placeholders of earlier ones. */
module Redactor {
  import opened Substrings

  /** Go strings are byte sequences; the length limit below counts bytes. */
  newtype byte = x: int | 0 <= x < 0x100

  const STAR: byte := 42
  const MASK: seq<byte> := [STAR, STAR, STAR]
  const MIN_REDACT_LEN := 8

  /** The placeholder can fuse with neighbouring text into this secret. */
  ghost predicate Fusible(w: seq<byte>)
    requires w != []
  {
    w[0] == STAR || w[|w| - 1] == STAR || Contains(w, MASK)
  }

  ghost predicate NonEmpty(secrets: seq<seq<byte>>) {
    forall i :: 0 <= i < |secrets| ==> secrets[i] != []
  }

  ghost predicate NoneFusible(secrets: seq<seq<byte>>) {
    forall i :: 0 <= i < |secrets| ==> secrets[i] != [] && !Fusible(secrets[i])
  }

  /** What Redact computes: each secret in turn, in registration order. */
  function RedactWith(secrets: seq<seq<byte>>, s: seq<byte>): seq<byte>
    requires NonEmpty(secrets)
  {
    if secrets == [] then s
    else RedactWith(secrets[1..], ReplaceAll(s, secrets[0], MASK))
  }

  /** The secrets registered after offering `offered`, in order: long enough and not yet known. */
  function Registered(secrets: seq<seq<byte>>, offered: seq<seq<byte>>): seq<seq<byte>>
    decreases |offered|
  {
    if offered == [] then secrets
    else if |offered[0]| < MIN_REDACT_LEN || offered[0] in secrets then Registered(secrets, offered[1..])
    else Registered(secrets + [offered[0]], offered[1..])
  }

  ghost predicate Registry(secrets: seq<seq<byte>>) {
    && (forall i :: 0 <= i < |secrets| ==> |secrets[i]| >= MIN_REDACT_LEN)
    && (forall i, j :: 0 <= i < j < |secrets| ==> secrets[i] != secrets[j])
  }

  class Redactor {
    var secrets: seq<seq<byte>>

    constructor ()
      ensures secrets == []
    {
      secrets := [];
    }

    method Has(s: seq<byte>) returns (known: bool)
      ensures known <==> s in secrets
    {
      for i := 0 to |secrets|
        invariant s !in secrets[..i]
      {
        if secrets[i] == s { return true; }
      }
      return false;
    }

    method Add(offered: seq<seq<byte>>)
      modifies this
      ensures secrets == Registered(old(secrets), offered)
    {
      for i := 0 to |offered|
        invariant Registered(secrets, offered[i..]) == Registered(old(secrets), offered)
      {
        if |offered[i]| < MIN_REDACT_LEN { continue; }
        var known := Has(offered[i]);
        if known { continue; }
        secrets := secrets + [offered[i]];
      }
    }

    method Redact(text: seq<byte>) returns (s: seq<byte>)
      requires Registry(secrets)
      ensures s == RedactWith(secrets, text)
    {
      s := text;
      if text == [] {
        EmptyStaysEmpty(secrets);
        return;
      }
      for i := 0 to |secrets|
        invariant RedactWith(secrets[i..], s) == RedactWith(secrets, text)
      {
        if Index(s, secrets[i]) >= 0 {
          s := ReplaceAll(s, secrets[i], MASK);
        }
      }
    }
  }

  lemma {:induction false} EmptyStaysEmpty(secrets: seq<seq<byte>>)
    requires NonEmpty(secrets)
    ensures RedactWith(secrets, []) == []
  {
    if secrets != [] {
      EmptyStaysEmpty(secrets[1..]);
    }
  }

  /** Registering keeps the store duplicate-free, keeps what was there in place, and adds
      exactly the offered secrets that are long enough. */
  lemma {:induction false} RegisteredIsRegistry(secrets: seq<seq<byte>>, offered: seq<seq<byte>>)
    requires Registry(secrets)
    ensures Registry(Registered(secrets, offered))
    ensures secrets <= Registered(secrets, offered)
    ensures forall w :: w in Registered(secrets, offered) <==> w in secrets || (w in offered && |w| >= 8)
    decreases |offered|
  {
    if offered != [] {
      if |offered[0]| < MIN_REDACT_LEN || offered[0] in secrets {
        RegisteredIsRegistry(secrets, offered[1..]);
      } else {
        RegisteredIsRegistry(secrets + [offered[0]], offered[1..]);
      }
    }
  }

  /** Secrets are kept in the order they were offered in. */
  lemma {:induction false} RegisteredInOrder(secrets: seq<seq<byte>>, offered: seq<seq<byte>>, w: seq<byte>)
    ensures var known := Registered(secrets, offered);
            Registered(secrets, offered + [w]) == if |w| < 8 || w in known then known else known + [w]
    decreases |offered|
  {
    if offered == [] {
      assert [] + [w] == [w] && [w][1..] == [];
    } else {
      assert (offered + [w])[1..] == offered[1..] + [w];
      if |offered[0]| < MIN_REDACT_LEN || offered[0] in secrets {
        RegisteredInOrder(secrets, offered[1..], w);
      } else {
        RegisteredInOrder(secrets + [offered[0]], offered[1..], w);
      }
    }
  }

  // ---------------------------------------------------------------- one replacement

  lemma ThreeStars(w: seq<byte>, k: nat)
    requires k + 3 <= |w| && w[k] == w[k + 1] == w[k + 2] == STAR
    ensures At(w, MASK, k)
  {}

  /** An occurrence of a secret that the placeholder cannot fuse with lies before it or behind it. */
  lemma Beside(x: seq<byte>, y: seq<byte>, w: seq<byte>, i: int)
    requires w != [] && At(x + MASK + y, w, i)
    ensures (i + |w| <= |x| && At(x, w, i)) || (i >= |x| + 3 && At(y, w, i - |x| - 3)) || Fusible(w)
  {
    var t := x + MASK + y;
    if i + |w| <= |x| {
      AtConcat(x, MASK + y, w, i);
      assert t == x + (MASK + y);
    } else if i >= |x| + 3 {
      AtConcat(x + MASK, y, w, i);
    } else if i < |x| && i + |w| > |x| + 3 {
      AtElement(t, w, i, |x|);
      AtElement(t, w, i, |x| + 1);
      AtElement(t, w, i, |x| + 2);
      ThreeStars(w, |x| - i);
    } else {
      AtElement(t, w, i, i);
      AtElement(t, w, i, i + |w| - 1);
    }
  }

  /** A secret the placeholder cannot fuse with never straddles a placeholder. */
  lemma NoStraddle(x: seq<byte>, y: seq<byte>, w: seq<byte>)
    requires w != [] && Contains(x + MASK + y, w)
    ensures Contains(x, w) || Contains(y, w) || Fusible(w)
  {
    var i :| At(x + MASK + y, w, i);
    Beside(x, y, w, i);
  }

  /** Text on either side of a replaced secret is text of the whole. */
  lemma PiecesInside(head: seq<byte>, secret: seq<byte>, tail: seq<byte>, w: seq<byte>)
    ensures Contains(head, w) || Contains(tail, w) ==> Contains(head + secret + tail, w)
  {
    var s := head + secret + tail;
    assert s == head + (secret + tail);
    forall j | At(head, w, j) ensures At(s, w, j) { AtConcat(head, secret + tail, w, j); }
    forall j | At(tail, w, j) ensures At(s, w, j + |head| + |secret|) {
      AtConcat(head + secret, tail, w, j + |head| + |secret|);
    }
  }

  lemma NotBeforeFirst(s: seq<byte>, w: seq<byte>)
    requires Index(s, w) >= 0
    ensures w != [] ==> !Contains(s[..Index(s, w)], w)
  {
    var i := Index(s, w);
    forall j | w != [] ensures !At(s[..i], w, j) {
      AtConcat(s[..i], s[i..], w, j);
      assert s[..i] + s[i..] == s;
    }
  }

  lemma {:induction false} ReplaceCreatesNothing(s: seq<byte>, secret: seq<byte>, w: seq<byte>)
    requires secret != [] && w != [] && !Fusible(w)
    ensures Contains(ReplaceAll(s, secret, MASK), w) ==> Contains(s, w)
    decreases |s|
  {
    var i := Index(s, secret);
    if i >= 0 {
      var head, tail := s[..i], s[i + |secret|..];
      ReplaceCreatesNothing(tail, secret, w);
      assert s == head + secret + tail;
      PiecesInside(head, secret, tail, w);
      if Contains(ReplaceAll(s, secret, MASK), w) {
        NoStraddle(head, ReplaceAll(tail, secret, MASK), w);
      }
    }
  }

  lemma {:induction false} ReplaceRemoves(s: seq<byte>, w: seq<byte>)
    requires w != [] && !Fusible(w)
    ensures !Contains(ReplaceAll(s, w, MASK), w)
    decreases |s|
  {
    var i := Index(s, w);
    if i >= 0 {
      var tail := s[i + |w|..];
      ReplaceRemoves(tail, w);
      NotBeforeFirst(s, w);
      if Contains(ReplaceAll(s, w, MASK), w) {
        NoStraddle(s[..i], ReplaceAll(tail, w, MASK), w);
      }
    }
  }

  /** Replacing a secret creates no occurrence of any other secret, and removes its own. */
  lemma ReplaceIsClean(s: seq<byte>, secret: seq<byte>, w: seq<byte>)
    requires secret != [] && w != [] && !Fusible(w)
    ensures Contains(ReplaceAll(s, secret, MASK), w) ==> Contains(s, w)
    ensures w == secret ==> !Contains(ReplaceAll(s, secret, MASK), w)
  {
    ReplaceCreatesNothing(s, secret, w);
    ReplaceRemoves(s, w);
  }

  // ---------------------------------------------------------------- the whole pass

  /** The pass creates no secret the text did not already contain. */
  lemma {:induction false} PassCreatesNothing(secrets: seq<seq<byte>>, s: seq<byte>, w: seq<byte>)
    requires NonEmpty(secrets)
    requires w != [] && !Fusible(w) && !Contains(s, w)
    ensures !Contains(RedactWith(secrets, s), w)
  {
    if secrets != [] {
      ReplaceIsClean(s, secrets[0], w);
      PassCreatesNothing(secrets[1..], ReplaceAll(s, secrets[0], MASK), w);
    }
  }

  /** A registered secret that the placeholder cannot fuse with is no substring of the output,
      whatever the text, the other secrets and their order. */
  lemma {:induction false} OutputHoldsNoSecret(secrets: seq<seq<byte>>, s: seq<byte>, w: seq<byte>)
    requires NonEmpty(secrets) && w in secrets && !Fusible(w)
    ensures !Contains(RedactWith(secrets, s), w)
  {
    var s' := ReplaceAll(s, secrets[0], MASK);
    if secrets[0] == w {
      ReplaceIsClean(s, w, w);
      PassCreatesNothing(secrets[1..], s', w);
    } else {
      OutputHoldsNoSecret(secrets[1..], s', w);
    }
  }

  lemma OutputHoldsNone(secrets: seq<seq<byte>>, s: seq<byte>)
    requires NoneFusible(secrets)
    ensures forall w :: w in secrets ==> !Contains(RedactWith(secrets, s), w)
  {
    forall w | w in secrets ensures !Contains(RedactWith(secrets, s), w) {
      OutputHoldsNoSecret(secrets, s, w);
    }
  }

  /** Text without any registered secret passes through byte for byte. */
  lemma {:induction false} CleanTextUnchanged(secrets: seq<seq<byte>>, s: seq<byte>)
    requires forall i :: 0 <= i < |secrets| ==> secrets[i] != [] && !Contains(s, secrets[i])
    ensures RedactWith(secrets, s) == s
  {
    if secrets != [] {
      CleanTextUnchanged(secrets[1..], s);
    }
  }

  lemma RedactIdempotent(secrets: seq<seq<byte>>, s: seq<byte>)
    requires NoneFusible(secrets)
    ensures RedactWith(secrets, RedactWith(secrets, s)) == RedactWith(secrets, s)
  {
    OutputHoldsNone(secrets, s);
    CleanTextUnchanged(secrets, RedactWith(secrets, s));
  }

  lemma FusibleHasStar(w: seq<byte>)
    requires w != []
    ensures Fusible(w) ==> STAR in w
  {
    if Contains(w, MASK) {
      var i :| At(w, MASK, i);
      AtElement(w, MASK, i, i);
    }
  }

  /** The documented case: with no `*` in any secret, for every text and registration order. */
  lemma StarFreeSecretsNeverLeak(secrets: seq<seq<byte>>, s: seq<byte>)
    requires forall i :: 0 <= i < |secrets| ==> secrets[i] != [] && STAR !in secrets[i]
    ensures forall w :: w in secrets ==> !Contains(RedactWith(secrets, s), w)
    ensures RedactWith(secrets, RedactWith(secrets, s)) == RedactWith(secrets, s)
  {
    forall i | 0 <= i < |secrets| ensures !Fusible(secrets[i]) { FusibleHasStar(secrets[i]); }
    OutputHoldsNone(secrets, s);
    RedactIdempotent(secrets, s);
  }

  // ---------------------------------------------------------------- what is hidden, and nothing else

  /** A text cut into pieces that are shown and secrets that are hidden. */
  datatype Cut = Last(shown: seq<byte>) | Hide(shown: seq<byte>, secret: seq<byte>, rest: Cut)

  function Original(c: Cut): seq<byte> {
    match c
    case Last(shown) => shown
    case Hide(shown, secret, rest) => shown + secret + Original(rest)
  }

  function Shown(c: Cut): seq<byte> {
    match c
    case Last(shown) => shown
    case Hide(shown, _, rest) => shown + [42, 42, 42] + Shown(rest)
  }

  predicate HidesOnly(c: Cut, secrets: seq<seq<byte>>) {
    match c
    case Last(_) => true
    case Hide(_, secret, rest) => secret in secrets && HidesOnly(rest, secrets)
  }

  /** The cuts one replacement makes. */
  function CutOut(t: seq<byte>, w: seq<byte>): Cut
    requires w != []
    decreases |t|
  {
    var i := Index(t, w);
    if i < 0 then Last(t) else Hide(t[..i], w, CutOut(t[i + |w|..], w))
  }

  lemma ReplaceFirst(head: seq<byte>, w: seq<byte>, tail: seq<byte>)
    requires w != [] && Index(head + w + tail, w) == |head|
    ensures ReplaceAll(head + w + tail, w, MASK) == head + MASK + ReplaceAll(tail, w, MASK)
  {
    var t := head + w + tail;
    assert t[..|head|] == head && t[|head| + |w|..] == tail;
  }

  lemma Regrouped(a: seq<byte>, b: seq<byte>, c: seq<byte>)
    ensures a + (b + MASK + c) == a + b + MASK + c
  {}

  lemma RegroupedBehind(x: seq<byte>, head: seq<byte>, w: seq<byte>, tail: seq<byte>)
    ensures x + MASK + (head + w + tail) == x + MASK + head + w + tail
  {}

  lemma {:induction false} CutOutIs(t: seq<byte>, w: seq<byte>, secrets: seq<seq<byte>>)
    requires w != [] && w in secrets
    ensures Original(CutOut(t, w)) == t && Shown(CutOut(t, w)) == ReplaceAll(t, w, MASK)
    ensures HidesOnly(CutOut(t, w), secrets)
    decreases |t|
  {
    var i := Index(t, w);
    if i >= 0 {
      var head, tail := t[..i], t[i + |w|..];
      assert t == head + w + tail;
      CutOutIs(tail, w, secrets);
      ReplaceFirst(head, w, tail);
    }
  }

  /** One cut text after another, with a hidden secret in between. */
  function Chain(a: Cut, secret: seq<byte>, b: Cut): Cut {
    match a
    case Last(shown) => Hide(shown, secret, b)
    case Hide(shown, other, rest) => Hide(shown, other, Chain(rest, secret, b))
  }

  lemma {:induction false} ChainIs(a: Cut, secret: seq<byte>, b: Cut, secrets: seq<seq<byte>>)
    ensures Original(Chain(a, secret, b)) == Original(a) + secret + Original(b)
    ensures Shown(Chain(a, secret, b)) == Shown(a) + MASK + Shown(b)
    ensures HidesOnly(a, secrets) && secret in secrets && HidesOnly(b, secrets) ==>
              HidesOnly(Chain(a, secret, b), secrets)
  {
    if a.Hide? {
      ChainIs(a.rest, secret, b, secrets);
    }
  }

  /** One more replacement on a text that already has placeholders. */
  function CutMore(c: Cut, w: seq<byte>): Cut
    requires w != []
  {
    match c
    case Last(shown) => CutOut(shown, w)
    case Hide(shown, secret, rest) => Chain(CutOut(shown, w), secret, CutMore(rest, w))
  }

  lemma FirstIsInFront(x: seq<byte>, y: seq<byte>, w: seq<byte>)
    requires w != [] && !Fusible(w) && Contains(x, w)
    ensures Index(x + MASK + y, w) == Index(x, w)
  {
    var t, i := x + MASK + y, Index(x, w);
    assert t == x + (MASK + y);
    AtConcat(x, MASK + y, w, i);
    forall j | At(t, w, j) ensures j >= i {
      if j < i {
        AtConcat(x, MASK + y, w, j);
      }
    }
  }

  lemma FirstIsBehind(x: seq<byte>, y: seq<byte>, w: seq<byte>)
    requires w != [] && !Fusible(w) && !Contains(x, w)
    ensures Index(x + MASK + y, w) == if Contains(y, w) then |x| + 3 + Index(y, w) else -1
  {
    var t := x + MASK + y;
    forall j | At(t, w, j) ensures j >= |x| + 3 && At(y, w, j - |x| - 3) {
      Beside(x, y, w, j);
    }
    if Contains(y, w) {
      AtConcat(x + MASK, y, w, |x| + 3 + Index(y, w));
    }
  }

  lemma AcrossFront(x: seq<byte>, head: seq<byte>, tail: seq<byte>, y: seq<byte>, w: seq<byte>)
    requires w != [] && x == head + w + tail && Index(x, w) == Index(x + MASK + y, w) == |head|
    requires ReplaceAll(tail + MASK + y, w, MASK) == ReplaceAll(tail, w, MASK) + MASK + ReplaceAll(y, w, MASK)
    ensures ReplaceAll(x + MASK + y, w, MASK) == ReplaceAll(x, w, MASK) + MASK + ReplaceAll(y, w, MASK)
  {
    Regrouped(head + w, tail, y);
    ReplaceFirst(head, w, tail);
    ReplaceFirst(head, w, tail + MASK + y);
    Regrouped(head + MASK, ReplaceAll(tail, w, MASK), ReplaceAll(y, w, MASK));
  }

  lemma AcrossBehind(x: seq<byte>, y: seq<byte>, head: seq<byte>, tail: seq<byte>, w: seq<byte>)
    requires w != [] && Index(x, w) == -1 && y == head + w + tail
    requires Index(y, w) == |head| && Index(x + MASK + y, w) == |x| + 3 + |head|
    ensures ReplaceAll(x + MASK + y, w, MASK) == ReplaceAll(x, w, MASK) + MASK + ReplaceAll(y, w, MASK)
  {
    ReplaceFirst(head, w, tail);
    RegroupedBehind(x, head, w, tail);
    ReplaceFirst(x + MASK + head, w, tail);
    RegroupedBehind(x, head, MASK, ReplaceAll(tail, w, MASK));
    assert ReplaceAll(x, w, MASK) == x;
  }

  lemma SplitFirst(t: seq<byte>, w: seq<byte>) returns (head: seq<byte>, tail: seq<byte>)
    requires Contains(t, w)
    ensures t == head + w + tail && Index(t, w) == |head|
  {
    head, tail := t[..Index(t, w)], t[Index(t, w) + |w|..];
  }

  /** Replacement works on both sides of a placeholder separately. */
  lemma {:induction false} ReplaceAcross(x: seq<byte>, y: seq<byte>, w: seq<byte>)
    requires w != [] && !Fusible(w)
    ensures ReplaceAll(x + MASK + y, w, MASK) == ReplaceAll(x, w, MASK) + MASK + ReplaceAll(y, w, MASK)
    decreases |x|
  {
    if Contains(x, w) {
      var head, tail := SplitFirst(x, w);
      FirstIsInFront(x, y, w);
      ReplaceAcross(tail, y, w);
      AcrossFront(x, head, tail, y, w);
    } else {
      FirstIsBehind(x, y, w);
      if Contains(y, w) {
        var head, tail := SplitFirst(y, w);
        AcrossBehind(x, y, head, tail, w);
      }
    }
  }

  lemma {:induction false} CutMoreIs(c: Cut, w: seq<byte>, secrets: seq<seq<byte>>)
    requires w != [] && !Fusible(w) && w in secrets && HidesOnly(c, secrets)
    ensures Original(CutMore(c, w)) == Original(c) && Shown(CutMore(c, w)) == ReplaceAll(Shown(c), w, MASK)
    ensures HidesOnly(CutMore(c, w), secrets)
  {
    match c
    case Last(shown) => CutOutIs(shown, w, secrets);
    case Hide(shown, secret, rest) =>
      CutOutIs(shown, w, secrets);
      CutMoreIs(rest, w, secrets);
      ChainIs(CutOut(shown, w), secret, CutMore(rest, w), secrets);
      ReplaceAcross(shown, Shown(rest), w);
  }

  /** Redact hides registered secrets and nothing else: the text can be cut so that everything shown
      is kept in place, and every placeholder stands for one occurrence of a registered secret. The
      secret replaced first sees no placeholder and may be any. */
  lemma RedactHidesOnlySecrets(secrets: seq<seq<byte>>, s: seq<byte>)
    requires NonEmpty(secrets) && (secrets != [] ==> NoneFusible(secrets[1..]))
    ensures exists c :: Original(c) == s && Shown(c) == RedactWith(secrets, s) && HidesOnly(c, secrets)
  {
    if secrets == [] {
      assert Original(Last(s)) == s && Shown(Last(s)) == RedactWith(secrets, s) && HidesOnly(Last(s), secrets);
    } else {
      CutOutIs(s, secrets[0], secrets);
      var c := CutAll(secrets[1..], CutOut(s, secrets[0]), secrets);
    }
  }

  lemma {:induction false} CutAll(todo: seq<seq<byte>>, c: Cut, secrets: seq<seq<byte>>) returns (c': Cut)
    requires NoneFusible(todo) && HidesOnly(c, secrets) && forall w :: w in todo ==> w in secrets
    ensures Original(c') == Original(c) && Shown(c') == RedactWith(todo, Shown(c)) && HidesOnly(c', secrets)
  {
    if todo == [] {
      return c;
    }
    CutMoreIs(c, todo[0], secrets);
    c' := CutAll(todo[1..], CutMore(c, todo[0]), secrets);
  }

  // ---------------------------------------------------------------- exactly which secrets

  /** With the first match at |a| and too little text after it for another. */
  lemma OneReplacement(a: seq<byte>, w: seq<byte>, b: seq<byte>)
    requires w != [] && |b| < |w|
    requires forall j :: At(a + w + b, w, j) ==> j >= |a|
    ensures ReplaceAll(a + w + b, w, MASK) == a + MASK + b
  {
    var t := a + w + b;
    assert t[|a|..|a| + |w|] == w;
    assert At(t, w, |a|);
    assert t[..|a|] == a && t[|a| + |w|..] == b;
    assert ReplaceAll(b, w, MASK) == b;
  }

  ghost predicate Leaks(w: seq<byte>, t: seq<byte>)
    requires w != []
  {
    Contains(RedactWith([w], t), w)
  }

  lemma RedactOne(w: seq<byte>, t: seq<byte>)
    requires w != []
    ensures RedactWith([w], t) == ReplaceAll(t, w, MASK)
  {
    assert [w][1..] == [];
  }

  lemma LeakAtStart(w: seq<byte>) returns (t: seq<byte>)
    requires w != [] && w[0] == STAR
    ensures Leaks(w, t)
  {
    t := [] + w + w[1..];
    OneReplacement([], w, w[1..]);
    RedactOne(w, t);
    var r := [] + MASK + w[1..];
    assert r[2..2 + |w|] == w;
    assert At(r, w, 2);
  }

  lemma LeakAtEnd(w: seq<byte>) returns (t: seq<byte>)
    requires w != [] && w[0] != STAR && w[|w| - 1] == STAR
    ensures Leaks(w, t)
  {
    var n := |w| - 1;
    var u := w[..n];
    t := u + w + [];
    forall j | At(t, w, j) ensures j >= n {
      AtElement(t, w, j, j);
      AtElement(t, w, j, j + n);
    }
    OneReplacement(u, w, []);
    RedactOne(w, t);
    var r := u + MASK + [];
    assert r[0..|w|] == w;
    assert At(r, w, 0);
  }

  /** A match further left would show `***` further left in the secret as well. */
  lemma MatchShowsMask(w: seq<byte>, k: nat, j: nat)
    requires At(w, MASK, k) && j < k && At(w[..k] + w, w, j)
    ensures At(w, MASK, j)
  {
    var t := w[..k] + w;
    var c := w[j..j + 3];
    forall x | 0 <= x < 3 ensures c[x] == STAR {
      AtElement(w, MASK, k, k + x);
      AtElement(t, w, j, j + k + x);
      assert c[x] == w[j + x] == t[j + k + x];
    }
    assert c == MASK;
  }

  lemma NoMatchBefore(w: seq<byte>, k: nat, b: seq<byte>, j: int)
    requires k == Index(w, MASK) && At(w[..k] + w + b, w, j) && |b| < |w|
    ensures j >= k
  {
    if 0 <= j < k {
      AtConcat(w[..k] + w, b, w, j);
      MatchShowsMask(w, k, j);
      assert false;
    }
  }

  lemma AroundMask(w: seq<byte>, k: nat)
    requires At(w, MASK, k)
    ensures w[..k] + MASK + w[k + 3..] == w
  {
    assert w[k..k + 3] == MASK;
  }

  lemma LeakInside(w: seq<byte>) returns (t: seq<byte>)
    requires w != [] && Contains(w, MASK)
    ensures Leaks(w, t)
  {
    var k := Index(w, MASK);
    var a, b := w[..k], w[k + 3..];
    t := a + w + b;
    forall j | At(t, w, j) ensures j >= k {
      NoMatchBefore(w, k, b, j);
    }
    RedactOne(w, t);
    assert ReplaceAll(t, w, MASK) == w by {
      OneReplacement(a, w, b);
      AroundMask(w, k);
    }
    assert At(w, w, 0);
  }

  /** A secret registered alone is kept out of every output exactly when it neither starts
      nor ends with `*` nor contains `***`. */
  lemma LoneSecretLeaksExactly(w: seq<byte>)
    requires w != []
    ensures Fusible(w) <==> exists t :: Leaks(w, t)
  {
    if Fusible(w) {
      var t;
      if w[0] == STAR { t := LeakAtStart(w); }
      else if w[|w| - 1] == STAR { t := LeakAtEnd(w); }
      else { t := LeakInside(w); }
      assert Leaks(w, t);
    } else {
      forall t ensures !Leaks(w, t) {
        RedactOne(w, t);
        ReplaceIsClean(t, w, w);
      }
    }
  }

  ghost predicate Hidden(secrets: seq<seq<byte>>, s: seq<byte>, w: seq<byte>) {
    NonEmpty(secrets) && w in secrets ==> !Contains(RedactWith(secrets, s), w)
  }

  /** Exactly which secrets are kept out of every output, whatever else is registered with them. */
  lemma SecretIsKeptExactly(w: seq<byte>)
    requires w != []
    ensures !Fusible(w) <==> forall secrets, s :: Hidden(secrets, s, w)
  {
    if !Fusible(w) {
      forall secrets, s ensures Hidden(secrets, s, w) {
        if NonEmpty(secrets) && w in secrets {
          OutputHoldsNoSecret(secrets, s, w);
        }
      }
    } else {
      LoneSecretLeaksExactly(w);
      var t :| Leaks(w, t);
      assert !Hidden([w], t, w);
    }
  }

  lemma {:induction false} NeverLonger(t: seq<byte>, w: seq<byte>)
    requires |w| > 3
    ensures |ReplaceAll(t, w, MASK)| <= |t| && (Contains(t, w) ==> |ReplaceAll(t, w, MASK)| < |t|)
    decreases |t|
  {
    if Contains(t, w) {
      NeverLonger(t[Index(t, w) + |w|..], w);
    }
  }

  ghost predicate Settled(w: seq<byte>, t: seq<byte>)
    requires w != []
  {
    RedactWith([w], RedactWith([w], t)) == RedactWith([w], t)
  }

  /** A secret registered alone makes redaction idempotent exactly when it is kept out of every output. */
  lemma LoneSecretSettlesExactly(w: seq<byte>)
    requires |w| >= MIN_REDACT_LEN
    ensures !Fusible(w) <==> forall t :: Settled(w, t)
  {
    if !Fusible(w) {
      forall t ensures Settled(w, t) {
        RedactIdempotent([w], t);
      }
    } else {
      LoneSecretLeaksExactly(w);
      var t :| Leaks(w, t);
      var out := RedactWith([w], t);
      RedactOne(w, out);
      NeverLonger(out, w);
      assert !Settled(w, t);
    }
  }
}
