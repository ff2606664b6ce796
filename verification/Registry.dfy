/** core/session/session.go: the set of live sessions, counted in total and per environment. */
module Registry {
  import opened Wrappers

  datatype OpenError = TooManySessions | TooManySessionsForEnv

  /** Zero or negative limits mean unlimited. */
  datatype Limits = Limits(maxTotal: int, maxPerEnv: int)

  /** byID maps a session id to its environment; seqNo is a uint64. */
  datatype Registry = Registry(byID: map<string, string>, perEnv: map<string, nat>, seqNo: nat)

  datatype Opened = Opened(registry: Registry, id: string, first: bool)

  const EMPTY := Registry(map[], map[], 0)
  const WRAP: nat := 0x1_0000_0000_0000_0000

  // ---------------------------------------------------------------- ids

  function Decimal(n: nat): string {
    if n < 10 then [Digit(n)] else Decimal(n / 10) + [Digit(n % 10)]
  }

  function Digit(d: nat): char
    requires d < 10
  {
    "0123456789"[d]
  }

  function DigitValue(c: char): nat {
    if '0' <= c <= '9' then (c as int) - ('0' as int) else 0
  }

  function Value(s: string): nat {
    if s == "" then 0 else 10 * Value(s[..|s| - 1]) + DigitValue(s[|s| - 1])
  }

  lemma {:induction false} DecimalReadsBack(n: nat)
    ensures Value(Decimal(n)) == n
  {
    if n < 10 {
      assert [Digit(n)][..0] == "";
    } else {
      DecimalReadsBack(n / 10);
      assert (Decimal(n / 10) + [Digit(n % 10)])[..|Decimal(n / 10)|] == Decimal(n / 10);
    }
  }

  /** fmt.Sprintf("s%d", n) */
  function Id(n: nat): string {
    "s" + Decimal(n)
  }

  lemma IdsDiffer(m: nat, n: nat)
    requires m != n
    ensures Id(m) != Id(n)
  {
    DecimalReadsBack(m);
    DecimalReadsBack(n);
    assert Id(m)[1..] == Decimal(m) && Id(n)[1..] == Decimal(n);
  }

  // ---------------------------------------------------------------- sections under Manager.mu

  function CountFor(r: Registry, env: string): nat {
    if env in r.perEnv then r.perEnv[env] else 0
  }

  function Open(r: Registry, limits: Limits, env: string): Result<Opened, OpenError> {
    if limits.maxTotal > 0 && |r.byID| >= limits.maxTotal then Err(TooManySessions)
    else if limits.maxPerEnv > 0 && CountFor(r, env) >= limits.maxPerEnv then Err(TooManySessionsForEnv)
    else
      var seqNo := (r.seqNo + 1) % WRAP;
      var r' := Add(r.(seqNo := seqNo), Id(seqNo), env);
      Ok(Opened(r', Id(seqNo), CountFor(r', env) == 1))
  }

  lemma {:induction false} DecimalSpelled(n: nat)
    ensures Decimal(n) != "" && (forall i :: 0 <= i < |Decimal(n)| ==> '0' <= Decimal(n)[i] <= '9')
    ensures n > 0 ==> Decimal(n)[0] != '0'
  {
    DigitSpelled(n % 10);
    if n >= 10 {
      DecimalSpelled(n / 10);
    }
  }

  lemma DigitSpelled(d: nat)
    requires d < 10
    ensures Digit(d) as int == 48 + d
  {}

  /** An id is the letter s and the number in decimal digits, without leading zeros. */
  lemma IdSpelled(n: nat)
    ensures |Id(n)| > 1 && Id(n)[0] == 's' && Value(Id(n)[1..]) == n
    ensures forall i :: 1 <= i < |Id(n)| ==> '0' <= Id(n)[i] <= '9'
    ensures n > 0 ==> Id(n)[1] != '0'
  {
    DecimalReadsBack(n);
    DecimalSpelled(n);
    assert Id(n)[1..] == Decimal(n);
  }

  /** Before the sixty-four-bit counter wraps, the n-th session opened gets the id of n. */
  lemma OpenAssignsNextId(r: Registry, limits: Limits, env: string)
    requires Open(r, limits, env).Ok? && r.seqNo + 1 < 0x1_0000_0000_0000_0000
    ensures var o := Open(r, limits, env).value;
            o.id == Id(r.seqNo + 1) && o.registry.byID == r.byID[o.id := env] && o.registry.seqNo == r.seqNo + 1
  {}

  function Add(r: Registry, id: string, env: string): Registry {
    r.(byID := r.byID[id := env], perEnv := r.perEnv[env := CountFor(r, env) + 1])
  }

  /** The locked part of Close: unregister, count down, and tell whether it was the last one. */
  function Remove(r: Registry, id: string, env: string): (Registry, bool) {
    var n := CountFor(r, env);
    var r' := Registry(r.byID - {id}, if n <= 1 then r.perEnv - {env} else r.perEnv[env := n - 1], r.seqNo);
    (r', CountFor(r', env) == 0)
  }

  // ---------------------------------------------------------------- the sections as the code has them

  class Session {
    const id: string
    const env: string
    var closed: bool

    constructor (id: string, env: string)
      ensures this.id == id && this.env == env && !closed
    {
      this.id, this.env, closed := id, env, false;
    }

    /** atomic.Bool.CompareAndSwap(false, true) */
    method CompareAndSwap() returns (won: bool)
      modifies this
      ensures closed && won == !old(closed)
    {
      won := !closed;
      closed := true;
    }
  }

  class Manager {
    var byID: map<string, Session>
    var perEnv: map<string, nat>
    var seqNo: nat
    const limits: Limits

    constructor (limits: Limits)
      ensures View() == EMPTY && this.limits == limits
    {
      byID, perEnv, seqNo := map[], map[], 0;
      this.limits := limits;
    }

    ghost function Live(): map<string, string>
      reads this
    {
      map id | id in byID :: byID[id].env
    }

    ghost function View(): Registry
      reads this
    {
      Registry(Live(), perEnv, seqNo)
    }

    /** The two limits, checked under the lock that Open then goes on holding. */
    method Admit(env: string) returns (refusal: Option<OpenError>)
      ensures refusal.Some? ==> Open(View(), limits, env) == Err(refusal.value)
      ensures refusal.None? ==> Open(View(), limits, env).Ok?
    {
      SameSize(byID, Live());
      if limits.maxTotal > 0 && |byID| >= limits.maxTotal {
        return Some(TooManySessions);
      }
      if limits.maxPerEnv > 0 && (if env in perEnv then perEnv[env] else 0) >= limits.maxPerEnv {
        return Some(TooManySessionsForEnv);
      }
      return None;
    }

    method OpenSession(env: string) returns (r: Result<Session, OpenError>, first: bool)
      modifies this
      ensures r.Err? ==> Open(old(View()), limits, env) == Err(r.error) && View() == old(View())
      ensures r.Ok? ==> fresh(r.value) && !r.value.closed && r.value.env == env
      ensures r.Ok? ==> Open(old(View()), limits, env) == Ok(Opened(View(), r.value.id, first))
    {
      var refusal := Admit(env);
      if refusal.Some? {
        return Err(refusal.value), false;
      }
      seqNo := (seqNo + 1) % WRAP;
      assert View() == old(View()).(seqNo := seqNo);
      var s := Register(Id(seqNo), env);
      first := perEnv[env] == 1;
      r := Ok(s);
    }

    method Register(id: string, env: string) returns (s: Session)
      modifies this
      ensures fresh(s) && !s.closed && s.env == env && s.id == id
      ensures View() == Add(old(View()), id, env)
      ensures byID == old(byID)[id := s]
    {
      s := new Session(id, env);
      byID := byID[id := s];
      perEnv := perEnv[env := (if env in perEnv then perEnv[env] else 0) + 1];
      assert Live() == old(Live())[id := env];
    }

    method Close(s: Session) returns (last: bool)
      modifies this, s
      ensures s.closed
      ensures old(s.closed) ==> View() == old(View()) && !last
      ensures !old(s.closed) ==> (View(), last) == Remove(old(View()), s.id, s.env)
    {
      var won := s.CompareAndSwap();
      if !won {
        return false;
      }
      byID := byID - {s.id};
      var n := if s.env in perEnv then perEnv[s.env] else 0;
      if n <= 1 {
        perEnv := perEnv - {s.env};
      } else {
        perEnv := perEnv[s.env := n - 1];
      }
      last := (if s.env in perEnv then perEnv[s.env] else 0) == 0;
      assert Live() == old(Live()) - {s.id};
    }
  }

  lemma SameSize<K, V, W>(a: map<K, V>, b: map<K, W>)
    requires a.Keys == b.Keys
    ensures |a| == |b|
  {
    assert |a| == |a.Keys| && |b| == |b.Keys|;
  }

  // ---------------------------------------------------------------- agreement

  ghost function SessionsOf(r: Registry, env: string): set<string> {
    set id | id in r.byID && r.byID[id] == env
  }

  ghost function Sum(m: map<string, nat>): nat {
    if m == map[] then 0 else
      var k :| k in m;
      m[k] + Sum(m - {k})
  }

  /** The per-environment counters are exact, no empty entry lingers, and the limits hold. */
  ghost predicate Agrees(r: Registry, limits: Limits) {
    && (forall env :: CountFor(r, env) == |SessionsOf(r, env)|)
    && (forall env :: env in r.perEnv ==> r.perEnv[env] > 0)
    && Sum(r.perEnv) == |r.byID|
    && (limits.maxTotal > 0 ==> |r.byID| <= limits.maxTotal)
    && (limits.maxPerEnv > 0 ==> forall env :: CountFor(r, env) <= limits.maxPerEnv)
  }

  lemma {:induction false} SumWithout(m: map<string, nat>, k: string)
    requires k in m
    ensures Sum(m) == m[k] + Sum(m - {k})
    decreases |m|
  {
    var j :| j in m && Sum(m) == m[j] + Sum(m - {j});
    if j != k {
      SumWithout(m - {j}, k);
      SumWithout(m - {k}, j);
      assert m - {j} - {k} == m - {k} - {j};
    }
  }

  lemma SumUpdate(m: map<string, nat>, k: string, v: nat)
    ensures Sum(m[k := v]) == Sum(m) + v - (if k in m then m[k] else 0)
  {
    var m' := m[k := v];
    SumWithout(m', k);
    if k in m {
      SumWithout(m, k);
      assert m' - {k} == m - {k};
    } else {
      assert m' - {k} == m;
    }
  }

  lemma AddCounts(r: Registry, id: string, env: string, e: string)
    requires CountFor(r, e) == |SessionsOf(r, e)| && id !in r.byID
    ensures CountFor(Add(r, id, env), e) == |SessionsOf(Add(r, id, env), e)|
  {
    var r' := Add(r, id, env);
    assert id !in SessionsOf(r, e);
    assert SessionsOf(r', e) == if e == env then SessionsOf(r, e) + {id} else SessionsOf(r, e);
  }

  lemma AddAgrees(r: Registry, limits: Limits, id: string, env: string)
    requires Agrees(r, limits) && id !in r.byID
    requires limits.maxTotal > 0 ==> |r.byID| < limits.maxTotal
    requires limits.maxPerEnv > 0 ==> CountFor(r, env) < limits.maxPerEnv
    ensures Agrees(Add(r, id, env), limits)
  {
    var r' := Add(r, id, env);
    SumUpdate(r.perEnv, env, CountFor(r, env) + 1);
    assert r'.byID.Keys == r.byID.Keys + {id};
    forall e ensures CountFor(r', e) == |SessionsOf(r', e)| {
      AddCounts(r, id, env, e);
    }
    forall e | limits.maxPerEnv > 0 ensures CountFor(r', e) <= limits.maxPerEnv {
      assert CountFor(r', e) == if e == env then CountFor(r, e) + 1 else CountFor(r, e);
    }
  }

  lemma SeqNoIsFree(r: Registry, limits: Limits, seqNo: nat)
    requires Agrees(r, limits)
    ensures Agrees(r.(seqNo := seqNo), limits)
  {
    var r' := r.(seqNo := seqNo);
    forall e ensures CountFor(r', e) == |SessionsOf(r', e)| {
      assert SessionsOf(r', e) == SessionsOf(r, e) && CountFor(r', e) == CountFor(r, e);
    }
    assert forall e :: CountFor(r', e) == CountFor(r, e);
  }

  lemma OpenAgrees(r: Registry, limits: Limits, env: string)
    requires Agrees(r, limits) && Open(r, limits, env).Ok? && Open(r, limits, env).value.id !in r.byID
    ensures Agrees(Open(r, limits, env).value.registry, limits)
    ensures Open(r, limits, env).value.first <==> SessionsOf(r, env) == {}
  {
    var o := Open(r, limits, env).value;
    SeqNoIsFree(r, limits, o.registry.seqNo);
    AddAgrees(r.(seqNo := o.registry.seqNo), limits, o.id, env);
    assert CountFor(r, env) == |SessionsOf(r, env)|;
    assert |SessionsOf(r, env)| == 0 <==> SessionsOf(r, env) == {};
  }

  lemma RemoveAgrees(r: Registry, limits: Limits, id: string, env: string)
    requires Agrees(r, limits) && id in r.byID && r.byID[id] == env
    ensures Agrees(Remove(r, id, env).0, limits)
    ensures Remove(r, id, env).0.byID == r.byID - {id} && Remove(r, id, env).0.seqNo == r.seqNo
    ensures Remove(r, id, env).1 <==> SessionsOf(Remove(r, id, env).0, env) == {}
  {
    var (r', last) := Remove(r, id, env);
    assert id in SessionsOf(r, env);
    assert |SessionsOf(r, env)| > 0;
    var n := CountFor(r, env);
    if n == 1 {
      SumWithout(r.perEnv, env);
    } else {
      SumUpdate(r.perEnv, env, n - 1);
    }
    assert r'.byID.Keys == r.byID.Keys - {id};
    forall e ensures CountFor(r', e) == |SessionsOf(r', e)| {
      assert SessionsOf(r', e) == if e == env then SessionsOf(r, e) - {id} else SessionsOf(r, e);
    }
    assert forall e :: e != env ==> CountFor(r', e) == CountFor(r, e);
    assert |SessionsOf(r', env)| == 0 <==> SessionsOf(r', env) == {};
  }

  /** Open refuses exactly when one more session would break a positive limit; when both would break
      it is the total that is reported. */
  lemma RefusesExactly(r: Registry, limits: Limits, env: string)
    requires Agrees(r, limits)
    ensures Open(r, limits, env) == Err(TooManySessions) <==> limits.maxTotal > 0 && |r.byID| == limits.maxTotal
    ensures Open(r, limits, env) == Err(TooManySessionsForEnv) <==>
      && limits.maxPerEnv > 0 && |SessionsOf(r, env)| == limits.maxPerEnv
      && !(limits.maxTotal > 0 && |r.byID| == limits.maxTotal)
  {
    assert CountFor(r, env) == |SessionsOf(r, env)|;
  }
}
