/** core/lifecycle/connect.go: opening a session, with retries and backoff. */
module Connect {
  import opened Wrappers
  import opened Provider
  import opened Phases
  import opened WaitFor

  type Conn = nat

  /** One call of the provider's Connect: the environment asked for and the answer. */
  datatype Attempt = Attempt(id: string, reply: Result<Conn, Error>)

  datatype Fault =
    | NotReady(why: Failure)   // Ensure failed
    | Cancelled                // the caller's context ended between two attempts
    | Unreachable(error: Error)

  /** The pause before retry k + 1, in seconds. */
  function Backoff(k: nat): nat {
    if k == 0 then 1 else if Backoff(k - 1) < 15 then 2 * Backoff(k - 1) else Backoff(k - 1)
  }

  function Slept(k: nat): nat {
    if k == 0 then 0 else Slept(k - 1) + Backoff(k - 1)
  }

  /** The environment in use: that of the last Ensure that succeeded. */
  function Latest(ensured: seq<Result<Environment, Failure>>): (env: Option<Environment>)
    ensures ensured != [] && ensured[0].Ok? ==> env.Some?
  {
    if ensured == [] then None
    else if ensured[|ensured| - 1].Ok? then Some(ensured[|ensured| - 1].value)
    else Latest(ensured[..|ensured| - 1])
  }

  /** A failed Ensure leaves the environment in use alone. */
  lemma {:induction false} LatestIs(ensured: seq<Result<Environment, Failure>>, i: nat)
    requires i <= |ensured| && forall j :: i <= j < |ensured| ==> ensured[j].Err?
    ensures i == 0 ==> Latest(ensured) == None
    ensures i > 0 && ensured[i - 1].Ok? ==> Latest(ensured) == Some(ensured[i - 1].value)
    decreases |ensured|
  {
    if i < |ensured| {
      LatestIs(ensured[..|ensured| - 1], i);
    }
  }

  /** Attempt i asked for the environment in use after the first i + 1 Ensures. */
  ghost predicate AimedAt(ensured: seq<Result<Environment, Failure>>, attempt: Attempt, i: nat) {
    && i < |ensured|
    && var known := Latest(ensured[..i + 1]); known.Some? && attempt.id == known.value.id
  }

  ghost predicate Aimed(ensured: seq<Result<Environment, Failure>>, attempts: seq<Attempt>) {
    forall i :: 0 <= i < |attempts| ==> AimedAt(ensured, attempts[i], i)
  }

  lemma AimedBefore(ensured: seq<Result<Environment, Failure>>, attempts: seq<Attempt>, r: Result<Environment, Failure>)
    requires Aimed(ensured, attempts)
    ensures Aimed(ensured + [r], attempts)
  {
    var more := ensured + [r];
    forall i | 0 <= i < |attempts| ensures AimedAt(more, attempts[i], i) {
      assert AimedAt(ensured, attempts[i], i);
      assert more[..i + 1] == ensured[..i + 1];
    }
  }

  lemma AimedOnceMore(ensured: seq<Result<Environment, Failure>>, attempts: seq<Attempt>, attempt: Attempt)
    requires Aimed(ensured, attempts) && |ensured| == |attempts| + 1
    requires Latest(ensured).Some? && attempt.id == Latest(ensured).value.id
    ensures Aimed(ensured, attempts + [attempt])
  {
    assert ensured[..|attempts| + 1] == ensured;
    forall i | 0 <= i < |attempts| + 1 ensures AimedAt(ensured, (attempts + [attempt])[i], i) {
      assert i < |attempts| ==> AimedAt(ensured, attempts[i], i);
    }
  }

  class Manager {
    const handle: string
    const retries: nat
    const st: EnvState
    var seconds: nat    // spent in backoff
    ghost var ensured: seq<Result<Environment, Failure>>
    ghost var attempts: seq<Attempt>

    /** A negative number of retries means none. */
    constructor (handle: string, configured: int, st: EnvState)
      ensures this.handle == handle && this.st == st
      ensures retries == if configured < 0 then 0 else configured
      ensures seconds == 0 && ensured == [] && attempts == []
    {
      this.handle, this.st, seconds, ensured, attempts := handle, st, 0, [], [];
      retries := if configured < 0 then 0 else configured;
    }

    method Ensure() returns (r: Result<Environment, Failure>)
      requires Aimed(ensured, attempts)
      modifies this`ensured
      ensures ensured == old(ensured) + [r] && Aimed(ensured, attempts)
    {
      r := *;
      AimedBefore(ensured, attempts, r);
      ensured := ensured + [r];
    }

    /** One attempt for each Ensure, on the environment in use. */
    method ProviderConnect(id: string) returns (reply: Result<Conn, Error>)
      requires Aimed(ensured, attempts) && |ensured| == |attempts| + 1
      requires Latest(ensured).Some? && Latest(ensured).value.id == id
      modifies this`attempts
      ensures attempts == old(attempts) + [Attempt(id, reply)] && Aimed(ensured, attempts)
    {
      reply := *;
      AimedOnceMore(ensured, attempts, Attempt(id, reply));
      attempts := attempts + [Attempt(id, reply)];
    }

    /** One select between the pause and the caller's context. */
    method Pause(backoff: nat) returns (over: bool)
      modifies this`seconds
      ensures old(seconds) <= seconds <= old(seconds) + backoff
      ensures over ==> seconds == old(seconds) + backoff
    {
      var waited: int := *;
      over := waited >= backoff;
      seconds := seconds + if over then backoff else if waited < 0 then 0 else waited;
    }

    /** The environment may have gone away between attempts; if Ensure fails, the old one is kept. */
    method Refresh(known: Environment) returns (env: Environment)
      requires Latest(ensured) == Some(known) && Aimed(ensured, attempts)
      modifies this`ensured
      ensures Aimed(ensured, attempts)
      ensures |ensured| == old(|ensured|) + 1 && old(ensured) <= ensured && Latest(ensured) == Some(env)
    {
      var refreshed := Ensure();
      assert ensured[..|ensured| - 1] == old(ensured);
      return if refreshed.Ok? then refreshed.value else known;
    }

    /** What comes before attempt k + 1: the pause, twice as long the next time, and a fresh look. */
    method BeforeRetry(ghost k: nat, backoff: nat, known: Environment) returns (over: bool, next: nat, env: Environment)
      requires k > 0 && backoff == Backoff(k - 1) && seconds == Slept(k - 1)
      requires Latest(ensured) == Some(known) && Aimed(ensured, attempts)
      modifies this`seconds, this`ensured
      ensures Latest(ensured) == Some(env) && Aimed(ensured, attempts) && old(ensured) <= ensured
      ensures over ==> |ensured| == old(|ensured|) + 1 && next == Backoff(k) && seconds == Slept(k)
      ensures !over ==> ensured == old(ensured) && Slept(k - 1) <= seconds <= Slept(k)
    {
      next, env := backoff, known;
      over := Pause(backoff);
      if !over {
        return;
      }
      if next < 15 {
        next := next * 2;
      }
      env := Refresh(known);
    }

    /** How the attempts and pauses so far explain the answer. */
    ghost predicate Explains(r: Result<Conn, Fault>)
      reads this
    {
      && 0 < |attempts| == |ensured| <= retries + 1 && Aimed(ensured, attempts)
      && (forall i :: 0 <= i < |attempts| - 1 ==>
            attempts[i].reply.Err? && attempts[i].reply.error.temporary && !attempts[i].reply.error.auth)
      && var last := attempts[|attempts| - 1].reply;
      && (r.Ok? <==> last.Ok?)
      && match r
         case Ok(conn) => last == Ok(conn) && seconds == Slept(|attempts| - 1)
         case Err(Unreachable(e)) =>
           && last == Err(e) && (!e.temporary || e.auth || |attempts| == retries + 1)
           && seconds == Slept(|attempts| - 1)
         case Err(Cancelled) =>
           && last.Err? && last.error.temporary && !last.error.auth && |attempts| <= retries
           && Slept(|attempts| - 1) <= seconds <= Slept(|attempts|)
         case Err(NotReady(_)) => false
    }

    /** The retry loop. */
    method Dial(first: Environment) returns (r: Result<Conn, Fault>, env: Environment)
      requires seconds == 0 && ensured == [Ok(first)] && attempts == []
      modifies this`seconds, this`ensured, this`attempts
      ensures Explains(r) && ensured[0] == Ok(first) && Latest(ensured) == Some(env)
    {
      env := first;
      var backoff := 1;
      var lastErr: Option<Error> := None;
      var attempt := 0;
      while attempt <= retries
        invariant attempt == |attempts| <= retries + 1
        invariant |ensured| == if attempt == 0 then 1 else attempt
        invariant ensured[0] == Ok(first) && Latest(ensured) == Some(env) && Aimed(ensured, attempts)
        invariant forall i :: 0 <= i < |attempts| ==>
                    attempts[i].reply.Err? && attempts[i].reply.error.temporary && !attempts[i].reply.error.auth
        invariant attempt > 0 ==> lastErr == Some(attempts[attempt - 1].reply.error)
        invariant backoff == Backoff(if attempt == 0 then 0 else attempt - 1)
        invariant seconds == Slept(if attempt == 0 then 0 else attempt - 1)
        decreases retries + 1 - attempt
      {
        if attempt > 0 {
          var over: bool;
          over, backoff, env := BeforeRetry(attempt, backoff, env);
          if !over {
            return Err(Cancelled), env;
          }
        }
        var reply := ProviderConnect(env.id);
        if reply.Ok? {
          return Ok(reply.value), env;
        }
        lastErr := Some(reply.error);
        if !reply.error.temporary || reply.error.auth {
          break;
        }
        attempt := attempt + 1;
      }
      return Err(Unreachable(lastErr.value)), env;
    }

    /** At most R + 1 attempts for R retries: the first success, preceded only by failures that may
        pass, each on the environment then in use, which is returned as well. A cancelled connect
        records nothing and leaves the phase at connecting. */
    method Connect() returns (r: Result<Conn, Fault>, env: Option<Environment>)
      requires st.Valid() && seconds == 0 && ensured == [] && attempts == []
      modifies this`seconds, this`ensured, this`attempts
      modifies st`phase, st`history, st`failed, st`asked, st`tracks, st`connects
      ensures st.Valid() && ensured != []
      ensures if ensured[0].Err?
              then r == Err(NotReady(ensured[0].error)) && attempts == [] && seconds == 0
              else Explains(r)
      ensures env == Latest(ensured) && (ensured[0].Ok? ==> env.Some?)
      ensures st.connects == old(st.connects) + if r.Ok? then 1 else 0
      ensures st.asked == old(st.asked) + if r.Ok? || r.error.Cancelled? then [PhaseConnecting]
                                          else if r.error.NotReady? then []
                                          else [PhaseConnecting, PhaseFailed]
      ensures r.Err? && r.error.Unreachable? ==> st.failed && st.phase == PhaseFailed
      ensures r.Err? && r.error.Cancelled? ==> st.phase == PhaseConnecting
    {
      var first := Ensure();
      if first.Err? {
        return Err(NotReady(first.error)), None;
      }
      st.SetPhase(PhaseConnecting);
      var used: Environment;
      r, used := Dial(first.value);
      env := Some(used);
      if r.Ok? {
        st.connects := st.connects + 1;
      } else if r.error.Unreachable? {
        st.RecordErr();
        st.SetPhase(PhaseFailed);
      }
    }
  }

  function Pow2(k: nat): nat {
    if k == 0 then 1 else 2 * Pow2(k - 1)
  }

  /** The pauses double up to sixteen seconds and stay there. */
  lemma {:induction false} BackoffIs(k: nat)
    ensures Backoff(k) == if k <= 4 then Pow2(k) else 16
  {
    if k > 0 {
      BackoffIs(k - 1);
    }
    assert Pow2(0) == 1 && Pow2(1) == 2 && Pow2(2) == 4 && Pow2(3) == 8 && Pow2(4) == 16;
  }

  /** So k retries sleep 2^k - 1 seconds in all, from the fourth on sixteen seconds each. */
  lemma {:induction false} SleptIs(k: nat)
    ensures k <= 4 ==> Slept(k) == Pow2(k) - 1
    ensures k >= 4 ==> Slept(k) == 16 * k - 49
  {
    if k > 0 {
      SleptIs(k - 1);
      BackoffIs(k - 1);
    }
    assert Pow2(0) == 1 && Pow2(1) == 2 && Pow2(2) == 4 && Pow2(3) == 8 && Pow2(4) == 16;
  }

  lemma {:induction false} SleptGrows(k: nat, n: nat)
    requires k <= n
    ensures Slept(k) <= Slept(n)
  {
    if k < n {
      SleptGrows(k, n - 1);
    }
  }

  /** Whatever happens, a connect with R retries sleeps no longer than R pauses. */
  lemma SleepIsBounded(m: Manager, r: Result<Conn, Fault>)
    requires m.Explains(r)
    ensures m.retries <= 4 ==> m.seconds <= Pow2(m.retries) - 1
    ensures m.retries >= 4 ==> m.seconds <= 16 * m.retries - 49
  {
    SleptIs(m.retries);
    SleptGrows(|m.attempts| - 1, m.retries);
    if r.Err? && r.error.Cancelled? {
      SleptGrows(|m.attempts|, m.retries);
    }
  }
}
