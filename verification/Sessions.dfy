/** core/gateway/backend.go with core/session and OnSessionClosed: what happens between a
    session's registration and the reaction to the last one leaving.

    Close swaps the session's flag, then takes the registry's lock; the remaining count is read
    under another acquisition of that lock, and the reaction follows outside it. Each is one step. */
module Sessions {
  import opened Wrappers
  import opened Registry
  import opened Latches

  datatype Via = ByRelease | ByFailedConnect

  /** Where one OpenSession call and its Release closure stand. Counted holds what CountFor read. */
  datatype Pc = Connecting | Connected | Swapped(via: Via) | Removed | Counted(remaining: nat) | Finished

  datatype Sess = Sess(id: string, env: string, pc: Pc)

  datatype Decision = First(env: string) | Last(env: string)

  datatype Config = Config(limits: Limits, stopOnLast: bool, canStop: bool)

  /** `decisions` records first/last in lock order; `stopTasks` are the Stop goroutines not yet run,
      each told by the session whose release started it; `stops` are the environments Provider.Stop
      was called for. Of an environment's latest busy period (from its latest
      Open on), `zeroRead` says some release read a remaining count of zero, `reacted` that
      OnSessionClosed ran its last-session branch, and `lost` that a failed connect removed the
      last session while no release had its count still to read. */
  datatype State = State(
    registry: Registry,
    sessions: seq<Sess>,
    decisions: seq<Decision>,
    stopTasks: seq<nat>,
    stops: seq<string>,
    zeroRead: set<string>,
    reacted: set<string>,
    lost: set<string>)

  datatype Event =
    | Opens(env: string)
    | Connects(k: nat)
    | Swaps(k: nat)
    | Removes(k: nat)
    | Counts(k: nat)
    | Reacts(k: nat)
    | ClosesAgain(k: nat)
    | RunsStop(n: nat)
    | OperatorStops(env: string)

  const INITIAL := State(EMPTY, [], [], [], [], {}, {}, {})

  predicate At(s: State, k: nat, pc: Pc) {
    k < |s.sessions| && s.sessions[k].pc == pc
  }

  /** Swaps is Release on a connected session and the cleanup of a failed connect. ClosesAgain is a
      further Close, at any later time: it loses the swap. */
  predicate Enabled(s: State, e: Event) {
    match e
    case Opens(_) => true
    case Connects(k) => At(s, k, Connecting)
    case Swaps(k) => At(s, k, Connecting) || At(s, k, Connected)
    case Removes(k) => k < |s.sessions| && s.sessions[k].pc.Swapped?
    case Counts(k) => At(s, k, Removed)
    case Reacts(k) => k < |s.sessions| && s.sessions[k].pc.Counted?
    case ClosesAgain(k) => k < |s.sessions| && !s.sessions[k].pc.Connecting? && !s.sessions[k].pc.Connected?
    case RunsStop(n) => n < |s.stopTasks| && s.stopTasks[n] < |s.sessions|
    case OperatorStops(_) => true
  }

  function Moved(s: State, k: nat, pc: Pc): State
    requires k < |s.sessions|
  {
    s.(sessions := s.sessions[k := s.sessions[k].(pc := pc)])
  }

  predicate CountPending(s: State, env: string) {
    exists k :: 0 <= k < |s.sessions| && s.sessions[k].env == env && s.sessions[k].pc == Removed
  }

  function Apply(config: Config, s: State, e: Event): State
    requires Enabled(s, e)
  {
    match e
    case Opens(env) =>
      (match Open(s.registry, config.limits, env)
       case Err(_) => s
       case Ok(o) =>
         s.(registry := o.registry, sessions := s.sessions + [Sess(o.id, env, Connecting)],
            decisions := if o.first then s.decisions + [First(env)] else s.decisions,
            zeroRead := s.zeroRead - {env}, reacted := s.reacted - {env}, lost := s.lost - {env}))
    case Connects(k) => Moved(s, k, Connected)
    case Swaps(k) => Moved(s, k, Swapped(if s.sessions[k].pc == Connected then ByRelease else ByFailedConnect))
    case Removes(k) =>
      var env, via := s.sessions[k].env, s.sessions[k].pc.via;
      var (registry, last) := Remove(s.registry, s.sessions[k].id, env);
      Moved(s, k, if via == ByRelease then Removed else Finished).(
        registry := registry,
        decisions := if last then s.decisions + [Last(env)] else s.decisions,
        lost := if last && via == ByFailedConnect && !CountPending(s, env) then s.lost + {env} else s.lost)
    case Counts(k) =>
      var env := s.sessions[k].env;
      var n := CountFor(s.registry, env);
      Moved(s, k, Counted(n)).(zeroRead := if n == 0 then s.zeroRead + {env} else s.zeroRead)
    case Reacts(k) =>
      var s' := Moved(s, k, Finished);
      if s.sessions[k].pc.remaining > 0 then s'
      else s'.(reacted := s.reacted + {s.sessions[k].env},
               stopTasks := if config.stopOnLast && config.canStop then s.stopTasks + [k] else s.stopTasks)
    case ClosesAgain(_) => s
    case RunsStop(n) =>
      s.(stopTasks := s.stopTasks[..n] + s.stopTasks[n + 1..], stops := s.stops + [s.sessions[s.stopTasks[n]].env])
    case OperatorStops(env) => s.(stops := s.stops + [env])
  }

  // ---------------------------------------------------------------- invariant

  predicate Registered(pc: Pc) {
    pc.Connecting? || pc.Connected? || pc.Swapped?
  }

  /** The registry holds exactly the sessions not yet removed, each under its own id. */
  ghost predicate RegistryMirrors(s: State) {
    && s.registry.seqNo == |s.sessions|
    && (forall k :: 0 <= k < |s.sessions| ==> s.sessions[k].id == Id(k + 1))
    && (forall k :: 0 <= k < |s.sessions| && Registered(s.sessions[k].pc) ==>
          s.sessions[k].id in s.registry.byID && s.registry.byID[s.sessions[k].id] == s.sessions[k].env)
    && (forall id :: id in s.registry.byID ==> Held(s, id))
  }

  /** A session that is registered under this id. */
  ghost predicate Held(s: State, id: string) {
    exists k :: 0 <= k < |s.sessions| && s.sessions[k].id == id && Registered(s.sessions[k].pc)
  }

  ghost function LastDecision(decisions: seq<Decision>, env: string): Option<Decision> {
    if decisions == [] then None
    else if decisions[|decisions| - 1].env == env then Some(decisions[|decisions| - 1])
    else LastDecision(decisions[..|decisions| - 1], env)
  }

  ghost predicate Alternating(decisions: seq<Decision>) {
    decisions != [] ==>
      var before, d := decisions[..|decisions| - 1], decisions[|decisions| - 1];
      Alternating(before) &&
      (d.First? <==> LastDecision(before, d.env) != Some(First(d.env)))
  }

  ghost predicate DecisionsAgree(s: State) {
    && Alternating(s.decisions)
    && forall env :: LastDecision(s.decisions, env) == Some(First(env)) <==> CountFor(s.registry, env) > 0
  }

  ghost predicate ReactPending(s: State, env: string) {
    exists k :: 0 <= k < |s.sessions| && s.sessions[k].env == env && s.sessions[k].pc == Counted(0)
  }

  /** What is known of an environment's latest busy period. */
  ghost predicate PeriodAgrees(s: State, env: string) {
    && (env in s.lost ==> CountFor(s.registry, env) == 0 && env !in s.zeroRead && !CountPending(s, env))
    && (env in s.zeroRead ==> CountFor(s.registry, env) == 0 && (env in s.reacted || ReactPending(s, env)))
    && (CountFor(s.registry, env) == 0 && (exists k :: 0 <= k < |s.sessions| && s.sessions[k].env == env) ==>
          env in s.zeroRead || CountPending(s, env) || env in s.lost)
  }

  ghost predicate Inv(config: Config, s: State) {
    && Agrees(s.registry, config.limits)
    && RegistryMirrors(s)
    && DecisionsAgree(s)
    && (forall env :: PeriodAgrees(s, env))
  }

  lemma ConnectsMirrors(s: State, k: nat, pc: Pc)
    requires RegistryMirrors(s) && k < |s.sessions| && Registered(s.sessions[k].pc) && Registered(pc)
    ensures RegistryMirrors(Moved(s, k, pc))
  {
    var s' := Moved(s, k, pc);
    forall id | id in s'.registry.byID ensures Held(s', id) {
      var j :| 0 <= j < |s.sessions| && s.sessions[j].id == id && Registered(s.sessions[j].pc);
      assert s'.sessions[j].id == id && Registered(s'.sessions[j].pc);
    }
  }

  lemma ConnectsKeeps(config: Config, s: State, e: Event)
    requires Inv(config, s) && Enabled(s, e) && (e.Connects? || e.Swaps?)
    ensures Inv(config, Apply(config, s, e))
  {
    var s' := Apply(config, s, e);
    ConnectsMirrors(s, e.k, s'.sessions[e.k].pc);
    forall env ensures PeriodAgrees(s', env) {
      assert PeriodAgrees(s, env);
      PendingUnmoved(s, s', env, e.k);
    }
  }

  /** Pending reads and reactions of the other sessions do not depend on session k's step. */
  lemma PendingUnmoved(s: State, s': State, env: string, k: nat)
    requires k < |s.sessions| == |s'.sessions|
    requires forall j :: 0 <= j < |s.sessions| && j != k ==> s'.sessions[j] == s.sessions[j]
    requires s'.sessions[k].env == s.sessions[k].env
    ensures s.sessions[k].pc != Removed && CountPending(s, env) ==> CountPending(s', env)
    ensures s'.sessions[k].pc != Removed && CountPending(s', env) ==> CountPending(s, env)
    ensures s.sessions[k].pc != Counted(0) && ReactPending(s, env) ==> ReactPending(s', env)
    ensures env != s.sessions[k].env && CountPending(s, env) ==> CountPending(s', env)
    ensures env != s.sessions[k].env && ReactPending(s, env) ==> ReactPending(s', env)
    ensures env != s.sessions[k].env && CountPending(s', env) ==> CountPending(s, env)
    ensures (exists j :: 0 <= j < |s'.sessions| && s'.sessions[j].env == env) ==>
              (exists j :: 0 <= j < |s.sessions| && s.sessions[j].env == env)
  {
    forall j | 0 <= j < |s.sessions| && j != k ensures s'.sessions[j] == s.sessions[j] {}
    if CountPending(s, env) {
      var j :| 0 <= j < |s.sessions| && s.sessions[j].env == env && s.sessions[j].pc == Removed;
      assert s'.sessions[j].env == env;
    }
    if CountPending(s', env) {
      var j :| 0 <= j < |s.sessions| && s'.sessions[j].env == env && s'.sessions[j].pc == Removed;
      assert s.sessions[j].env == env;
    }
    if ReactPending(s, env) {
      var j :| 0 <= j < |s.sessions| && s.sessions[j].env == env && s.sessions[j].pc == Counted(0);
      assert s'.sessions[j].env == env;
    }
    if exists j :: 0 <= j < |s'.sessions| && s'.sessions[j].env == env {
      var j :| 0 <= j < |s'.sessions| && s'.sessions[j].env == env;
      assert s.sessions[j].env == env;
    }
  }

  lemma CountsKeeps(config: Config, s: State, k: nat)
    requires Inv(config, s) && Enabled(s, Counts(k))
    ensures Inv(config, Apply(config, s, Counts(k)))
  {
    var s' := Apply(config, s, Counts(k));
    SameRegistered(s, s', k);
    var env := s.sessions[k].env;
    forall e ensures PeriodAgrees(s', e) {
      assert PeriodAgrees(s, e);
      PendingUnmoved(s, s', e, k);
      if e == env {
        assert CountPending(s, env);
        if CountFor(s.registry, env) == 0 {
          assert s'.sessions[k].pc == Counted(0);
          assert ReactPending(s', env);
        }
      }
    }
  }

  lemma SameRegistered(s: State, s': State, k: nat)
    requires RegistryMirrors(s) && k < |s.sessions| == |s'.sessions| && s'.registry == s.registry
    requires forall j :: 0 <= j < |s.sessions| && j != k ==> s'.sessions[j] == s.sessions[j]
    requires s'.sessions[k].env == s.sessions[k].env && s'.sessions[k].id == s.sessions[k].id
    requires !Registered(s.sessions[k].pc) && !Registered(s'.sessions[k].pc)
    ensures RegistryMirrors(s')
  {
    forall id | id in s'.registry.byID ensures Held(s', id) {
      var j :| 0 <= j < |s.sessions| && s.sessions[j].id == id && Registered(s.sessions[j].pc);
      assert s'.sessions[j].id == id && Registered(s'.sessions[j].pc);
    }
  }

  lemma ReactsKeeps(config: Config, s: State, k: nat)
    requires Inv(config, s) && Enabled(s, Reacts(k))
    ensures Inv(config, Apply(config, s, Reacts(k)))
  {
    var s' := Apply(config, s, Reacts(k));
    SameRegistered(s, s', k);
    forall e ensures PeriodAgrees(s', e) {
      assert PeriodAgrees(s, e);
      PendingUnmoved(s, s', e, k);
    }
  }

  lemma Decided(decisions: seq<Decision>, d: Decision)
    ensures forall env :: LastDecision(decisions + [d], env)
                       == if env == d.env then Some(d) else LastDecision(decisions, env)
    ensures Alternating(decisions) && (d.First? <==> LastDecision(decisions, d.env) != Some(First(d.env))) ==>
              Alternating(decisions + [d])
  {
    assert (decisions + [d])[..|decisions|] == decisions;
  }

  lemma FreshId(s: State, n: nat)
    requires RegistryMirrors(s) && n > |s.sessions|
    ensures Id(n) !in s.registry.byID
  {
    forall id | id in s.registry.byID ensures id != Id(n) {
      var j :| 0 <= j < |s.sessions| && s.sessions[j].id == id && Registered(s.sessions[j].pc);
      IdsDiffer(j + 1, n);
    }
  }

  lemma AddMirrors(s: State, s': State, id: string, env: string)
    requires RegistryMirrors(s) && id == Id(|s.sessions| + 1) && id !in s.registry.byID
    requires s'.sessions == s.sessions + [Sess(id, env, Connecting)]
    requires s'.registry.byID == s.registry.byID[id := env] && s'.registry.seqNo == s.registry.seqNo + 1
    ensures RegistryMirrors(s')
  {
    forall i | i in s'.registry.byID ensures Held(s', i) {
      if i == id {
        assert s'.sessions[|s.sessions|].id == i;
      } else {
        var j :| 0 <= j < |s.sessions| && s.sessions[j].id == i && Registered(s.sessions[j].pc);
        assert s'.sessions[j].id == i;
      }
    }
  }

  lemma OpensMirrors(config: Config, s: State, env: string)
    requires Inv(config, s) && Open(s.registry, config.limits, env).Ok? && |s.sessions| + 1 < WRAP
    ensures RegistryMirrors(Apply(config, s, Opens(env)))
    ensures Open(s.registry, config.limits, env).value.id !in s.registry.byID
  {
    OpenAssignsNextId(s.registry, config.limits, env);
    FreshId(s, |s.sessions| + 1);
    var o := Open(s.registry, config.limits, env).value;
    AddMirrors(s, Apply(config, s, Opens(env)), o.id, env);
  }

  lemma OpenCounts(r: Registry, limits: Limits, env: string, e: string)
    requires Open(r, limits, env).Ok?
    ensures var o := Open(r, limits, env).value;
            && CountFor(o.registry, e) == CountFor(r, e) + (if e == env then 1 else 0)
            && (o.first <==> CountFor(r, env) == 0)
  {}

  lemma OpensDecisions(config: Config, s: State, env: string)
    requires DecisionsAgree(s) && Open(s.registry, config.limits, env).Ok?
    ensures DecisionsAgree(Apply(config, s, Opens(env)))
  {
    var s' := Apply(config, s, Opens(env));
    Decided(s.decisions, First(env));
    OpenCounts(s.registry, config.limits, env, env);
    forall e ensures LastDecision(s'.decisions, e) == Some(First(e)) <==> CountFor(s'.registry, e) > 0 {
      OpenCounts(s.registry, config.limits, env, e);
    }
  }

  lemma RemovesDecisions(config: Config, s: State, k: nat)
    requires DecisionsAgree(s) && Enabled(s, Removes(k)) && CountFor(s.registry, s.sessions[k].env) > 0
    ensures DecisionsAgree(Apply(config, s, Removes(k)))
  {
    var s' := Apply(config, s, Removes(k));
    var env := s.sessions[k].env;
    Decided(s.decisions, Last(env));
    forall e ensures CountFor(s'.registry, e) == CountFor(s.registry, e) - if e == env then 1 else 0 {}
  }

  lemma OpensPeriod(config: Config, s: State, env: string, e: string)
    requires PeriodAgrees(s, e) && Open(s.registry, config.limits, env).Ok?
    ensures PeriodAgrees(Apply(config, s, Opens(env)), e)
  {
    var s' := Apply(config, s, Opens(env));
    if e != env {
      if CountPending(s, e) {
        var j :| 0 <= j < |s.sessions| && s.sessions[j].env == e && s.sessions[j].pc == Removed;
        assert s'.sessions[j].env == e;
      }
      if ReactPending(s, e) {
        var j :| 0 <= j < |s.sessions| && s.sessions[j].env == e && s.sessions[j].pc == Counted(0);
        assert s'.sessions[j].env == e;
      }
      if CountPending(s', e) {
        var j :| 0 <= j < |s'.sessions| && s'.sessions[j].env == e && s'.sessions[j].pc == Removed;
        assert s.sessions[j].env == e;
      }
      if exists j :: 0 <= j < |s'.sessions| && s'.sessions[j].env == e {
        var j :| 0 <= j < |s'.sessions| && s'.sessions[j].env == e;
        assert s.sessions[j].env == e;
      }
    }
  }

  lemma OpensKeeps(config: Config, s: State, env: string)
    requires Inv(config, s) && |s.sessions| + 1 < WRAP
    ensures Inv(config, Apply(config, s, Opens(env)))
  {
    if Open(s.registry, config.limits, env).Ok? {
      OpensMirrors(config, s, env);
      OpenAgrees(s.registry, config.limits, env);
      OpensDecisions(config, s, env);
      forall e ensures PeriodAgrees(Apply(config, s, Opens(env)), e) {
        assert PeriodAgrees(s, e);
        OpensPeriod(config, s, env, e);
      }
    }
  }

  lemma RemovesMirrors(config: Config, s: State, k: nat)
    requires RegistryMirrors(s) && Enabled(s, Removes(k))
    ensures RegistryMirrors(Apply(config, s, Removes(k)))
    ensures s.sessions[k].id in s.registry.byID && s.registry.byID[s.sessions[k].id] == s.sessions[k].env
  {
    var s' := Apply(config, s, Removes(k));
    forall j | 0 <= j < |s.sessions| && j != k ensures s.sessions[j].id != s.sessions[k].id {
      IdsDiffer(j + 1, k + 1);
    }
    forall id | id in s'.registry.byID ensures Held(s', id) {
      var j :| 0 <= j < |s.sessions| && s.sessions[j].id == id && Registered(s.sessions[j].pc);
      assert s'.sessions[j].id == id;
    }
  }

  lemma RemovesPeriod(config: Config, s: State, k: nat, e: string)
    requires PeriodAgrees(s, e) && Enabled(s, Removes(k)) && CountFor(s.registry, s.sessions[k].env) > 0
    ensures PeriodAgrees(Apply(config, s, Removes(k)), e)
  {
    var s' := Apply(config, s, Removes(k));
    var env := s.sessions[k].env;
    PendingUnmoved(s, s', e, k);
    if e == env && s.sessions[k].pc.via == ByRelease {
      assert s'.sessions[k].env == env && s'.sessions[k].pc == Removed;
    }
  }

  lemma RemovesKeeps(config: Config, s: State, k: nat)
    requires Inv(config, s) && Enabled(s, Removes(k))
    ensures Inv(config, Apply(config, s, Removes(k)))
  {
    var env := s.sessions[k].env;
    RemovesMirrors(config, s, k);
    RemoveAgrees(s.registry, config.limits, s.sessions[k].id, env);
    assert CountFor(s.registry, env) == |SessionsOf(s.registry, env)|;
    assert s.sessions[k].id in SessionsOf(s.registry, env);
    RemovesDecisions(config, s, k);
    forall e ensures PeriodAgrees(Apply(config, s, Removes(k)), e) {
      assert PeriodAgrees(s, e);
      RemovesPeriod(config, s, k, e);
    }
  }

  lemma StepKeeps(config: Config, s: State, e: Event)
    requires Inv(config, s) && Enabled(s, e) && |s.sessions| + 1 < WRAP
    ensures Inv(config, Apply(config, s, e))
  {
    match e
    case Opens(env) => OpensKeeps(config, s, env);
    case Connects(k) => ConnectsKeeps(config, s, e);
    case Swaps(k) => ConnectsKeeps(config, s, e);
    case Removes(k) => RemovesKeeps(config, s, k);
    case Counts(k) => CountsKeeps(config, s, k);
    case Reacts(k) => ReactsKeeps(config, s, k);
    case ClosesAgain(_) =>
    case RunsStop(_) => StopKeeps(config, s, e);
    case OperatorStops(_) => StopKeeps(config, s, e);
  }

  lemma StopKeeps(config: Config, s: State, e: Event)
    requires Inv(config, s) && Enabled(s, e) && (e.RunsStop? || e.OperatorStops?)
    ensures Inv(config, Apply(config, s, e))
  {
    var s' := Apply(config, s, e);
    forall env ensures PeriodAgrees(s', env) {
      assert PeriodAgrees(s, env);
      assert CountPending(s', env) == CountPending(s, env) && ReactPending(s', env) == ReactPending(s, env);
    }
  }

  // ---------------------------------------------------------------- whole runs

  ghost predicate Run(config: Config, states: seq<State>, events: seq<Event>) {
    && |states| == |events| + 1 < WRAP
    && states[0] == INITIAL
    && forall i :: 0 <= i < |events| ==>
         Enabled(states[i], events[i]) && states[i + 1] == Apply(config, states[i], events[i])
  }

  lemma EmptyAgrees(config: Config)
    ensures Inv(config, INITIAL)
  {
    assert forall env :: SessionsOf(EMPTY, env) == {};
    assert forall env :: PeriodAgrees(INITIAL, env);
  }

  /** Counters, limits, ids and decisions agree in every state of every run. */
  lemma {:induction false} Always(config: Config, states: seq<State>, events: seq<Event>, i: nat)
    requires Run(config, states, events) && i <= |events|
    ensures Inv(config, states[i]) && |states[i].sessions| <= i
  {
    if i == 0 {
      EmptyAgrees(config);
    } else {
      Always(config, states, events, i - 1);
      AlwaysStep(config, states[i - 1], events[i - 1], states[i], i - 1);
    }
  }

  lemma AlwaysStep(config: Config, s: State, e: Event, s': State, n: nat)
    requires Inv(config, s) && |s.sessions| <= n && n + 1 < WRAP
    requires Enabled(s, e) && s' == Apply(config, s, e)
    ensures Inv(config, s') && |s'.sessions| <= n + 1
  {
    StepKeeps(config, s, e);
    StepGrows(config, s, e);
  }

  lemma StepGrows(config: Config, s: State, e: Event)
    requires Enabled(s, e)
    ensures |Apply(config, s, e).sessions| <= |s.sessions| + 1
  {}

  ghost function RegisteredOf(s: State, env: string): set<nat> {
    set k: nat | k < |s.sessions| && s.sessions[k].env == env && Registered(s.sessions[k].pc)
  }

  /** perEnv counts exactly the sessions registered for an environment, and no two sessions of a
      run ever carry the same id. */
  lemma CountersAreExact(config: Config, states: seq<State>, events: seq<Event>, i: nat, env: string)
    requires Run(config, states, events) && i <= |events|
    ensures CountFor(states[i].registry, env)
         == |RegisteredOf(states[i], env)|
    ensures DistinctIds(states[i])
    ensures Sum(states[i].registry.perEnv) == |states[i].registry.byID|
    ensures config.limits.maxTotal > 0 ==> |states[i].registry.byID| <= config.limits.maxTotal
    ensures config.limits.maxPerEnv > 0 ==> CountFor(states[i].registry, env) <= config.limits.maxPerEnv
  {
    Always(config, states, events, i);
    MirrorsHaveDistinctIds(states[i]);
    SessionsCounted(states[i], env);
    assert CountFor(states[i].registry, env) == |SessionsOf(states[i].registry, env)|;
  }

  lemma MirrorsHaveDistinctIds(s: State)
    requires RegistryMirrors(s)
    ensures DistinctIds(s)
  {
    forall j, k | 0 <= j < |s.sessions| && 0 <= k < |s.sessions| && j != k
      ensures s.sessions[j].id != s.sessions[k].id
    {
      IdsDiffer(j + 1, k + 1);
    }
  }

  lemma SessionsCounted(s: State, env: string)
    requires RegistryMirrors(s) && DistinctIds(s)
    ensures |SessionsOf(s.registry, env)|
         == |RegisteredOf(s, env)|
  {
    var indices := RegisteredOf(s, env);
    IdsOfSize(s, indices);
    forall id | id in SessionsOf(s.registry, env) ensures id in IdsOf(s, indices) {
      var k: nat :| k < |s.sessions| && s.sessions[k].id == id && Registered(s.sessions[k].pc);
      assert k in indices;
    }
    assert SessionsOf(s.registry, env) == IdsOf(s, indices);
  }

  ghost predicate DistinctIds(s: State) {
    forall j, k :: 0 <= j < |s.sessions| && 0 <= k < |s.sessions| && j != k ==> s.sessions[j].id != s.sessions[k].id
  }

  ghost function IdsOf(s: State, indices: set<nat>): set<string>
    requires forall k :: k in indices ==> k < |s.sessions|
  {
    set k | k in indices :: s.sessions[k].id
  }

  lemma {:induction false} IdsOfSize(s: State, indices: set<nat>)
    requires forall k :: k in indices ==> k < |s.sessions|
    requires DistinctIds(s)
    ensures |IdsOf(s, indices)| == |indices|
    decreases |indices|
  {
    if indices != {} {
      var k :| k in indices;
      var rest := indices - {k};
      IdsOfSize(s, rest);
      assert IdsOf(s, indices) == IdsOf(s, rest) + {s.sessions[k].id};
      assert s.sessions[k].id !in IdsOf(s, rest);
    }
  }

  /** Between two First decisions for an environment there is a Last one, and the other way round. */
  lemma {:induction false} DecisionsAlternate(decisions: seq<Decision>, i: nat, j: nat)
    requires Alternating(decisions) && i < j < |decisions| && decisions[i] == decisions[j]
    ensures exists k :: i < k < j && decisions[k].env == decisions[i].env && decisions[k] != decisions[i]
    decreases |decisions|
  {
    var before := decisions[..|decisions| - 1];
    if j < |before| {
      DecisionsAlternate(before, i, j);
      var k :| i < k < j && before[k].env == before[i].env && before[k] != before[i];
      assert decisions[k] == before[k];
    } else {
      var k := LastDecisionAt(before, decisions[i].env, i);
      assert decisions[k] == before[k];
    }
  }

  lemma {:induction false} LastDecisionAt(decisions: seq<Decision>, env: string, i: nat) returns (k: nat)
    requires i < |decisions| && decisions[i].env == env
    ensures i <= k < |decisions| && decisions[k].env == env && LastDecision(decisions, env) == Some(decisions[k])
  {
    if decisions[|decisions| - 1].env == env {
      k := |decisions| - 1;
    } else {
      k := LastDecisionAt(decisions[..|decisions| - 1], env, i);
    }
  }

  /** An environment's decisions begin with First. */
  lemma {:induction false} FirstComesFirst(decisions: seq<Decision>, i: nat)
    requires Alternating(decisions) && i < |decisions|
    requires forall k :: 0 <= k < i ==> decisions[k].env != decisions[i].env
    ensures decisions[i] == First(decisions[i].env)
  {
    var before := decisions[..|decisions| - 1];
    if i < |before| {
      FirstComesFirst(before, i);
    } else if LastDecision(before, decisions[i].env).Some? {
      var k := DecidedAt(before, decisions[i].env);
      assert false;
    }
  }

  lemma {:induction false} DecidedAt(decisions: seq<Decision>, env: string) returns (k: nat)
    requires LastDecision(decisions, env).Some?
    ensures k < |decisions| && decisions[k].env == env
  {
    if decisions[|decisions| - 1].env == env {
      k := |decisions| - 1;
    } else {
      k := DecidedAt(decisions[..|decisions| - 1], env);
    }
  }

  /** In lock order, the decisions for each environment are First, Last, First, Last, ... */
  lemma FirstAndLastAlternate(config: Config, states: seq<State>, events: seq<Event>, n: nat)
    requires Run(config, states, events) && n <= |events|
    ensures var d := states[n].decisions;
            && (forall i :: 0 <= i < |d| && (forall k :: 0 <= k < i ==> d[k].env != d[i].env) ==>
                  d[i] == First(d[i].env))
            && (forall i, j :: 0 <= i < j < |d| && d[i] == d[j] ==>
                  exists k :: i < k < j && d[k].env == d[i].env && d[k] != d[i])
  {
    Always(config, states, events, n);
    var d := states[n].decisions;
    forall i | 0 <= i < |d| && (forall k :: 0 <= k < i ==> d[k].env != d[i].env) ensures d[i] == First(d[i].env) {
      FirstComesFirst(d, i);
    }
    forall i, j | 0 <= i < j < |d| && d[i] == d[j]
      ensures exists k :: i < k < j && d[k].env == d[i].env && d[k] != d[i]
    {
      DecisionsAlternate(d, i, j);
    }
  }

  // ---------------------------------------------------------------- the last disconnect

  /** At least one session of the environment was opened, and all of them are over. */
  ghost predicate AllOver(s: State, env: string) {
    && (exists k :: 0 <= k < |s.sessions| && s.sessions[k].env == env)
    && (forall k :: 0 <= k < |s.sessions| && s.sessions[k].env == env ==> s.sessions[k].pc == Finished)
  }

  /** No session of the environment is in the registry. */
  ghost predicate NoneLeft(s: State, env: string) {
    forall k :: 0 <= k < |s.sessions| && s.sessions[k].env == env ==> !Registered(s.sessions[k].pc)
  }

  lemma NoneRegistered(config: Config, s: State, env: string)
    requires Inv(config, s) && NoneLeft(s, env)
    ensures CountFor(s.registry, env) == 0
  {
    forall id ensures id !in SessionsOf(s.registry, env) {
      if id in s.registry.byID {
        var k :| 0 <= k < |s.sessions| && s.sessions[k].id == id && Registered(s.sessions[k].pc);
        assert s.registry.byID[id] == s.sessions[k].env;
      }
    }
    assert SessionsOf(s.registry, env) == {};
  }

  predicate Reopens(config: Config, s: State, e: Event, env: string) {
    e == Opens(env) && Open(s.registry, config.limits, env).Ok?
  }

  /** A release reads a remaining count of zero. */
  predicate ReadsZero(s: State, e: Event, env: string) {
    e.Counts? && e.k < |s.sessions| && s.sessions[e.k].env == env && CountFor(s.registry, env) == 0
  }

  /** OnSessionClosed runs its last-session branch. */
  predicate ReactsToZero(s: State, e: Event, env: string) {
    e.Reacts? && e.k < |s.sessions| && s.sessions[e.k].env == env && s.sessions[e.k].pc == Counted(0)
  }

  /** A failed connect removes the last session while no release has its count still to read. */
  predicate LosesLast(s: State, e: Event, env: string) {
    && e.Removes? && e.k < |s.sessions| && s.sessions[e.k].env == env
    && s.sessions[e.k].pc == Swapped(ByFailedConnect)
    && Remove(s.registry, s.sessions[e.k].id, env).1 && !CountPending(s, env)
  }

  /** No session of the environment is opened between steps m and i. */
  ghost predicate Unopened(config: Config, states: seq<State>, events: seq<Event>, m: nat, i: nat, env: string)
    requires i <= |events| < |states|
  {
    forall n :: m < n < i ==> !Reopens(config, states[n], events[n], env)
  }

  ghost predicate ZeroWasRead(config: Config, states: seq<State>, events: seq<Event>, i: nat, env: string)
    requires i <= |events| < |states|
  {
    exists m: nat :: m < i && ReadsZero(states[m], events[m], env) && Unopened(config, states, events, m, i, env)
  }

  ghost predicate BranchRan(config: Config, states: seq<State>, events: seq<Event>, i: nat, env: string)
    requires i <= |events| < |states|
  {
    exists m: nat :: m < i && ReactsToZero(states[m], events[m], env) && Unopened(config, states, events, m, i, env)
  }

  ghost predicate LastWasLost(config: Config, states: seq<State>, events: seq<Event>, i: nat, env: string)
    requires i <= |events| < |states|
  {
    exists m: nat :: m < i && LosesLast(states[m], events[m], env) && Unopened(config, states, events, m, i, env)
  }

  lemma FlagsStep(config: Config, s: State, e: Event, env: string)
    requires Enabled(s, e)
    ensures FlagsMove(config, s, e, Apply(config, s, e), env)
  {}

  ghost predicate FlagsMove(config: Config, s: State, e: Event, s': State, env: string) {
    var open := Reopens(config, s, e, env);
    && (env in s'.zeroRead <==> ReadsZero(s, e, env) || (env in s.zeroRead && !open))
    && (env in s'.reacted <==> ReactsToZero(s, e, env) || (env in s.reacted && !open))
    && (env in s'.lost <==> LosesLast(s, e, env) || (env in s.lost && !open))
  }

  ghost predicate FlagsFollow(config: Config, states: seq<State>, events: seq<Event>, env: string) {
    && |states| == |events| + 1
    && env !in states[0].zeroRead && env !in states[0].reacted && env !in states[0].lost
    && forall i :: 0 <= i < |events| ==> FlagsMove(config, states[i], events[i], states[i + 1], env)
  }

  lemma RunFlags(config: Config, states: seq<State>, events: seq<Event>, env: string)
    requires Run(config, states, events)
    ensures FlagsFollow(config, states, events, env)
  {
    forall i | 0 <= i < |events| ensures FlagsMove(config, states[i], events[i], states[i + 1], env) {
      FlagsStep(config, states[i], events[i], env);
    }
  }

  ghost function Reopenings(config: Config, states: seq<State>, events: seq<Event>, env: string): seq<bool>
    requires |states| == |events| + 1
  {
    seq(|events|, j requires 0 <= j < |events| => Reopens(config, states[j], events[j], env))
  }

  lemma RaisedSince(config: Config, states: seq<State>, events: seq<Event>, env: string,
        flags: seq<bool>, raised: seq<bool>, i: nat)
    requires |states| == |events| + 1 && i <= |events|
    requires Follows(flags, raised, Reopenings(config, states, events, env))
    ensures flags[i] <==> exists m: nat :: m < i && raised[m] && Unopened(config, states, events, m, i, env)
  {
    var lowered := Reopenings(config, states, events, env);
    Latched(flags, raised, lowered, i);
    forall m: nat | m < i
      ensures RaisedAt(raised, lowered, m, i) <==> raised[m] && Unopened(config, states, events, m, i, env)
    {
      forall n | m < n < i ensures lowered[n] == Reopens(config, states[n], events[n], env) {}
    }
  }

  lemma ZeroReadMeans(config: Config, states: seq<State>, events: seq<Event>, i: nat, env: string)
    requires FlagsFollow(config, states, events, env) && i <= |events|
    ensures env in states[i].zeroRead <==> ZeroWasRead(config, states, events, i, env)
  {
    var n := |events|;
    var flags := seq(n + 1, j requires 0 <= j <= n => env in states[j].zeroRead);
    var raised := seq(n, j requires 0 <= j < n => ReadsZero(states[j], events[j], env));
    RaisedSince(config, states, events, env, flags, raised, i);
    assert forall m: nat :: m < i ==> raised[m] == ReadsZero(states[m], events[m], env);
  }

  lemma ReactedMeans(config: Config, states: seq<State>, events: seq<Event>, i: nat, env: string)
    requires FlagsFollow(config, states, events, env) && i <= |events|
    ensures env in states[i].reacted <==> BranchRan(config, states, events, i, env)
  {
    var n := |events|;
    var flags := seq(n + 1, j requires 0 <= j <= n => env in states[j].reacted);
    var raised := seq(n, j requires 0 <= j < n => ReactsToZero(states[j], events[j], env));
    RaisedSince(config, states, events, env, flags, raised, i);
    assert forall m: nat :: m < i ==> raised[m] == ReactsToZero(states[m], events[m], env);
  }

  lemma LostMeans(config: Config, states: seq<State>, events: seq<Event>, i: nat, env: string)
    requires FlagsFollow(config, states, events, env) && i <= |events|
    ensures env in states[i].lost <==> LastWasLost(config, states, events, i, env)
  {
    var n := |events|;
    var flags := seq(n + 1, j requires 0 <= j <= n => env in states[j].lost);
    var raised := seq(n, j requires 0 <= j < n => LosesLast(states[j], events[j], env));
    RaisedSince(config, states, events, env, flags, raised, i);
    assert forall m: nat :: m < i ==> raised[m] == LosesLast(states[m], events[m], env);
  }

  /** Exactly when the last disconnect is noticed: with all sessions over, and counting from the
      latest Open, some release read a count of zero, and the last-session branch ran, unless a
      failed connect removed the last session while no release was between its removal and its count. */
  lemma LastDisconnectNoticedExactly(config: Config, states: seq<State>, events: seq<Event>, i: nat, env: string)
    requires Run(config, states, events) && i <= |events| && AllOver(states[i], env)
    ensures ZeroWasRead(config, states, events, i, env) <==> !LastWasLost(config, states, events, i, env)
    ensures ZeroWasRead(config, states, events, i, env) ==> BranchRan(config, states, events, i, env)
  {
    RunFlags(config, states, events, env);
    ZeroReadMeans(config, states, events, i, env);
    ReactedMeans(config, states, events, i, env);
    LostMeans(config, states, events, i, env);
    NoticedExactly(config, states, events, i, env);
  }

  lemma NoticedExactly(config: Config, states: seq<State>, events: seq<Event>, i: nat, env: string)
    requires Run(config, states, events) && i <= |events| && AllOver(states[i], env)
    ensures env in states[i].zeroRead <==> env !in states[i].lost
    ensures env in states[i].zeroRead ==> env in states[i].reacted
  {
    Always(config, states, events, i);
    NoneRegistered(config, states[i], env);
    assert PeriodAgrees(states[i], env);
  }

  /** In the first i steps no session of the environment is closed by a failed connect. */
  ghost predicate OnlyReleased(states: seq<State>, events: seq<Event>, i: nat, env: string)
    requires |states| > |events| >= i
  {
    forall j :: 0 <= j < i && events[j].Swaps? && events[j].k < |states[j].sessions| ==>
      states[j].sessions[events[j].k].env == env ==> states[j].sessions[events[j].k].pc == Connected
  }

  lemma {:induction false} NothingLost(config: Config, states: seq<State>, events: seq<Event>, i: nat, env: string)
    requires Run(config, states, events) && i <= |events|
    requires OnlyReleased(states, events, i, env)
    ensures env !in states[i].lost
    ensures forall k :: 0 <= k < |states[i].sessions| && states[i].sessions[k].env == env ==>
              states[i].sessions[k].pc != Swapped(ByFailedConnect)
  {
    if i > 0 {
      NothingLost(config, states, events, i - 1, env);
      assert Enabled(states[i - 1], events[i - 1]);
    }
  }

  // ---------------------------------------------------------------- who notices it

  /** What one step can do to session k. */
  ghost predicate Moves(s: State, s': State, e: Event, k: nat) {
    && |s.sessions| <= |s'.sessions|
    && (|s.sessions| <= k < |s'.sessions| ==> Registered(s'.sessions[k].pc))
    && (k < |s.sessions| ==>
          var pc, pc', env := s.sessions[k].pc, s'.sessions[k].pc, s.sessions[k].env;
          && s'.sessions[k].env == env
          && (Registered(pc) && !Registered(pc') ==> e == Removes(k))
          && (e == Removes(k) ==> pc.Swapped? && pc' == if pc.via == ByRelease then Removed else Finished)
          && (pc == Removed && pc' != pc ==> e == Counts(k) && pc' == Counted(CountFor(s.registry, env)))
          && (pc'.Counted? && pc' != pc ==> e == Counts(k) && pc == Removed)
          && (pc.Counted? && pc' != pc ==> e == Reacts(k))
          && (!Registered(pc) ==> !Registered(pc')))
  }

  lemma SessionMoves(config: Config, s: State, e: Event, k: nat)
    requires Enabled(s, e)
    ensures Moves(s, Apply(config, s, e), e, k)
  {}

  ghost predicate AllMove(s: State, s': State, e: Event) {
    forall k: nat :: Moves(s, s', e, k)
  }

  lemma AllSessionsMove(config: Config, s: State, e: Event)
    requires Enabled(s, e)
    ensures AllMove(s, Apply(config, s, e), e)
  {
    var s' := Apply(config, s, e);
    forall k: nat ensures Moves(s, s', e, k) {
      SessionMoves(config, s, e, k);
    }
  }

  ghost predicate Lives(states: seq<State>, events: seq<Event>) {
    && |states| == |events| + 1 && states[0].sessions == []
    && forall i :: 0 <= i < |events| ==> AllMove(states[i], states[i + 1], events[i])
  }

  lemma RunLives(config: Config, states: seq<State>, events: seq<Event>)
    requires Run(config, states, events)
    ensures Lives(states, events)
  {
    forall i | 0 <= i < |events| ensures AllMove(states[i], states[i + 1], events[i]) {
      AllSessionsMove(config, states[i], events[i]);
    }
  }

  ghost predicate Has(s: State, k: nat, env: string) {
    k < |s.sessions| && s.sessions[k].env == env
  }

  lemma {:induction false} SessionStays(states: seq<State>, events: seq<Event>, a: nat, b: nat, k: nat, env: string)
    requires Lives(states, events) && a <= b <= |events| && Has(states[a], k, env)
    ensures Has(states[b], k, env)
    decreases b
  {
    if a < b {
      SessionStays(states, events, a, b - 1, k, env);
      assert Moves(states[b - 1], states[b], events[b - 1], k);
    }
  }

  /** A session that is out of the registry at step b, but was not at step a, was removed in between. */
  lemma {:induction false} LeftByRemoval(states: seq<State>, events: seq<Event>, a: nat, b: nat, k: nat)
    returns (m: nat)
    requires Lives(states, events) && a <= b <= |events|
    requires k < |states[a].sessions| ==> Registered(states[a].sessions[k].pc)
    requires k < |states[b].sessions| && !Registered(states[b].sessions[k].pc)
    ensures a <= m < b && events[m] == Removes(k) && k < |states[m].sessions|
    decreases b
  {
    assert a < b;
    m := b - 1;
    assert Moves(states[m], states[b], events[m], k);
    if k < |states[m].sessions| && !Registered(states[m].sessions[k].pc) {
      m := LeftByRemoval(states, events, a, b - 1, k);
    }
  }

  /** A removed session that is over has read its count in between. */
  lemma {:induction false} CountedLater(states: seq<State>, events: seq<Event>, a: nat, b: nat, k: nat) returns (m: nat)
    requires Lives(states, events) && a <= b <= |events|
    requires k < |states[a].sessions| && states[a].sessions[k].pc == Removed
    requires k < |states[b].sessions| && states[b].sessions[k].pc == Finished
    ensures a <= m < b && events[m] == Counts(k) && Has(states[m], k, states[a].sessions[k].env)
    ensures k < |states[m + 1].sessions|
    ensures states[m + 1].sessions[k].pc == Counted(CountFor(states[m].registry, states[a].sessions[k].env))
    decreases b - a
  {
    assert a < b;
    assert Moves(states[a], states[a + 1], events[a], k);
    if states[a + 1].sessions[k].pc == Removed {
      m := CountedLater(states, events, a + 1, b, k);
    } else {
      m := a;
    }
  }

  /** A session that has counted and is over has reacted in between. */
  lemma {:induction false} ReactedLater(states: seq<State>, events: seq<Event>, a: nat, b: nat, k: nat) returns (r: nat)
    requires Lives(states, events) && a <= b <= |events|
    requires k < |states[a].sessions| && states[a].sessions[k].pc.Counted?
    requires k < |states[b].sessions| && states[b].sessions[k].pc == Finished
    ensures a <= r < b && events[r] == Reacts(k) && Has(states[r], k, states[a].sessions[k].env)
    ensures states[r].sessions[k].pc == states[a].sessions[k].pc
    decreases b - a
  {
    assert a < b;
    assert Moves(states[a], states[a + 1], events[a], k);
    if states[a + 1].sessions[k].pc == states[a].sessions[k].pc {
      r := ReactedLater(states, events, a + 1, b, k);
    } else {
      r := a;
    }
  }

  ghost predicate RemovesOne(s: State, e: Event, env: string) {
    e.Removes? && Has(s, e.k, env)
  }

  lemma {:induction false} LastRemoval(states: seq<State>, events: seq<Event>, n: nat, env: string) returns (j: int)
    requires n <= |events| < |states|
    ensures -1 <= j < n && (j >= 0 ==> RemovesOne(states[j], events[j], env))
    ensures forall m :: j < m < n ==> !RemovesOne(states[m], events[m], env)
  {
    if n == 0 {
      j := -1;
    } else if RemovesOne(states[n - 1], events[n - 1], env) {
      j := n - 1;
    } else {
      j := LastRemoval(states, events, n - 1, env);
    }
  }

  /** After the last removal before step i no session of the environment is registered. */
  lemma NoneAfterLastRemoval(states: seq<State>, events: seq<Event>, j: int, n: nat, i: nat, env: string)
    requires Lives(states, events) && -1 <= j < n <= i <= |events| && AllOver(states[i], env)
    requires forall m :: j < m < i ==> !RemovesOne(states[m], events[m], env)
    ensures NoneLeft(states[n], env)
  {
    forall k | 0 <= k < |states[n].sessions| && states[n].sessions[k].env == env
      ensures !Registered(states[n].sessions[k].pc)
    {
      SessionStays(states, events, n, i, k, env);
      if Registered(states[n].sessions[k].pc) {
        var m := LeftByRemoval(states, events, n, i, k);
        SessionStays(states, events, n, m, k, env);
        assert false;
      }
    }
  }

  /** Session k is the last of the environment to be removed, at step j; at step m its release reads
      the remaining count, which is zero, and at step r it runs the last-session branch. */
  ghost predicate NoticedBy(states: seq<State>, events: seq<Event>, i: nat, env: string, k: nat, j: nat, m: nat, r: nat)
    requires i <= |events| < |states|
  {
    && j < m < r < i
    && events[j] == Removes(k) && Has(states[j], k, env)
    && (forall n :: j < n < i ==> !RemovesOne(states[n], events[n], env))
    && NoneLeft(states[j + 1], env) && CountFor(states[j + 1].registry, env) == 0
    && events[m] == Counts(k) && CountFor(states[m].registry, env) == 0
    && events[r] == Reacts(k) && ReactsToZero(states[r], events[r], env)
  }

  lemma RemovedByRelease(config: Config, states: seq<State>, events: seq<Event>, i: nat, j: nat, env: string)
    requires Run(config, states, events) && j < i <= |events| && OnlyReleased(states, events, i, env)
    requires RemovesOne(states[j], events[j], env)
    ensures Has(states[j + 1], events[j].k, env) && states[j + 1].sessions[events[j].k].pc == Removed
  {
    NothingLost(config, states, events, j, env);
    SessionMoves(config, states[j], events[j], events[j].k);
  }

  /** No last disconnect is lost while sessions of the environment go away only through Release: the
      very release that removed the last session reads a count of zero and runs the branch. */
  lemma NoLostLastDisconnect(config: Config, states: seq<State>, events: seq<Event>, i: nat, env: string)
    returns (k: nat, j: nat, m: nat, r: nat)
    requires Run(config, states, events) && i <= |events| && AllOver(states[i], env)
    requires OnlyReleased(states, events, i, env)
    ensures NoticedBy(states, events, i, env, k, j, m, r)
  {
    RunLives(config, states, events);
    var j' := LastRemoval(states, events, i, env);
    if j' < 0 {
      NeverRemoved(states, events, i, env);
      assert false;
    }
    j, k := j', events[j'].k;
    RemovedByRelease(config, states, events, i, j, env);
    SessionStays(states, events, j + 1, i, k, env);
    m := CountedLater(states, events, j + 1, i, k);
    NoneCounted(config, states, events, j, m, i, env);
    NoneCounted(config, states, events, j, j + 1, i, env);
    r := ReactedLater(states, events, m + 1, i, k);
  }

  lemma NeverRemoved(states: seq<State>, events: seq<Event>, i: nat, env: string)
    requires Lives(states, events) && i <= |events| && AllOver(states[i], env)
    ensures exists m :: 0 <= m < i && RemovesOne(states[m], events[m], env)
  {
    var k :| 0 <= k < |states[i].sessions| && states[i].sessions[k].env == env;
    var m := LeftByRemoval(states, events, 0, i, k);
    SessionStays(states, events, m, i, k, states[m].sessions[k].env);
    assert RemovesOne(states[m], events[m], env);
  }

  lemma NoneCounted(config: Config, states: seq<State>, events: seq<Event>, j: nat, n: nat, i: nat, env: string)
    requires Run(config, states, events) && Lives(states, events) && j < n <= i <= |events| && AllOver(states[i], env)
    requires forall m :: j < m < i ==> !RemovesOne(states[m], events[m], env)
    ensures NoneLeft(states[n], env) && CountFor(states[n].registry, env) == 0
  {
    NoneAfterLastRemoval(states, events, j, n, i, env);
    Always(config, states, events, n);
    NoneRegistered(config, states[n], env);
  }

  /** With stop_on_last_disconnect off (or a provider that cannot stop) and no operator request,
      no run ever calls Provider.Stop. */
  lemma {:induction false} NeverStopsByItself(config: Config, states: seq<State>, events: seq<Event>, i: nat)
    requires Run(config, states, events) && i <= |events|
    requires !config.stopOnLast || !config.canStop
    requires forall j :: 0 <= j < i ==> !events[j].OperatorStops?
    ensures states[i].stops == [] && states[i].stopTasks == []
  {
    if i > 0 {
      NeverStopsByItself(config, states, events, i - 1);
      assert Enabled(states[i - 1], events[i - 1]);
    }
  }

  // ---------------------------------------------------------------- what a stop meets

  /** A count that a release holds was read by it. */
  lemma {:induction false} CountedBefore(states: seq<State>, events: seq<Event>, b: nat, k: nat) returns (m: nat)
    requires Lives(states, events) && b <= |events|
    requires k < |states[b].sessions| && states[b].sessions[k].pc.Counted?
    ensures m < b && events[m] == Counts(k) && Has(states[m], k, states[b].sessions[k].env)
    ensures states[b].sessions[k].pc == Counted(CountFor(states[m].registry, states[b].sessions[k].env))
  {
    assert b > 0;
    assert Moves(states[b - 1], states[b], events[b - 1], k);
    if states[b - 1].sessions[k].pc == states[b].sessions[k].pc {
      m := CountedBefore(states, events, b - 1, k);
    } else {
      m := b - 1;
    }
  }

  ghost predicate StartsStop(s: State, e: Event, k: nat) {
    e == Reacts(k) && k < |s.sessions| && s.sessions[k].pc == Counted(0)
  }

  lemma TaskStep(config: Config, s: State, e: Event)
    requires Enabled(s, e)
    ensures forall k :: k in Apply(config, s, e).stopTasks ==> k in s.stopTasks || StartsStop(s, e, k)
  {}

  ghost predicate TasksStarted(states: seq<State>, events: seq<Event>) {
    && |states| == |events| + 1 && states[0].stopTasks == []
    && forall i :: 0 <= i < |events| ==>
         forall k :: k in states[i + 1].stopTasks ==> k in states[i].stopTasks || StartsStop(states[i], events[i], k)
  }

  lemma RunTasks(config: Config, states: seq<State>, events: seq<Event>)
    requires Run(config, states, events)
    ensures TasksStarted(states, events)
  {
    forall i | 0 <= i < |events|
      ensures forall k :: k in states[i + 1].stopTasks ==>
                k in states[i].stopTasks || StartsStop(states[i], events[i], k)
    {
      TaskStep(config, states[i], events[i]);
    }
  }

  /** Every Stop goroutine was started by a release that held a count of zero. */
  lemma {:induction false} StartedBefore(states: seq<State>, events: seq<Event>, b: nat, k: nat) returns (r: nat)
    requires TasksStarted(states, events) && b <= |events| && k in states[b].stopTasks
    ensures r < b && StartsStop(states[r], events[r], k)
  {
    assert b > 0;
    if k in states[b - 1].stopTasks {
      r := StartedBefore(states, events, b - 1, k);
    } else {
      r := b - 1;
    }
  }

  lemma {:induction false} StaysOut(states: seq<State>, events: seq<Event>, a: nat, b: nat, k: nat)
    requires Lives(states, events) && a <= b <= |events|
    requires k < |states[a].sessions| && !Registered(states[a].sessions[k].pc)
    ensures k < |states[b].sessions| && !Registered(states[b].sessions[k].pc)
    decreases b
  {
    if a < b {
      StaysOut(states, events, a, b - 1, k);
      assert Moves(states[b - 1], states[b], events[b - 1], k);
    }
  }

  /** A session of the environment that was opened after state s and is still registered. */
  ghost predicate OpenedSince(s: State, s': State, env: string) {
    exists x: nat :: |s.sessions| <= x && Has(s', x, env) && Registered(s'.sessions[x].pc)
  }

  /** After a count of zero at step m, the environment has registered sessions again if and only if
      one that was opened later still is. */
  lemma LiveAfterZeroExactly(config: Config, states: seq<State>, events: seq<Event>, m: nat, i: nat, env: string)
    requires Run(config, states, events) && Lives(states, events) && m <= i <= |events|
    requires CountFor(states[m].registry, env) == 0
    ensures CountFor(states[i].registry, env) > 0 <==> OpenedSince(states[m], states[i], env)
  {
    CountersAreExact(config, states, events, m, env);
    CountersAreExact(config, states, events, i, env);
    var live := RegisteredOf(states[i], env);
    forall x: nat | x in live ensures x >= |states[m].sessions| {
      if x < |states[m].sessions| {
        SessionStays(states, events, m, i, x, states[m].sessions[x].env);
        assert x !in RegisteredOf(states[m], env);
        StaysOut(states, events, m, i, x);
        assert false;
      }
    }
    if live != {} {
      var x :| x in live;
      assert Has(states[i], x, env);
    }
    if OpenedSince(states[m], states[i], env) {
      var x: nat :| |states[m].sessions| <= x && Has(states[i], x, env) && Registered(states[i].sessions[x].pc);
      assert x in live;
    }
  }

  /** When a stop goroutine calls Provider.Stop, at step i: it was started by a release that had read
      a count of zero, at step m, and the environment has a registered session at the call if and only
      if a session opened after that reading still is registered. */
  lemma StopHitsALiveSessionExactly(config: Config, states: seq<State>, events: seq<Event>, i: nat)
    returns (k: nat, env: string, m: nat)
    requires Run(config, states, events) && i < |events| && events[i].RunsStop?
    ensures events[i].n < |states[i].stopTasks| && k == states[i].stopTasks[events[i].n]
    ensures Has(states[i], k, env) && states[i + 1].stops == states[i].stops + [env]
    ensures m < i && events[m] == Counts(k) && ReadsZero(states[m], events[m], env)
    ensures CountFor(states[i].registry, env) > 0 <==> OpenedSince(states[m], states[i], env)
  {
    RunLives(config, states, events);
    RunTasks(config, states, events);
    assert Enabled(states[i], events[i]);
    k := states[i].stopTasks[events[i].n];
    env := states[i].sessions[k].env;
    var r := StartedBefore(states, events, i, k);
    SessionStays(states, events, r, i, k, states[r].sessions[k].env);
    m := CountedBefore(states, events, r, k);
    LiveAfterZeroExactly(config, states, events, m, i, env);
  }

  // ---------------------------------------------------------------- what the code does not promise

  /** A stop is on its way for session k's environment, or has been made. */
  ghost predicate StopDue(s: State, k: nat, env: string) {
    k in s.stopTasks || env in s.stops
  }

  lemma TaskRuns(tasks: seq<nat>, n: nat, k: nat)
    requires n < |tasks| && k in tasks
    ensures k == tasks[n] || k in tasks[..n] + tasks[n + 1..]
  {
    var i :| 0 <= i < |tasks| && tasks[i] == k;
    if i < n {
      assert tasks[..n][i] == k;
    } else if i > n {
      assert tasks[n + 1..][i - n - 1] == k;
    }
  }

  lemma StopDueStep(config: Config, s: State, e: Event, k: nat, env: string)
    requires Enabled(s, e) && Has(s, k, env) && StopDue(s, k, env)
    ensures StopDue(Apply(config, s, e), k, env)
  {
    if e.RunsStop? && k in s.stopTasks {
      TaskRuns(s.stopTasks, e.n, k);
    }
  }

  lemma StopStarted(config: Config, s: State, k: nat, env: string)
    requires config.stopOnLast && config.canStop && Enabled(s, Reacts(k))
    requires Has(s, k, env) && s.sessions[k].pc == Counted(0)
    ensures StopDue(Apply(config, s, Reacts(k)), k, env)
  {}

  /** With stop_on_last_disconnect on and a provider that can stop, every release that read a count of
      zero has its stop called, or still on its way. */
  lemma {:induction false} StopFollowsZero(config: Config, states: seq<State>, events: seq<Event>, r: nat, i: nat,
        k: nat, env: string)
    requires Run(config, states, events) && r < i <= |events|
    requires config.stopOnLast && config.canStop
    requires events[r] == Reacts(k) && Has(states[r], k, env) && states[r].sessions[k].pc == Counted(0)
    ensures StopDue(states[i], k, env)
    decreases i
  {
    if i == r + 1 {
      StopStarted(config, states[r], k, env);
    } else {
      StopFollowsZero(config, states, events, r, i - 1, k, env);
      RunLives(config, states, events);
      SessionStays(states, events, r, i - 1, k, env);
      StopDueStep(config, states[i - 1], events[i - 1], k, env);
    }
  }

  /** Extends a run by one step. */
  lemma Extend(config: Config, states: seq<State>, events: seq<Event>, e: Event)
    returns (states': seq<State>, events': seq<Event>)
    requires Run(config, states, events) && |states| + 1 < WRAP && Enabled(states[|events|], e)
    ensures Run(config, states', events') && |events'| == |events| + 1
    ensures states'[|events'|] == Apply(config, states[|events|], e)
  {
    states', events' := states + [Apply(config, states[|events|], e)], events + [e];
  }

  const UNLIMITED := Limits(0, 0)

  lemma OneOpen(config: Config, env: string) returns (states: seq<State>, events: seq<Event>)
    requires config.limits == UNLIMITED
    ensures Run(config, states, events) && |events| == 2
    ensures states[2] == State(Registry(map[Id(1) := env], map[env := 1], 1),
                               [Sess(Id(1), env, Connected)], [First(env)], [], [], {}, {}, {})
  {
    states, events := [INITIAL], [];
    states, events := Extend(config, states, events, Opens(env));
    states, events := Extend(config, states, events, Connects(0));
  }

  lemma TwoOpen(config: Config, env: string) returns (states: seq<State>, events: seq<Event>)
    requires config.limits == UNLIMITED
    ensures Run(config, states, events) && |events| == 3
    ensures states[3] == State(Registry(map[Id(1) := env, Id(2) := env], map[env := 2], 2),
                               [Sess(Id(1), env, Connected), Sess(Id(2), env, Connecting)],
                               [First(env)], [], [], {}, {}, {})
  {
    states, events := OneOpen(config, env);
    OpenAssignsNextId(states[2].registry, config.limits, env);
    states, events := Extend(config, states, events, Opens(env));
  }

  lemma OneOfTwoRemoved(config: Config, env: string) returns (states: seq<State>, events: seq<Event>)
    requires config.limits == UNLIMITED
    ensures Run(config, states, events) && |events| == 5
    ensures states[5] == State(Registry(map[Id(2) := env], map[env := 1], 2),
                               [Sess(Id(1), env, Removed), Sess(Id(2), env, Connecting)],
                               [First(env)], [], [], {}, {}, {})
  {
    IdsDiffer(1, 2);
    states, events := TwoOpen(config, env);
    states, events := Extend(config, states, events, Swaps(0));
    assert states[4].registry.byID - {Id(1)} == map[Id(2) := env];
    states, events := Extend(config, states, events, Removes(0));
  }

  lemma OneOfTwoReleased(config: Config, env: string) returns (states: seq<State>, events: seq<Event>)
    requires config.limits == UNLIMITED
    ensures Run(config, states, events) && |events| == 7
    ensures states[7] == State(Registry(map[Id(2) := env], map[env := 1], 2),
                               [Sess(Id(1), env, Finished), Sess(Id(2), env, Connecting)],
                               [First(env)], [], [], {}, {}, {})
  {
    states, events := OneOfTwoRemoved(config, env);
    states, events := Extend(config, states, events, Counts(0));
    states, events := Extend(config, states, events, Reacts(0));
  }

  /** Two sessions; the connected one is released while the other is still connecting, and then
      that connect fails: the environment has no session left and nobody reacts. */
  lemma FailedConnectLosesTheLastDisconnect(config: Config, env: string)
    returns (states: seq<State>, events: seq<Event>)
    requires config.limits == UNLIMITED
    ensures Run(config, states, events)
    ensures AllOver(states[|events|], env) && env !in states[|events|].reacted && states[|events|].stopTasks == []
  {
    states, events := OneOfTwoReleased(config, env);
    states, events := Extend(config, states, events, Swaps(1));
    states, events := Extend(config, states, events, Removes(1));
    assert states[9].sessions == [Sess(Id(1), env, Finished), Sess(Id(2), env, Finished)];
    assert states[9].sessions[0].env == env;
  }

  lemma CountedZero(config: Config, env: string) returns (states: seq<State>, events: seq<Event>)
    requires config.limits == UNLIMITED
    ensures Run(config, states, events) && |events| == 5
    ensures states[5] == State(Registry(map[], map[], 1),
                               [Sess(Id(1), env, Counted(0))], [First(env), Last(env)], [], [], {env}, {}, {})
  {
    states, events := OneOpen(config, env);
    states, events := Extend(config, states, events, Swaps(0));
    assert states[3].registry.byID - {Id(1)} == map[] && states[3].registry.perEnv - {env} == map[];
    states, events := Extend(config, states, events, Removes(0));
    states, events := Extend(config, states, events, Counts(0));
  }

  /** Count and reaction are separate steps, so a session may connect in between: with
      stop_on_last_disconnect on, Provider.Stop can be called under a live session. */
  lemma StopCanHitALiveSession(config: Config, env: string) returns (states: seq<State>, events: seq<Event>)
    requires config.limits == UNLIMITED && config.stopOnLast && config.canStop
    ensures Run(config, states, events)
    ensures states[|events|].stops == [env] && CountFor(states[|events|].registry, env) == 1
  {
    states, events := CountedZero(config, env);
    OpenAssignsNextId(states[5].registry, config.limits, env);
    states, events := Extend(config, states, events, Opens(env));
    states, events := Extend(config, states, events, Connects(1));
    states, events := Extend(config, states, events, Reacts(0));
    states, events := Extend(config, states, events, RunsStop(0));
  }
}
