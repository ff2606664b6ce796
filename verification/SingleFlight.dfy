/** core/lifecycle: concurrent Ensure calls for one environment share one operation.

    The shared part (the `ops` map and the operations) changes only in the three sections that
    hold Manager.mu, in `op.cancel()` and in `close(op.done)`. Each of those is one atomic step
    here; between them any other goroutine may run. */
module SingleFlight {
  import opened Wrappers

  /** The environment and error pair an operation publishes; its content plays no part. */
  type Outcome = Result<string, string>

  datatype Operation = Operation(env: string, waiters: int, outcome: Option<Outcome>, done: bool, cancelled: bool)

  datatype Shared = Shared(ops: map<string, nat>, table: seq<Operation>)
  {
    ghost predicate Registered(o: nat) {
      o < |table| && table[o].env in ops && ops[table[o].env] == o
    }
  }

  // ---------------------------------------------------------------- sections under Manager.mu

  /** Joins the operation registered for `env`, or registers a new one with one waiter. */
  function Join(s: Shared, env: string): (Shared, nat, bool)
    requires env in s.ops ==> s.ops[env] < |s.table|
  {
    if env in s.ops then
      var o := s.ops[env];
      (s.(table := s.table[o := s.table[o].(waiters := s.table[o].waiters + 1)]), o, true)
    else
      var o := |s.table|;
      (Shared(s.ops[env := o], s.table + [Operation(env, 1, None, false, false)]), o, false)
  }

  /** One caller leaves; the last one to abandon the operation also unregisters it. */
  function Release(s: Shared, o: nat, abandoned: bool): (Shared, bool)
    requires o < |s.table|
  {
    var op := s.table[o].(waiters := s.table[o].waiters - 1);
    var orphaned := abandoned && op.waiters == 0;
    var ops := if orphaned && op.env in s.ops && s.ops[op.env] == o then s.ops - {op.env} else s.ops;
    (Shared(ops, s.table[o := op]), orphaned)
  }

  /** The runner stores the result and unregisters its own operation, if still registered. */
  function Publish(s: Shared, o: nat, outcome: Outcome): Shared
    requires o < |s.table|
  {
    var op := s.table[o].(outcome := Some(outcome));
    Shared(if op.env in s.ops && s.ops[op.env] == o then s.ops - {op.env} else s.ops, s.table[o := op])
  }

  function Cancel(s: Shared, o: nat): Shared
    requires o < |s.table|
  {
    s.(table := s.table[o := s.table[o].(cancelled := true)])
  }

  function Close(s: Shared, o: nat): Shared
    requires o < |s.table|
  {
    s.(table := s.table[o := s.table[o].(done := true)])
  }

  // ---------------------------------------------------------------- the sections as the code has them

  class Op {
    ghost const id: nat
    const env: string
    var waiters: int
    var outcome: Option<Outcome>
    var done: bool
    var cancelled: bool

    constructor (ghost id: nat, env: string)
      ensures this.id == id && Record() == Operation(env, 1, None, false, false)
    {
      this.id, this.env := id, env;
      waiters, outcome, done, cancelled := 1, None, false, false;
    }

    ghost function Record(): Operation
      reads this
    {
      Operation(env, waiters, outcome, done, cancelled)
    }
  }

  class Manager {
    var ops: map<string, Op>
    ghost var all: seq<Op>

    ghost predicate Valid()
      reads this
    {
      && (forall i :: 0 <= i < |all| ==> all[i].id == i)
      && (forall env :: env in ops ==> ops[env] in all && ops[env].id < |all| && all[ops[env].id] == ops[env])
    }

    ghost function Registry(): map<string, nat>
      reads this
    {
      map env | env in ops :: ops[env].id
    }

    ghost function Table(): seq<Operation>
      reads this, all
    {
      seq(|all|, i requires 0 <= i < |all| reads this, all => all[i].Record())
    }

    ghost function State(): Shared
      reads this, all
    {
      Shared(Registry(), Table())
    }

    constructor ()
      ensures Valid() && State() == Shared(map[], [])
    {
      ops, all := map[], [];
    }

    method JoinOrCreate(env: string) returns (op: Op, joined: bool)
      requires Valid()
      modifies this, all
      ensures Valid() && op in all && all[op.id] == op
      ensures (State(), op.id, joined) == Join(old(State()), env)
      ensures old(all) <= all && fresh(all[|old(all)|..])
    {
      if env in ops {
        op, joined := ops[env], true;
        op.waiters := op.waiters + 1;
        assert Table() == old(Table())[op.id := op.Record()];
      } else {
        op := new Op(|all|, env);
        joined := false;
        ops := ops[env := op];
        all := all + [op];
        assert Table() == old(Table()) + [op.Record()];
        assert Registry() == old(Registry())[env := op.id];
      }
    }

    method ReleaseSection(op: Op, abandoned: bool) returns (orphaned: bool)
      requires Valid() && op in all && all[op.id] == op
      modifies this, op
      ensures Valid() && all == old(all)
      ensures (State(), orphaned) == Release(old(State()), op.id, abandoned)
    {
      op.waiters := op.waiters - 1;
      orphaned := abandoned && op.waiters == 0;
      if orphaned && op.env in ops && ops[op.env] == op {
        ops := ops - {op.env};
        assert Registry() == old(Registry()) - {op.env};
      }
      assert Table() == old(Table())[op.id := op.Record()];
    }

    method PublishSection(op: Op, outcome: Outcome)
      requires Valid() && op in all && all[op.id] == op
      modifies this, op
      ensures Valid() && all == old(all)
      ensures State() == Publish(old(State()), op.id, outcome)
      ensures op.outcome == Some(outcome)
    {
      op.outcome := Some(outcome);
      if op.env in ops && ops[op.env] == op {
        ops := ops - {op.env};
        assert Registry() == old(Registry()) - {op.env};
      }
      assert Table() == old(Table())[op.id := op.Record()];
    }
  }

  // ---------------------------------------------------------------- the protocol

  datatype Exit = ByDone | ByContext

  /** Where one Ensure call stands: about to spawn the runner, at the select, past it but not yet
      released, about to cancel as the last to leave, about to read the result, returned. */
  datatype Pc =
    | Spawning
    | Waiting
    | Leaving(exit: Exit)
    | Cancelling
    | Reading
    | Returned(exit: Exit, outcome: Option<Outcome>)

  datatype Caller = Caller(op: nat, pc: Pc, contextEnded: bool)

  /** Where an operation's runEnsure goroutine stands. */
  datatype Runner = NotStarted | Working | Published | CancelDone | Finished

  datatype State = State(shared: Shared, runners: seq<Runner>, callers: seq<Caller>)

  datatype Event =
    | Enter(env: string)
    | Spawn(c: nat)
    | ContextEnds(c: nat)
    | SelectDone(c: nat)
    | SelectContext(c: nat)
    | Leave(c: nat)
    | CancelOrphan(c: nat)
    | Read(c: nat)
    | Publishes(o: nat, outcome: Outcome)
    | RunnerCancels(o: nat)
    | RunnerCloses(o: nat)

  const INITIAL := State(Shared(map[], []), [], [])

  predicate At(s: State, c: nat, pc: Pc) {
    c < |s.callers| && s.callers[c].pc == pc && s.callers[c].op < |s.shared.table| == |s.runners|
  }

  predicate Enabled(s: State, e: Event) {
    match e
    case Enter(env) => env != "" && (env in s.shared.ops ==> s.shared.ops[env] < |s.shared.table|)
    case Spawn(c) => At(s, c, Spawning)
    case ContextEnds(c) => c < |s.callers|
    case SelectDone(c) => At(s, c, Waiting) && s.shared.table[s.callers[c].op].done
    case SelectContext(c) => At(s, c, Waiting) && s.callers[c].contextEnded
    case Leave(c) => At(s, c, Leaving(ByDone)) || At(s, c, Leaving(ByContext))
    case CancelOrphan(c) => At(s, c, Cancelling)
    case Read(c) => At(s, c, Reading)
    case Publishes(o, _) => o < |s.shared.table| == |s.runners| && s.runners[o] == Working
    case RunnerCancels(o) => o < |s.shared.table| == |s.runners| && s.runners[o] == Published
    case RunnerCloses(o) => o < |s.shared.table| == |s.runners| && s.runners[o] == CancelDone
  }

  function Moved(s: State, c: nat, pc: Pc): State
    requires c < |s.callers|
  {
    s.(callers := s.callers[c := s.callers[c].(pc := pc)])
  }

  function Apply(s: State, e: Event): State
    requires Enabled(s, e)
  {
    match e
    case Enter(env) =>
      var (shared, o, joined) := Join(s.shared, env);
      State(shared, if joined then s.runners else s.runners + [NotStarted],
            s.callers + [Caller(o, if joined then Waiting else Spawning, false)])
    case Spawn(c) =>
      Moved(s.(runners := s.runners[s.callers[c].op := Working]), c, Waiting)
    case ContextEnds(c) =>
      s.(callers := s.callers[c := s.callers[c].(contextEnded := true)])
    case SelectDone(c) => Moved(s, c, Leaving(ByDone))
    case SelectContext(c) => Moved(s, c, Leaving(ByContext))
    case Leave(c) =>
      var abandoned := s.callers[c].pc.exit == ByContext;
      var (shared, orphaned) := Release(s.shared, s.callers[c].op, abandoned);
      var pc := if orphaned then Cancelling else if abandoned then Returned(ByContext, None) else Reading;
      Moved(s.(shared := shared), c, pc)
    case CancelOrphan(c) =>
      Moved(s.(shared := Cancel(s.shared, s.callers[c].op)), c, Returned(ByContext, None))
    case Read(c) => Moved(s, c, Returned(ByDone, s.shared.table[s.callers[c].op].outcome))
    case Publishes(o, outcome) =>
      s.(shared := Publish(s.shared, o, outcome), runners := s.runners[o := Published])
    case RunnerCancels(o) =>
      s.(shared := Cancel(s.shared, o), runners := s.runners[o := CancelDone])
    case RunnerCloses(o) =>
      s.(shared := Close(s.shared, o), runners := s.runners[o := Finished])
  }

  // ---------------------------------------------------------------- invariant

  predicate Attached(caller: Caller, o: nat) {
    caller.op == o && (caller.pc.Spawning? || caller.pc.Waiting? || caller.pc.Leaving?)
  }

  ghost function Waiters(callers: seq<Caller>, o: nat): set<nat> {
    set c: nat | c < |callers| && Attached(callers[c], o)
  }

  /** Every operation's counter is the number of its callers that have not released it. */
  ghost predicate CountersExact(s: State) {
    forall o: nat :: o < |s.shared.table| ==> s.shared.table[o].waiters == |Waiters(s.callers, o)|
  }

  /** Whatever can be joined is live: unpublished, not done, not cancelled, with a waiter. */
  ghost predicate RegisteredLive(s: State) {
    forall env :: env in s.shared.ops ==>
      && s.shared.ops[env] < |s.shared.table|
      && var op := s.shared.table[s.shared.ops[env]];
         op.env == env && op.outcome.None? && !op.done && !op.cancelled && op.waiters >= 1
  }

  ghost predicate CancelPending(s: State, o: nat) {
    exists c :: 0 <= c < |s.callers| && s.callers[c].op == o && s.callers[c].pc == Cancelling
  }

  /** An unpublished operation out of the map was abandoned by all, and its cancel is on the way. */
  ghost predicate AbandonedOnlyWhenEmpty(s: State) {
    forall o: nat :: o < |s.shared.table| && s.shared.table[o].outcome.None? && !s.shared.Registered(o) ==>
      s.shared.table[o].waiters == 0 && (s.shared.table[o].cancelled || CancelPending(s, o))
  }

  ghost predicate RunnerAgrees(op: Operation, r: Runner) {
    && (op.outcome.Some? <==> r.Published? || r.CancelDone? || r.Finished?)
    && (op.done <==> r.Finished?)
    && (r.CancelDone? || r.Finished? ==> op.cancelled)
  }

  ghost predicate RunnersAgree(s: State) {
    && |s.runners| == |s.shared.table|
    && forall o :: 0 <= o < |s.runners| ==> RunnerAgrees(s.shared.table[o], s.runners[o])
  }

  ghost predicate CallerAgrees(s: State, caller: Caller) {
    && caller.op < |s.shared.table| == |s.runners|
    && var op := s.shared.table[caller.op];
    match caller.pc
    case Spawning => s.runners[caller.op] == NotStarted
    case Waiting => true
    case Leaving(exit) => if exit.ByDone? then op.done else caller.contextEnded
    case Cancelling => caller.contextEnded && op.waiters == 0 && !s.shared.Registered(caller.op)
    case Reading => op.done
    case Returned(exit, outcome) =>
      if exit.ByDone? then op.done && outcome == op.outcome else caller.contextEnded && outcome.None?
  }

  ghost predicate CallersAgree(s: State) {
    && (forall c :: 0 <= c < |s.callers| ==> CallerAgrees(s, s.callers[c]))
    && (forall c, d :: 0 <= c < d < |s.callers| && s.callers[c].pc == Spawning && s.callers[d].pc == Spawning
          ==> s.callers[c].op != s.callers[d].op)
  }

  ghost predicate Inv(s: State) {
    CountersExact(s) && RegisteredLive(s) && AbandonedOnlyWhenEmpty(s) && RunnersAgree(s) && CallersAgree(s)
  }

  // ---------------------------------------------------------------- counting

  lemma WaitersAfterMove(callers: seq<Caller>, c: nat, caller: Caller, o: nat)
    requires c < |callers|
    ensures |Waiters(callers[c := caller], o)|
         == |Waiters(callers, o)| - (if Attached(callers[c], o) then 1 else 0) + (if Attached(caller, o) then 1 else 0)
  {
    var before, after := Waiters(callers, o), Waiters(callers[c := caller], o);
    assert after == if Attached(caller, o) then before + {c} else before - {c};
  }

  lemma WaitersAfterEnter(callers: seq<Caller>, caller: Caller, o: nat)
    ensures |Waiters(callers + [caller], o)| == |Waiters(callers, o)| + (if Attached(caller, o) then 1 else 0)
  {
    var before, after := Waiters(callers, o), Waiters(callers + [caller], o);
    assert |callers| !in before;
    assert after == if Attached(caller, o) then before + {|callers|} else before;
  }

  lemma NobodyWaits(callers: seq<Caller>, o: nat)
    requires forall c :: 0 <= c < |callers| ==> callers[c].op != o
    ensures Waiters(callers, o) == {}
  {}

  lemma CountersAfterMove(s: State, c: nat, s': State)
    requires CountersExact(s) && c < |s.callers|
    requires exists caller :: s'.callers == s.callers[c := caller] && caller.op == s.callers[c].op
    requires |s'.shared.table| == |s.shared.table|
    requires forall o: nat :: o < |s.shared.table| ==>
      s'.shared.table[o].waiters == s.shared.table[o].waiters
        + (if Attached(s'.callers[c], o) then 1 else 0) - (if Attached(s.callers[c], o) then 1 else 0)
    ensures CountersExact(s')
  {
    forall o: nat | o < |s.shared.table| ensures s'.shared.table[o].waiters == |Waiters(s'.callers, o)| {
      WaitersAfterMove(s.callers, c, s'.callers[c], o);
    }
  }

  /** Pending cancels survive a step that changes no caller, or only one that is not cancelling. */
  lemma PendingSurvives(s: State, s': State, o: nat, except: int)
    requires CancelPending(s, o) && |s.callers| <= |s'.callers|
    requires forall c :: 0 <= c < |s.callers| && c != except ==>
               s'.callers[c].op == s.callers[c].op && s'.callers[c].pc == s.callers[c].pc
    requires 0 <= except < |s.callers| ==> s.callers[except].pc != Cancelling
    ensures CancelPending(s', o)
  {
    var c :| 0 <= c < |s.callers| && s.callers[c].op == o && s.callers[c].pc == Cancelling;
    assert s'.callers[c].pc == Cancelling;
  }

  // ---------------------------------------------------------------- every step keeps the invariant

  lemma EnterCounters(s: State, env: string)
    requires Inv(s) && Enabled(s, Enter(env))
    ensures CountersExact(Apply(s, Enter(env)))
  {
    var s' := Apply(s, Enter(env));
    var caller := s'.callers[|s.callers|];
    forall p: nat | p < |s'.shared.table| ensures s'.shared.table[p].waiters == |Waiters(s'.callers, p)| {
      WaitersAfterEnter(s.callers, caller, p);
      if p == |s.shared.table| {
        forall c | 0 <= c < |s.callers| ensures s.callers[c].op != p { assert CallerAgrees(s, s.callers[c]); }
        NobodyWaits(s.callers, p);
      }
    }
  }

  lemma EnterAbandoned(s: State, env: string)
    requires Inv(s) && Enabled(s, Enter(env))
    ensures AbandonedOnlyWhenEmpty(Apply(s, Enter(env)))
  {
    var s' := Apply(s, Enter(env));
    forall p: nat | p < |s'.shared.table| && s'.shared.table[p].outcome.None? && !s'.shared.Registered(p)
      ensures s'.shared.table[p].waiters == 0 && (s'.shared.table[p].cancelled || CancelPending(s', p))
    {
      assert p < |s.shared.table| && !s.shared.Registered(p);
      if CancelPending(s, p) {
        PendingSurvives(s, s', p, -1);
      }
    }
  }

  lemma EnterCallers(s: State, env: string)
    requires Inv(s) && Enabled(s, Enter(env))
    ensures CallersAgree(Apply(s, Enter(env)))
  {
    var s' := Apply(s, Enter(env));
    forall c | 0 <= c < |s.callers| ensures CallerAgrees(s', s'.callers[c]) {
      assert CallerAgrees(s, s.callers[c]);
    }
    assert s'.callers[|s.callers|].pc == Spawning ==> s'.callers[|s.callers|].op == |s.shared.table|;
  }

  lemma EnterRegistered(s: State, env: string)
    requires Inv(s) && Enabled(s, Enter(env))
    ensures RegisteredLive(Apply(s, Enter(env))) && RunnersAgree(Apply(s, Enter(env)))
  {
    var s' := Apply(s, Enter(env));
    forall o | 0 <= o < |s.runners| ensures RunnerAgrees(s'.shared.table[o], s'.runners[o]) {
      assert RunnerAgrees(s.shared.table[o], s.runners[o]);
    }
  }

  lemma EnterKeeps(s: State, env: string)
    requires Inv(s) && Enabled(s, Enter(env))
    ensures Inv(Apply(s, Enter(env)))
  {
    EnterCounters(s, env);
    EnterRegistered(s, env);
    EnterAbandoned(s, env);
    EnterCallers(s, env);
  }

  predicate Moves(e: Event, c: nat) {
    e in {Spawn(c), ContextEnds(c), SelectDone(c), SelectContext(c), Read(c)}
  }

  lemma MoveAbandoned(s: State, e: Event, c: nat)
    requires Inv(s) && Moves(e, c) && Enabled(s, e)
    ensures AbandonedOnlyWhenEmpty(Apply(s, e))
  {
    var s' := Apply(s, e);
    forall o: nat | o < |s.shared.table| && CancelPending(s, o) ensures CancelPending(s', o) {
      PendingSurvives(s, s', o, if e.ContextEnds? then -1 else c);
    }
  }

  lemma MoveCallers(s: State, e: Event, c: nat)
    requires Inv(s) && Moves(e, c) && Enabled(s, e)
    ensures CallersAgree(Apply(s, e))
  {
    var s' := Apply(s, e);
    forall d | 0 <= d < |s.callers| ensures CallerAgrees(s', s'.callers[d]) {
      assert CallerAgrees(s, s.callers[d]);
    }
  }

  /** A caller moves on without touching the shared part. */
  lemma MoveKeeps(s: State, e: Event, c: nat)
    requires Inv(s) && Moves(e, c) && Enabled(s, e)
    ensures Inv(Apply(s, e))
  {
    CountersAfterMove(s, c, Apply(s, e));
    MoveAbandoned(s, e, c);
    MoveCallers(s, e, c);
  }

  lemma LeaverWasCounted(s: State, c: nat)
    requires Inv(s) && Enabled(s, Leave(c))
    ensures s.shared.table[s.callers[c].op].waiters >= 1
    ensures s.shared.table[s.callers[c].op].waiters == 1 ==>
      forall d :: 0 <= d < |s.callers| && d != c ==> !Attached(s.callers[d], s.callers[c].op)
  {
    var w := Waiters(s.callers, s.callers[c].op);
    assert c in w && |w - {c}| == |w| - 1;
    forall d | 0 <= d < |s.callers| && d != c && Attached(s.callers[d], s.callers[c].op) ensures |w| > 1 {
      assert d in w - {c};
    }
  }

  /** Only the last to abandon unregisters, and only the operation it was waiting on. */
  lemma LeaveRegistered(s: State, c: nat)
    requires Inv(s) && Enabled(s, Leave(c))
    ensures RegisteredLive(Apply(s, Leave(c)))
    ensures RunnersAgree(Apply(s, Leave(c)))
  {
    LeaverWasCounted(s, c);
    assert CallerAgrees(s, s.callers[c]);
  }

  lemma LeaveAbandoned(s: State, c: nat)
    requires Inv(s) && Enabled(s, Leave(c))
    ensures AbandonedOnlyWhenEmpty(Apply(s, Leave(c)))
  {
    var s' := Apply(s, Leave(c));
    assert CallerAgrees(s, s.callers[c]);
    LeaverWasCounted(s, c);
    forall p: nat | p < |s'.shared.table| && s'.shared.table[p].outcome.None? && !s'.shared.Registered(p)
      ensures s'.shared.table[p].waiters == 0 && (s'.shared.table[p].cancelled || CancelPending(s', p))
    {
      if s.shared.Registered(p) {
        assert p == s.callers[c].op && s'.callers[c].pc == Cancelling;
      } else if CancelPending(s, p) {
        PendingSurvives(s, s', p, c);
      }
    }
  }

  lemma LeaveCallers(s: State, c: nat)
    requires Inv(s) && Enabled(s, Leave(c))
    ensures CallersAgree(Apply(s, Leave(c)))
  {
    var s' := Apply(s, Leave(c));
    LeaverWasCounted(s, c);
    forall d | 0 <= d < |s.callers| ensures CallerAgrees(s', s'.callers[d]) {
      assert CallerAgrees(s, s.callers[d]);
    }
  }

  lemma LeaveKeeps(s: State, c: nat)
    requires Inv(s) && Enabled(s, Leave(c))
    ensures Inv(Apply(s, Leave(c)))
  {
    CountersAfterMove(s, c, Apply(s, Leave(c)));
    LeaveRegistered(s, c);
    LeaveAbandoned(s, c);
    LeaveCallers(s, c);
  }

  lemma CancelOrphanAbandoned(s: State, c: nat)
    requires Inv(s) && Enabled(s, CancelOrphan(c))
    ensures AbandonedOnlyWhenEmpty(Apply(s, CancelOrphan(c)))
  {
    var s' := Apply(s, CancelOrphan(c));
    forall p: nat | p < |s.shared.table| && p != s.callers[c].op && CancelPending(s, p) ensures CancelPending(s', p) {
      var d :| 0 <= d < |s.callers| && s.callers[d].op == p && s.callers[d].pc == Cancelling;
      assert s'.callers[d].pc == Cancelling;
    }
  }

  lemma CancelOrphanCallers(s: State, c: nat)
    requires Inv(s) && Enabled(s, CancelOrphan(c))
    ensures CallersAgree(Apply(s, CancelOrphan(c)))
  {
    var s' := Apply(s, CancelOrphan(c));
    forall d | 0 <= d < |s.callers| ensures CallerAgrees(s', s'.callers[d]) {
      assert CallerAgrees(s, s.callers[d]);
    }
  }

  lemma CancelOrphanKeeps(s: State, c: nat)
    requires Inv(s) && Enabled(s, CancelOrphan(c))
    ensures Inv(Apply(s, CancelOrphan(c)))
  {
    assert CallerAgrees(s, s.callers[c]);
    CountersAfterMove(s, c, Apply(s, CancelOrphan(c)));
    CancelOrphanAbandoned(s, c);
    CancelOrphanCallers(s, c);
  }

  lemma PublishAbandoned(s: State, o: nat, outcome: Outcome)
    requires Inv(s) && Enabled(s, Publishes(o, outcome))
    ensures AbandonedOnlyWhenEmpty(Apply(s, Publishes(o, outcome)))
  {
    var s' := Apply(s, Publishes(o, outcome));
    forall p: nat | p < |s'.shared.table| && s'.shared.table[p].outcome.None? && !s'.shared.Registered(p)
      ensures s'.shared.table[p].waiters == 0 && (s'.shared.table[p].cancelled || CancelPending(s', p))
    {
      assert !s.shared.Registered(p);
      if CancelPending(s, p) {
        PendingSurvives(s, s', p, -1);
      }
    }
  }

  lemma PublishKeeps(s: State, o: nat, outcome: Outcome)
    requires Inv(s) && Enabled(s, Publishes(o, outcome))
    ensures Inv(Apply(s, Publishes(o, outcome)))
  {
    var s' := Apply(s, Publishes(o, outcome));
    assert RunnerAgrees(s.shared.table[o], s.runners[o]);
    PublishAbandoned(s, o, outcome);
    forall d | 0 <= d < |s.callers| ensures CallerAgrees(s', s'.callers[d]) {
      assert CallerAgrees(s, s.callers[d]);
    }
  }

  lemma RunnerEndsKeeps(s: State, e: Event)
    requires Inv(s) && Enabled(s, e) && (e.RunnerCancels? || e.RunnerCloses?)
    ensures Inv(Apply(s, e))
  {
    var s' := Apply(s, e);
    assert RunnerAgrees(s.shared.table[e.o], s.runners[e.o]);
    forall p: nat | p < |s'.shared.table| && CancelPending(s, p) ensures CancelPending(s', p) {
      PendingSurvives(s, s', p, -1);
    }
    forall d | 0 <= d < |s.callers| ensures CallerAgrees(s', s'.callers[d]) {
      assert CallerAgrees(s, s.callers[d]);
    }
  }

  lemma StepKeeps(s: State, e: Event)
    requires Inv(s) && Enabled(s, e)
    ensures Inv(Apply(s, e))
  {
    match e
    case Enter(env) => EnterKeeps(s, env);
    case Leave(c) => LeaveKeeps(s, c);
    case CancelOrphan(c) => CancelOrphanKeeps(s, c);
    case Spawn(c) => MoveKeeps(s, e, c);
    case ContextEnds(c) => MoveKeeps(s, e, c);
    case SelectDone(c) => MoveKeeps(s, e, c);
    case SelectContext(c) => MoveKeeps(s, e, c);
    case Read(c) => MoveKeeps(s, e, c);
    case Publishes(o, outcome) => PublishKeeps(s, o, outcome);
    case RunnerCancels(o) => RunnerEndsKeeps(s, e);
    case RunnerCloses(o) => RunnerEndsKeeps(s, e);
  }

  // ---------------------------------------------------------------- whole runs

  /** Any interleaving of any number of callers and runners, from an idle manager. */
  ghost predicate Run(states: seq<State>, events: seq<Event>) {
    && |states| == |events| + 1
    && states[0] == INITIAL
    && forall i :: 0 <= i < |events| ==> Enabled(states[i], events[i]) && states[i + 1] == Apply(states[i], events[i])
  }

  lemma {:induction false} Always(states: seq<State>, events: seq<Event>, i: nat)
    requires Run(states, events) && i <= |events|
    ensures Inv(states[i])
  {
    if i > 0 {
      Always(states, events, i - 1);
      StepKeeps(states[i - 1], events[i - 1]);
    }
  }

  // ---------------------------------------------------------------- what callers can rely on

  /** Nobody joins an operation that is finished, published, cancelled or abandoned. */
  lemma JoinersFindALiveOperation(states: seq<State>, events: seq<Event>, i: nat)
    requires Run(states, events) && i < |events| && events[i].Enter? && events[i].env in states[i].shared.ops
    ensures var op := states[i].shared.table[states[i + 1].callers[|states[i].callers|].op];
            && op.env == events[i].env && op.outcome.None? && !op.done && !op.cancelled
            && op.waiters == |Waiters(states[i].callers, states[i].shared.ops[events[i].env])| >= 1
  {
    Always(states, events, i);
    assert Enabled(states[i], events[i]);
  }

  /** A caller gets an operation for the environment it asked for: the registered one, or a new one
      with itself as the only waiter. */
  lemma EnterFindsItsOperation(states: seq<State>, events: seq<Event>, i: nat)
    requires Run(states, events) && i < |events| && events[i].Enter?
    ensures |states[i + 1].callers| == |states[i].callers| + 1
    ensures var env, ops, o := events[i].env, states[i].shared.ops, states[i + 1].callers[|states[i].callers|].op;
            && o == (if env in ops then ops[env] else |states[i].shared.table|)
            && o < |states[i + 1].shared.table| && states[i + 1].shared.table[o].env == env
            && (env !in ops ==> states[i + 1].shared.table[o].waiters == 1 && states[i + 1].shared.Registered(o))
  {
    Always(states, events, i);
    Always(states, events, i + 1);
    assert Enabled(states[i], events[i]) && states[i + 1] == Apply(states[i], events[i]);
  }

  /** While somebody waits for an unpublished operation it is registered and not cancelled, so
      there is at most one such operation per environment. */
  lemma AwaitedIsRegistered(states: seq<State>, events: seq<Event>, i: nat, c: nat)
    requires Run(states, events) && i <= |events| && c < |states[i].callers|
    requires Attached(states[i].callers[c], states[i].callers[c].op)
    ensures states[i].callers[c].op < |states[i].shared.table|
    ensures var s, o := states[i].shared, states[i].callers[c].op;
            s.table[o].outcome.None? ==> s.Registered(o) && !s.table[o].cancelled && !s.table[o].done
  {
    Always(states, events, i);
    assert CallerAgrees(states[i], states[i].callers[c]);
    assert c in Waiters(states[i].callers, states[i].callers[c].op);
  }

  /** An unpublished operation is cancelled only after everybody has left it, and whoever is the
      last to leave does cancel it. */
  lemma AbandonmentIsSafe(states: seq<State>, events: seq<Event>, i: nat, o: nat)
    requires Run(states, events) && i <= |events| && o < |states[i].shared.table|
    requires states[i].shared.table[o].outcome.None?
    ensures states[i].shared.table[o].cancelled ==> Waiters(states[i].callers, o) == {}
    ensures !states[i].shared.Registered(o) ==>
      Waiters(states[i].callers, o) == {} && (states[i].shared.table[o].cancelled || CancelPending(states[i], o))
    ensures states[i].shared.Registered(o) ==> Waiters(states[i].callers, o) != {}
  {
    Always(states, events, i);
    var w := Waiters(states[i].callers, o);
    assert |w| == 0 <==> w == {};
  }

  lemma RegistrationStep(s: State, e: Event, env: string)
    requires Inv(s) && Enabled(s, e) && env in s.shared.ops
    ensures var o, ops' := s.shared.ops[env], Apply(s, e).shared.ops;
            if env in ops' then ops'[env] == o
            else match e
                 case Leave(c) => s.callers[c].op == o && s.callers[c].pc == Leaving(ByContext)
                                  && o < |Apply(s, e).shared.table| && Apply(s, e).shared.table[o].waiters == 0
                 case Publishes(p, _) => p == o
                 case _ => false
  {}

  /** A registration disappears only through its own operation's release or completion, and is
      never overwritten by another. */
  lemma RegistrationIsOwn(states: seq<State>, events: seq<Event>, i: nat, env: string)
    requires Run(states, events) && i < |events| && env in states[i].shared.ops
    ensures var o, ops' := states[i].shared.ops[env], states[i + 1].shared.ops;
            if env in ops' then ops'[env] == o
            else match events[i]
                 case Leave(c) => states[i].callers[c].op == o && states[i].callers[c].pc == Leaving(ByContext)
                                  && Waiters(states[i + 1].callers, o) == {}
                 case Publishes(p, _) => p == o
                 case _ => false
  {
    Always(states, events, i);
    Always(states, events, i + 1);
    RegistrationStep(states[i], events[i], env);
    if events[i].Leave? && env !in states[i + 1].shared.ops {
      var w := Waiters(states[i + 1].callers, states[i].shared.ops[env]);
      assert |w| == 0;
    }
  }

  lemma OutcomeStep(s: State, e: Event, o: nat)
    requires Inv(s) && Enabled(s, e) && o < |s.shared.table|
    ensures o < |Apply(s, e).shared.table|
    ensures var op, op' := s.shared.table[o], Apply(s, e).shared.table[o];
            && op'.env == op.env
            && (op.outcome.Some? ==> op'.outcome == op.outcome)
            && (op.done ==> op'.done && op.outcome.Some?)
            && (op.cancelled ==> op'.cancelled)
  {
    assert RunnerAgrees(s.shared.table[o], s.runners[o]);
  }

  /** A published result never changes again, and is there before `done` closes. */
  lemma {:induction false} OutcomeIsWrittenOnce(states: seq<State>, events: seq<Event>, i: nat, j: nat, o: nat)
    requires Run(states, events) && i <= j <= |events| && o < |states[i].shared.table|
    ensures o < |states[j].shared.table|
    ensures states[i].shared.table[o].outcome.Some? ==>
              states[j].shared.table[o].outcome == states[i].shared.table[o].outcome
    ensures states[i].shared.table[o].done ==> states[j].shared.table[o].done && states[i].shared.table[o].outcome.Some?
    decreases j
  {
    Always(states, events, i);
    assert o < |states[i].runners| && RunnerAgrees(states[i].shared.table[o], states[i].runners[o]);
    if i < j {
      OutcomeIsWrittenOnce(states, events, i, j - 1, o);
      Always(states, events, j - 1);
      OutcomeStep(states[j - 1], events[j - 1], o);
    }
  }

  /** Every caller that returns through `done` returns its operation's one result; every other
      caller returns only because its own context ended. */
  lemma CallersAgreeOnTheResult(states: seq<State>, events: seq<Event>, i: nat, c: nat, d: nat)
    requires Run(states, events) && i <= |events| && c < |states[i].callers| && d < |states[i].callers|
    requires states[i].callers[c].pc.Returned? && states[i].callers[d].pc.Returned?
    ensures states[i].callers[c].pc.exit == ByContext ==> states[i].callers[c].contextEnded
    ensures states[i].callers[c].pc.exit == ByDone ==> states[i].callers[c].pc.outcome.Some?
    ensures states[i].callers[c].op == states[i].callers[d].op
         && states[i].callers[c].pc.exit == ByDone && states[i].callers[d].pc.exit == ByDone
         ==> states[i].callers[c].pc.outcome == states[i].callers[d].pc.outcome
  {
    Always(states, events, i);
    var s := states[i];
    assert CallerAgrees(s, s.callers[c]) && CallerAgrees(s, s.callers[d]);
    assert RunnerAgrees(s.shared.table[s.callers[c].op], s.runners[s.callers[c].op]);
  }

  // ---------------------------------------------------------------- whose result it is

  /** A result is only ever stored by its own runner, as the runner computed it. */
  lemma OutcomeFromStep(s: State, e: Event, o: nat)
    requires Enabled(s, e) && o < |Apply(s, e).shared.table| && Apply(s, e).shared.table[o].outcome.Some?
    ensures var outcome := Apply(s, e).shared.table[o].outcome;
            (o < |s.shared.table| && s.shared.table[o].outcome == outcome) || e == Publishes(o, outcome.value)
  {}

  lemma {:induction false} OutcomeWasPublished(states: seq<State>, events: seq<Event>, i: nat, o: nat) returns (j: nat)
    requires Run(states, events) && i <= |events| && o < |states[i].shared.table|
    requires states[i].shared.table[o].outcome.Some?
    ensures j < i && events[j] == Publishes(o, states[i].shared.table[o].outcome.value)
  {
    assert i > 0;
    OutcomeFromStep(states[i - 1], events[i - 1], o);
    j := i - 1;
    if events[j] != Publishes(o, states[i].shared.table[o].outcome.value) {
      j := OutcomeWasPublished(states, events, i - 1, o);
    }
  }

  lemma PublishStep(s: State, o: nat, outcome: Outcome)
    requires Enabled(s, Publishes(o, outcome))
    ensures o < |Apply(s, Publishes(o, outcome)).shared.table|
    ensures Apply(s, Publishes(o, outcome)).shared.table[o].outcome == Some(outcome)
  {}

  /** A runner publishes at most once. */
  lemma PublishedOnce(states: seq<State>, events: seq<Event>, j: nat, k: nat, o: nat)
    requires Run(states, events) && j < k < |events| && events[j].Publishes? && events[j].o == o
    ensures !(events[k].Publishes? && events[k].o == o)
  {
    PublishStep(states[j], o, events[j].outcome);
    OutcomeIsWrittenOnce(states, events, j + 1, k, o);
    Always(states, events, k);
    assert Enabled(states[k], events[k]);
    assert RunnerAgrees(states[k].shared.table[o], states[k].runners[o]);
  }

  /** What a caller gets through `done` is what the runner of its operation computed: exactly one
      publication of that operation precedes, and its pair is the one returned. */
  lemma ReturnedIsPublished(states: seq<State>, events: seq<Event>, i: nat, c: nat) returns (j: nat, outcome: Outcome)
    requires Run(states, events) && i <= |events| && c < |states[i].callers|
    requires states[i].callers[c].pc.Returned? && states[i].callers[c].pc.exit == ByDone
    ensures j < i && events[j] == Publishes(states[i].callers[c].op, outcome)
    ensures states[i].callers[c].pc.outcome == Some(outcome)
    ensures forall k :: 0 <= k < i && events[k].Publishes? && events[k].o == states[i].callers[c].op ==> k == j
  {
    Always(states, events, i);
    var s, o := states[i], states[i].callers[c].op;
    assert CallerAgrees(s, s.callers[c]) && RunnerAgrees(s.shared.table[o], s.runners[o]);
    j := OutcomeWasPublished(states, events, i, o);
    outcome := events[j].outcome;
    forall k | 0 <= k < i && events[k].Publishes? && events[k].o == o ensures k == j {
      if k < j {
        PublishedOnce(states, events, k, j, o);
      } else if j < k {
        PublishedOnce(states, events, j, k, o);
      }
    }
  }

  // ---------------------------------------------------------------- what does not hold

  lemma Extend(states: seq<State>, events: seq<Event>, e: Event) returns (states': seq<State>, events': seq<Event>)
    requires Run(states, events) && Enabled(states[|events|], e)
    ensures Run(states', events') && |events'| == |events| + 1
    ensures states'[|events'|] == Apply(states[|events|], e)
  {
    states', events' := states + [Apply(states[|events|], e)], events + [e];
  }

  lemma OneOrphan(env: string) returns (states: seq<State>, events: seq<Event>)
    requires env != ""
    ensures Run(states, events)
    ensures states[|events|] == State(Shared(map[], [Operation(env, 0, None, false, false)]), [Working],
                                      [Caller(0, Cancelling, true)])
  {
    states, events := [INITIAL], [];
    states, events := Extend(states, events, Enter(env));
    states, events := Extend(states, events, Spawn(0));
    states, events := Extend(states, events, ContextEnds(0));
    states, events := Extend(states, events, SelectContext(0));
    assert states[4] == State(Shared(map[env := 0], [Operation(env, 1, None, false, false)]), [Working],
                              [Caller(0, Leaving(ByContext), true)]);
    states, events := Extend(states, events, Leave(0));
    assert map[env := 0] - {env} == map[];
  }

  /** An abandoned runner may still be at work, not even cancelled yet, next to a fresh one for the
      same environment: only registered operations are unique. */
  lemma OrphanMayOverlap(env: string) returns (states: seq<State>, events: seq<Event>)
    requires env != ""
    ensures Run(states, events)
    ensures var s := states[|events|];
            && s.runners == [Working, Working] && |s.shared.table| == 2
            && s.shared.table[0].env == s.shared.table[1].env == env
            && !s.shared.table[0].cancelled && s.shared.Registered(1)
  {
    states, events := OneOrphan(env);
    states, events := Extend(states, events, Enter(env));
    states, events := Extend(states, events, Spawn(1));
  }
}
