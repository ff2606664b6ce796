/** What the calls of one ensure run look like, said without the monitor. The laws hold for every
    log the monitor accepts, so for every prefix of a run as well. */
module EnsureTrace {
  import opened Wrappers
  import opened Provider
  import opened Phases
  import opened WaitFor
  import opened Ensure

  ghost predicate Accepted(autoCreate: bool, handle: string, calls: seq<Call>) {
    Follow(autoCreate, handle, calls).at != Wrong
  }

  lemma FollowOneMore(autoCreate: bool, handle: string, calls: seq<Call>, call: Call)
    ensures var s := Follow(autoCreate, handle, calls);
            Follow(autoCreate, handle, calls + [call]) == Step(autoCreate, handle, s, call)
  {
    assert (calls + [call])[..|calls|] == calls;
  }

  /** Nothing mends a call out of place. */
  lemma {:induction false} PrefixesAreAccepted(autoCreate: bool, handle: string, calls: seq<Call>, n: nat)
    requires n <= |calls| && Accepted(autoCreate, handle, calls)
    ensures Accepted(autoCreate, handle, calls[..n])
  {
    if n < |calls| {
      PrefixesAreAccepted(autoCreate, handle, calls[..|calls| - 1], n);
      assert calls[..|calls| - 1][..n] == calls[..n];
    } else {
      assert calls[..n] == calls;
    }
  }

  // ---------------------------------------------------------------- what was seen last

  /** The environment a call yields: a lookup, the account's only environment, or a new one. */
  function Yield(call: Call): Option<Environment> {
    match call
    case Get(_, reply) => if reply.Ok? then Some(reply.value) else None
    case List(envs) => if envs.Ok? && |envs.value| == 1 then Some(envs.value[0]) else None
    case Create(_, reply) => if reply.Ok? then Some(reply.value) else None
    case Start(_, _) => None
  }

  function LastSeen(calls: seq<Call>): Option<Environment> {
    if calls == [] then None
    else if Yield(calls[|calls| - 1]).Some? then Yield(calls[|calls| - 1])
    else LastSeen(calls[..|calls| - 1])
  }

  lemma SeenOneMore(calls: seq<Call>, call: Call)
    ensures LastSeen(calls + [call]) == if Yield(call).Some? then Yield(call) else LastSeen(calls)
  {
    assert (calls + [call])[..|calls|] == calls;
  }

  // ---------------------------------------------------------------- the shape of a run

  /** The six parts of a run, in order. */
  datatype Parts = Parts(gets: seq<Call>, lists: seq<Call>, creates: seq<Call>,
                         stops: seq<Call>, starts: seq<Call>, polls: seq<Call>)

  function Search(p: Parts): seq<Call> {
    p.gets + p.lists + p.creates
  }

  function BeforeStart(p: Parts): seq<Call> {
    Search(p) + p.stops
  }

  function Whole(p: Parts): seq<Call> {
    BeforeStart(p) + p.starts + p.polls
  }

  ghost predicate AllGets(calls: seq<Call>, id: string) {
    forall i :: 0 <= i < |calls| ==> calls[i].Get? && calls[i].id == id
  }

  ghost predicate NotFoundLast(gets: seq<Call>) {
    gets != [] && var call := gets[|gets| - 1]; call.Get? && call.reply.Err? && call.reply.error.notFound
  }

  predicate Passing(call: Call) {
    call.Get? && call.reply.Err? && call.reply.error.temporary
  }

  ghost predicate AllPassing(calls: seq<Call>) {
    forall i :: 0 <= i < |calls| ==> Passing(calls[i])
  }

  /** One to three lookups of the handle, tried again only after a temporary failure; then, if it
      was not found, the list; then, if that did not show a sole survivor and creating is allowed,
      one creation. */
  ghost predicate GoodSearch(autoCreate: bool, handle: string, p: Parts) {
    && |p.gets| <= 3 && AllGets(p.gets, handle) && (p.gets != [] ==> AllPassing(p.gets[..|p.gets| - 1]))
    && (p.lists != [] ==> NotFoundLast(p.gets) && |p.lists| == 1 && p.lists[0].List?)
    && (p.creates != [] ==>
          && autoCreate && p.lists != [] && !Sole(p.lists[0].environments)
          && |p.creates| == 1 && p.creates[0].Create? && p.creates[0].name == handle)
  }

  /** Polls before the start only for an environment found STOPPING; at most one start, of the
      environment last seen and then startable; no further polls of one that had to be started. */
  ghost predicate GoodRaise(p: Parts) {
    var found, seen := LastSeen(Search(p)), LastSeen(BeforeStart(p));
    && (p.stops != [] ==> found.Some? && found.value.state == StateStopping && AllGets(p.stops, found.value.id))
    && (p.starts != [] ==>
          && seen.Some? && seen.value.state in {StateStopped, StateUnknown, StateFailed}
          && |p.starts| == 1 && p.starts[0].Start? && p.starts[0].id == seen.value.id)
    && (p.polls != [] ==>
          && seen.Some? && seen.value.state !in {StateRunning, StateStopping}
          && AllGets(p.polls, seen.value.id)
          && (seen.value.state in {StateStopped, StateUnknown, StateFailed} ==>
                p.starts != [] && p.starts[0].error.None?))
  }

  ghost predicate Shaped(autoCreate: bool, handle: string, p: Parts) {
    GoodSearch(autoCreate, handle, p) && GoodRaise(p)
  }

  /** What the run counted: the starts and creations that succeeded, and the environment it found. */
  ghost predicate Counted(s: Progress, p: Parts) {
    && s.starts == (if p.starts != [] && p.starts[0].Start? && p.starts[0].error.None? then 1 else 0)
    && s.creates == (if p.creates != [] && p.creates[0].Create? && p.creates[0].reply.Ok? then 1 else 0)
    && s.first == LastSeen(Search(p))
  }

  /** Where the run stands, told by its parts. */
  ghost predicate Stands(autoCreate: bool, s: Progress, p: Parts) {
    var found, seen := LastSeen(Search(p)), LastSeen(BeforeStart(p));
    match s.at
    case Looking(tries) =>
      && p == Parts(p.gets, [], [], [], [], []) && |p.gets| == tries < 3
      && AllPassing(p.gets) && found.None?
    case Missing(_) => p == Parts(p.gets, [], [], [], [], []) && NotFoundLast(p.gets) && found.None?
    case Creating =>
      && autoCreate && p == Parts(p.gets, p.lists, [], [], [], [])
      && p.lists != [] && p.lists[0].List? && !Sole(p.lists[0].environments) && found.None?
    case StopWait(id, _) =>
      && p.starts == p.polls == []
      && found.Some? && found.value.id == id && found.value.state == StateStopping
    case Starting(id) =>
      && p.starts == p.polls == []
      && found.Some? && seen.Some? && seen.value.id == id && Startable(seen.value.state)
    case RunWait(id, _) =>
      && seen.Some? && seen.value.id == id && !Connectable(seen.value.state) && seen.value.state != StateStopping
      && (Startable(seen.value.state) ==> p.starts != [] && p.starts[0].Start? && p.starts[0].error.None?)
      && found.Some?
    case Done(env) => LastSeen(Whole(p)) == Some(env) && Connectable(env.state)
    case _ => true
  }

  ghost predicate Explains(autoCreate: bool, handle: string, s: Progress, calls: seq<Call>, p: Parts) {
    Whole(p) == calls && Shaped(autoCreate, handle, p) && Counted(s, p) && Stands(autoCreate, s, p)
  }

  lemma GetsShaped(autoCreate: bool, handle: string, p: Parts, call: Call)
    requires p == Parts(p.gets, [], [], [], [], []) && |p.gets| < 3 && AllGets(p.gets, handle) && AllPassing(p.gets)
    requires call.Get? && call.id == handle
    ensures var p' := p.(gets := p.gets + [call]);
            && Shaped(autoCreate, handle, p')
            && Search(p') == BeforeStart(p') == Whole(p') == p.gets + [call]
  {
    var p' := p.(gets := p.gets + [call]);
    assert p'.gets[..|p'.gets| - 1] == p.gets;
  }

  lemma GrowGets(autoCreate: bool, handle: string, s: Progress, calls: seq<Call>, call: Call, p: Parts)
    returns (p': Parts)
    requires s.at.Looking? && Explains(autoCreate, handle, s, calls, p)
    requires Step(autoCreate, handle, s, call).at != Wrong
    ensures Explains(autoCreate, handle, Step(autoCreate, handle, s, call), calls + [call], p')
  {
    p' := p.(gets := p.gets + [call]);
    assert Search(p) == p.gets == calls;
    SeenOneMore(calls, call);
    GetsShaped(autoCreate, handle, p, call);
    if call.reply.Ok? {
      SettledStands(autoCreate, Step(autoCreate, handle, s, call), call.reply.value, p');
    }
  }

  lemma SettledStands(autoCreate: bool, s: Progress, env: Environment, p: Parts)
    requires Search(p) == BeforeStart(p) == Whole(p) && p.stops == p.starts == p.polls == []
    requires LastSeen(Search(p)) == Some(env) && s.at == Settle(env)
    ensures Stands(autoCreate, s, p)
  {}

  lemma GrowLists(autoCreate: bool, handle: string, s: Progress, calls: seq<Call>, call: Call, p: Parts)
    returns (p': Parts)
    requires s.at.Missing? && Explains(autoCreate, handle, s, calls, p)
    requires Step(autoCreate, handle, s, call).at != Wrong
    ensures Explains(autoCreate, handle, Step(autoCreate, handle, s, call), calls + [call], p')
  {
    SeenOneMore(calls, call);
    p' := p.(lists := [call]);
    assert Search(p) == p.gets == calls;
    assert Search(p') == BeforeStart(p') == Whole(p') == calls + [call];
  }

  lemma GrowCreates(autoCreate: bool, handle: string, s: Progress, calls: seq<Call>, call: Call, p: Parts)
    returns (p': Parts)
    requires s.at.Creating? && Explains(autoCreate, handle, s, calls, p)
    requires Step(autoCreate, handle, s, call).at != Wrong
    ensures Explains(autoCreate, handle, Step(autoCreate, handle, s, call), calls + [call], p')
  {
    SeenOneMore(calls, call);
    p' := p.(creates := [call]);
    assert Search(p) == p.gets + p.lists == calls;
    assert Search(p') == BeforeStart(p') == Whole(p') == calls + [call];
  }

  /** What one poll can do to a run. */
  lemma PollStep(goal: Goal, id: string, fails: nat, s: Progress, reply: Reply)
    requires s.first.Some?
    ensures var s' := Waited(goal, id, s, Poll(goal, id, Polling(fails), reply));
            && s'.starts == s.starts && s'.creates == s.creates && s'.first == s.first
            && if reply.Ok? && Reached(goal, reply.value.state)
               then s'.at == if goal.Up? then Done(reply.value) else AfterStop(reply.value)
               else s'.at.Dead? || exists fails': nat :: s'.at == Waiting(goal, id, fails')
  {
    var w := Poll(goal, id, Polling(fails), reply);
    if w.Polling? {
      assert Waited(goal, id, s, w).at == Waiting(goal, id, w.fails);
    }
  }

  lemma GrowStops(autoCreate: bool, handle: string, s: Progress, calls: seq<Call>, call: Call, p: Parts)
    returns (p': Parts)
    requires s.at.StopWait? && Explains(autoCreate, handle, s, calls, p)
    requires Step(autoCreate, handle, s, call).at != Wrong
    ensures Explains(autoCreate, handle, Step(autoCreate, handle, s, call), calls + [call], p')
  {
    p' := p.(stops := p.stops + [call]);
    assert calls == BeforeStart(p);
    assert AllGets(p.stops, s.at.id);
    PollStep(StopOver, s.at.id, s.at.fails, s, call.reply);
    StopsGrown(autoCreate, handle, s, Step(autoCreate, handle, s, call), LastSeen(Search(p)).value, call, p);
  }

  lemma StopsGrown(autoCreate: bool, handle: string, s: Progress, s': Progress, found: Environment, call: Call,
        p: Parts)
    requires p.starts == p.polls == [] && GoodSearch(autoCreate, handle, p) && Counted(s, p)
    requires LastSeen(Search(p)) == Some(found) && found.state == StateStopping && AllGets(p.stops, found.id)
    requires call.Get? && call.id == found.id
    requires s'.starts == s.starts && s'.creates == s.creates && s'.first == s.first
    requires
      || s'.at.Dead?
      || (s'.at.StopWait? && s'.at.id == found.id)
      || (call.reply.Ok? && Reached(StopOver, call.reply.value.state) && s'.at == AfterStop(call.reply.value))
    ensures Explains(autoCreate, handle, s', BeforeStart(p) + [call], p.(stops := p.stops + [call]))
  {
    var p' := p.(stops := p.stops + [call]);
    StopsWhole(p, call);
    SeenOneMore(BeforeStart(p), call);
    StopsExplain(autoCreate, handle, s', found, call, p');
  }

  lemma StopsWhole(p: Parts, call: Call)
    requires p.starts == p.polls == []
    ensures var p' := p.(stops := p.stops + [call]);
            BeforeStart(p') == Whole(p') == BeforeStart(p) + [call] && Search(p') == Search(p)
  {}

  lemma StopsExplain(autoCreate: bool, handle: string, s: Progress, found: Environment, call: Call, p: Parts)
    requires p.starts == p.polls == [] && p.stops != [] && GoodSearch(autoCreate, handle, p)
    requires LastSeen(Search(p)) == Some(found) && found.state == StateStopping && AllGets(p.stops, found.id)
    requires call.Get? && (call.reply.Ok? ==> LastSeen(BeforeStart(p)) == Some(call.reply.value))
    requires
      || s.at.Dead?
      || (s.at.StopWait? && s.at.id == found.id)
      || (call.reply.Ok? && Reached(StopOver, call.reply.value.state) && s.at == AfterStop(call.reply.value))
    ensures Shaped(autoCreate, handle, p) && Stands(autoCreate, s, p)
  {
    assert Whole(p) == BeforeStart(p);
  }

  lemma GrowStarts(autoCreate: bool, handle: string, s: Progress, calls: seq<Call>, call: Call, p: Parts)
    returns (p': Parts)
    requires s.at.Starting? && Explains(autoCreate, handle, s, calls, p)
    requires Step(autoCreate, handle, s, call).at != Wrong
    ensures Explains(autoCreate, handle, Step(autoCreate, handle, s, call), calls + [call], p')
  {
    p' := p.(starts := [call]);
    assert BeforeStart(p) == Whole(p) == calls;
    assert Whole(p') == calls + [call];
  }

  lemma GrowPolls(autoCreate: bool, handle: string, s: Progress, calls: seq<Call>, call: Call, p: Parts)
    returns (p': Parts)
    requires s.at.RunWait? && Explains(autoCreate, handle, s, calls, p)
    requires Step(autoCreate, handle, s, call).at != Wrong
    ensures Explains(autoCreate, handle, Step(autoCreate, handle, s, call), calls + [call], p')
  {
    SeenOneMore(calls, call);
    p' := p.(polls := p.polls + [call]);
    assert Whole(p') == calls + [call];
    PollStep(Up, s.at.id, s.at.fails, s, call.reply);
    assert Search(p') == Search(p) && BeforeStart(p') == BeforeStart(p);
    PollsExplain(autoCreate, handle, s, Step(autoCreate, handle, s, call), call, p, p');
  }

  lemma PollsExplain(autoCreate: bool, handle: string, s: Progress, s': Progress, call: Call, p: Parts, p': Parts)
    requires Shaped(autoCreate, handle, p) && s.at.RunWait? && Stands(autoCreate, s, p)
    requires p' == p.(polls := p.polls + [call]) && call.Get? && call.id == s.at.id
    requires call.reply.Ok? ==> LastSeen(Whole(p')) == Some(call.reply.value)
    requires
      || s'.at.Dead?
      || (s'.at.RunWait? && s'.at.id == s.at.id)
      || (call.reply.Ok? && Reached(Up, call.reply.value.state) && s'.at == Done(call.reply.value))
    ensures Shaped(autoCreate, handle, p') && Stands(autoCreate, s', p')
  {
    assert Search(p') == Search(p) && BeforeStart(p') == BeforeStart(p);
  }

  lemma {:induction false} Explained(autoCreate: bool, handle: string, calls: seq<Call>) returns (p: Parts)
    requires Accepted(autoCreate, handle, calls)
    ensures Explains(autoCreate, handle, Follow(autoCreate, handle, calls), calls, p)
  {
    if calls == [] {
      return Parts([], [], [], [], [], []);
    }
    var before, call := calls[..|calls| - 1], calls[|calls| - 1];
    assert calls == before + [call];
    PrefixesAreAccepted(autoCreate, handle, calls, |calls| - 1);
    p := Explained(autoCreate, handle, before);
    FollowOneMore(autoCreate, handle, before, call);
    var s := Follow(autoCreate, handle, before);
    match s.at {
      case Looking(_) => p := GrowGets(autoCreate, handle, s, before, call, p);
      case Missing(_) => p := GrowLists(autoCreate, handle, s, before, call, p);
      case Creating => p := GrowCreates(autoCreate, handle, s, before, call, p);
      case StopWait(_, _) => p := GrowStops(autoCreate, handle, s, before, call, p);
      case Starting(_) => p := GrowStarts(autoCreate, handle, s, before, call, p);
      case RunWait(_, _) => p := GrowPolls(autoCreate, handle, s, before, call, p);
      case _ => assert false;
    }
  }

  /** Every run, and every prefix of one, is one to three lookups, then at most the list, then at most
      one creation, then polls only of a stopping environment, then at most one start, then polls. */
  lemma CallsAreShaped(autoCreate: bool, handle: string, calls: seq<Call>)
    requires Accepted(autoCreate, handle, calls)
    ensures exists p ::
              && Whole(p) == calls && Shaped(autoCreate, handle, p)
              && Counted(Follow(autoCreate, handle, calls), p)
  {
    var p := Explained(autoCreate, handle, calls);
  }

  /** The same for a run itself: whatever it has called by any moment has that shape, and so had
      every prefix; the whole log explains what the run has counted and found. */
  lemma RunIsShaped(run: Run, n: nat)
    requires run.Valid() && n <= |run.calls|
    ensures exists p :: Whole(p) == run.calls[..n] && Shaped(run.autoCreate, run.handle, p)
    ensures exists p ::
              && Whole(p) == run.calls && Shaped(run.autoCreate, run.handle, p)
              && Counted(run.progress, p)
  {
    RunFollowsMonitor(run);
    CallsAreShaped(run.autoCreate, run.handle, run.calls);
    PrefixesAreAccepted(run.autoCreate, run.handle, run.calls, n);
    CallsAreShaped(run.autoCreate, run.handle, run.calls[..n]);
  }

  /** Success returns the environment seen last, and it is running. */
  lemma SuccessIsRunning(autoCreate: bool, handle: string, calls: seq<Call>)
    requires Follow(autoCreate, handle, calls).at.Done?
    ensures var env := Follow(autoCreate, handle, calls).at.env;
            LastSeen(calls) == Some(env) && env.state == StateRunning
  {
    var p := Explained(autoCreate, handle, calls);
  }

  /** A start is only ever asked of the environment seen last, and only when it is startable. */
  lemma StartIsOfAStartable(autoCreate: bool, handle: string, calls: seq<Call>, id: string, error: Option<Error>)
    requires Accepted(autoCreate, handle, calls + [Start(id, error)])
    ensures var seen := LastSeen(calls);
            seen.Some? && seen.value.id == id && seen.value.state in {StateStopped, StateUnknown, StateFailed}
  {
    FollowOneMore(autoCreate, handle, calls, Start(id, error));
    var p := Explained(autoCreate, handle, calls);
    StartingAfter(autoCreate, handle, Follow(autoCreate, handle, calls), calls, p);
  }

  lemma StartingAfter(autoCreate: bool, handle: string, s: Progress, calls: seq<Call>, p: Parts)
    requires s.at.Starting? && Explains(autoCreate, handle, s, calls, p)
    ensures var seen := LastSeen(calls);
            seen.Some? && seen.value.id == s.at.id && seen.value.state in {StateStopped, StateUnknown, StateFailed}
  {
    assert BeforeStart(p) == Whole(p);
  }

  /** A creation only ever follows a lookup that found nothing and a list without a sole survivor. */
  lemma CreateIsALastResort(autoCreate: bool, handle: string, calls: seq<Call>, name: string, reply: Reply)
    requires Accepted(autoCreate, handle, calls + [Create(name, reply)])
    ensures autoCreate && name == handle && LastSeen(calls) == None
    ensures 2 <= |calls| <= 4 && AllGets(calls[..|calls| - 1], handle) && NotFoundLast(calls[..|calls| - 1])
    ensures var last := calls[|calls| - 1];
            last.List? && (last.environments.Ok? ==> |last.environments.value| != 1)
  {
    FollowOneMore(autoCreate, handle, calls, Create(name, reply));
    var p := Explained(autoCreate, handle, calls);
    CreatingAfter(autoCreate, handle, Follow(autoCreate, handle, calls), calls, p);
  }

  lemma CreatingAfter(autoCreate: bool, handle: string, s: Progress, calls: seq<Call>, p: Parts)
    requires s.at.Creating? && Explains(autoCreate, handle, s, calls, p)
    ensures autoCreate && LastSeen(calls) == None
    ensures 2 <= |calls| <= 4 && AllGets(calls[..|calls| - 1], handle) && NotFoundLast(calls[..|calls| - 1])
    ensures calls[|calls| - 1].List? && !Sole(calls[|calls| - 1].environments)
  {
    assert Search(p) == p.gets + p.lists == Whole(p) == calls;
    assert calls[..|calls| - 1] == p.gets && calls[|calls| - 1] == p.lists[0];
  }

  ghost predicate EndsRight(s: Progress) {
    && (s.at.Done? ==> s.says != [] && s.says[|s.says| - 1] == PhaseRunning)
    && (s.at.Dead? && !s.at.why.Disabled? ==> s.says != [] && s.says[|s.says| - 1] == PhaseFailed)
    && (s.at.Looking? || s.at.Missing? || (s.at.Dead? && s.at.why.Disabled?) ==> s.says == [])
  }

  lemma WaitEndsRight(goal: Goal, id: string, fails: nat, s: Progress, reply: Reply)
    ensures EndsRight(Waited(goal, id, s, Poll(goal, id, Polling(fails), reply)))
  {}

  lemma StepEndsRight(autoCreate: bool, handle: string, s: Progress, call: Call)
    requires EndsRight(s)
    ensures EndsRight(Step(autoCreate, handle, s, call))
  {
    if s.at.StopWait? && call.Get? {
      WaitEndsRight(StopOver, s.at.id, s.at.fails, s, call.reply);
    } else if s.at.RunWait? && call.Get? {
      WaitEndsRight(Up, s.at.id, s.at.fails, s, call.reply);
    }
  }

  /** The announced phases end where the run does; a disabled creation announces nothing at all. */
  lemma {:induction false} PhasesEndRight(autoCreate: bool, handle: string, calls: seq<Call>)
    ensures EndsRight(Follow(autoCreate, handle, calls))
  {
    if calls != [] {
      var before, call := calls[..|calls| - 1], calls[|calls| - 1];
      PhasesEndRight(autoCreate, handle, before);
      StepEndsRight(autoCreate, handle, Follow(autoCreate, handle, before), call);
    }
  }

  /** An environment that has to be started is polled only after its start succeeded. */
  lemma StartedBeforePolled(autoCreate: bool, handle: string, p: Parts)
    requires Shaped(autoCreate, handle, p) && p.polls != []
    requires LastSeen(BeforeStart(p)).value.state in {StateStopped, StateUnknown, StateFailed}
    ensures p.starts != [] && p.starts[0].Start? && p.starts[0].error.None?
  {}

  // ---------------------------------------------------------------- the next call

  /** What a log leads to: one kind of call and no other, or the end with this result. */
  datatype Next =
    | AGet(id: string)
    | AList
    | ACreate(name: string)
    | AStart(id: string)
    | Over(result: Result<Environment, Failure>)

  predicate Matches(call: Call, next: Next) {
    match next
    case AGet(id) => call.Get? && call.id == id
    case AList => call.List?
    case ACreate(name) => call.Create? && call.name == name
    case AStart(id) => call.Start? && call.id == id
    case Over(_) => false
  }

  /** How a decided run ends. */
  ghost predicate EndsIn(autoCreate: bool, handle: string, calls: seq<Call>, result: Result<Environment, Failure>) {
    Follow(autoCreate, handle, calls).at == match result case Ok(env) => Done(env) case Err(why) => Dead(why)
  }

  /** A call announces these phases, and this is the only way to go on. */
  ghost predicate Leads(autoCreate: bool, handle: string, calls: seq<Call>, call: Call, says: seq<Phase>, next: Next) {
    var now := calls + [call];
    && Follow(autoCreate, handle, now).says == Follow(autoCreate, handle, calls).says + says
    && (forall then' :: Accepted(autoCreate, handle, now + [then']) <==> Matches(then', next))
    && (next.Over? ==> EndsIn(autoCreate, handle, now, next.result))
  }

  /** The call a point of the run waits for. */
  ghost predicate Awaits(handle: string, at: Point, next: Next) {
    match at
    case Looking(_) => next == AGet(handle)
    case Missing(_) => next == AList
    case Creating => next == ACreate(handle)
    case StopWait(id, _) => next == AGet(id)
    case Starting(id) => next == AStart(id)
    case RunWait(id, _) => next == AGet(id)
    case Done(env) => next == Over(Ok(env))
    case Dead(why) => next == Over(Err(why))
    case Wrong => false
  }

  lemma WaitedIsNeverWrong(goal: Goal, id: string, s: Progress, w: Wait)
    ensures Waited(goal, id, s, w).at != Wrong
  {}

  lemma AwaitedIsAccepted(autoCreate: bool, handle: string, s: Progress, call: Call, next: Next)
    requires Awaits(handle, s.at, next)
    ensures Step(autoCreate, handle, s, call).at != Wrong <==> Matches(call, next)
  {
    if s.at.StopWait? && call.Get? {
      WaitedIsNeverWrong(StopOver, s.at.id, s, Poll(StopOver, s.at.id, Polling(s.at.fails), call.reply));
    } else if s.at.RunWait? && call.Get? {
      WaitedIsNeverWrong(Up, s.at.id, s, Poll(Up, s.at.id, Polling(s.at.fails), call.reply));
    }
  }

  lemma LeadsTo(autoCreate: bool, handle: string, calls: seq<Call>, call: Call, says: seq<Phase>, next: Next)
    requires var s := Follow(autoCreate, handle, calls);
             var s' := Step(autoCreate, handle, s, call);
             Awaits(handle, s'.at, next) && s'.says == s.says + says
    ensures Leads(autoCreate, handle, calls, call, says, next)
  {
    var now := calls + [call];
    FollowOneMore(autoCreate, handle, calls, call);
    forall then' ensures Accepted(autoCreate, handle, now + [then']) <==> Matches(then', next) {
      FollowOneMore(autoCreate, handle, now, then');
      AwaitedIsAccepted(autoCreate, handle, Follow(autoCreate, handle, now), then', next);
    }
  }

  /** Something was found, and it was shutting down each time it was seen. */
  ghost predicate OnlyStopping(calls: seq<Call>) {
    && LastSeen(calls).Some?
    && forall i :: 0 <= i < |calls| && Yield(calls[i]).Some? ==> Yield(calls[i]).value.state == StateStopping
  }

  /** How many failed lookups the calls end with. */
  function FailedGets(calls: seq<Call>): nat {
    if calls == [] then 0
    else
      var last := calls[|calls| - 1];
      if last.Get? && last.reply.Err? then 1 + FailedGets(calls[..|calls| - 1]) else 0
  }

  lemma FailedOneMore(calls: seq<Call>, call: Call)
    ensures FailedGets(calls + [call]) == if call.Get? && call.reply.Err? then 1 + FailedGets(calls) else 0
  {
    assert (calls + [call])[..|calls|] == calls;
  }

  lemma StoppingOneMore(calls: seq<Call>, call: Call)
    ensures OnlyStopping(calls + [call]) <==>
      && (Yield(call).Some? ==>
            Yield(call).value.state == StateStopping && (LastSeen(calls).Some? ==> OnlyStopping(calls)))
      && (Yield(call).None? ==> OnlyStopping(calls))
  {
    var now := calls + [call];
    SeenOneMore(calls, call);
    assert now[|calls|] == call;
    assert forall i :: 0 <= i < |calls| ==> now[i] == calls[i];
    if LastSeen(calls).None? {
      NoneSeen(calls);
    }
  }

  lemma {:induction false} NoneSeen(calls: seq<Call>)
    requires LastSeen(calls).None?
    ensures forall i :: 0 <= i < |calls| ==> Yield(calls[i]).None?
  {
    if calls != [] {
      NoneSeen(calls[..|calls| - 1]);
    }
  }

  /** What the log says of the point the run has reached. */
  ghost predicate Told(at: Point, calls: seq<Call>) {
    match at
    case Looking(tries) => LastSeen(calls).None? && |calls| == tries
    case Missing(e) => LastSeen(calls).None? && calls != [] && EndsMissing(calls[|calls| - 1], e)
    case Creating => LastSeen(calls).None?
    case StopWait(_, fails) => OnlyStopping(calls) && fails == FailedGets(calls)
    case Starting(_) => LastSeen(calls).Some? && !OnlyStopping(calls)
    case RunWait(_, fails) => LastSeen(calls).Some? && !OnlyStopping(calls) && fails == FailedGets(calls)
    case _ => true
  }

  predicate EndsMissing(call: Call, e: Error) {
    call.Get? && call.reply == Err(e)
  }

  lemma ToldOneMore(autoCreate: bool, handle: string, s: Progress, calls: seq<Call>, call: Call)
    requires Told(s.at, calls)
    ensures Told(Step(autoCreate, handle, s, call).at, calls + [call])
  {
    SeenOneMore(calls, call);
    FailedOneMore(calls, call);
    StoppingOneMore(calls, call);
  }

  lemma {:induction false} RunIsTold(autoCreate: bool, handle: string, calls: seq<Call>)
    ensures Told(Follow(autoCreate, handle, calls).at, calls)
  {
    if calls != [] {
      var before, call := calls[..|calls| - 1], calls[|calls| - 1];
      assert calls == before + [call];
      RunIsTold(autoCreate, handle, before);
      ToldOneMore(autoCreate, handle, Follow(autoCreate, handle, before), before, call);
    }
  }

  /** A run begins with a lookup of the handle. */
  lemma FirstCall(autoCreate: bool, handle: string, call: Call)
    ensures Accepted(autoCreate, handle, [call]) <==> call.Get? && call.id == handle
  {
    FollowOneMore(autoCreate, handle, [], call);
    assert [] + [call] == [call];
  }

  /** A failed lookup: tried again after a temporary failure, three times in all; not found means
      the list is next; anything else is the end. */
  lemma FailedLookupLeads(autoCreate: bool, handle: string, calls: seq<Call>, id: string, e: Error)
    requires Accepted(autoCreate, handle, calls + [Get(id, Err(e))]) && LastSeen(calls) == None
    ensures var call := Get(id, Err(e));
            if e.temporary && |calls| < 2 then Leads(autoCreate, handle, calls, call, [], AGet(handle))
            else if e.notFound then Leads(autoCreate, handle, calls, call, [], AList)
            else Leads(autoCreate, handle, calls, call, [PhaseFailed], Over(Err(Refused(e))))
  {
    var call := Get(id, Err(e));
    FollowOneMore(autoCreate, handle, calls, call);
    RunIsTold(autoCreate, handle, calls);
    FailedLookup(autoCreate, handle, Follow(autoCreate, handle, calls), |calls|, id, e);
    if e.temporary && |calls| < 2 {
      LeadsTo(autoCreate, handle, calls, call, [], AGet(handle));
    } else if e.notFound {
      LeadsTo(autoCreate, handle, calls, call, [], AList);
    } else {
      LeadsTo(autoCreate, handle, calls, call, [PhaseFailed], Over(Err(Refused(e))));
    }
  }

  lemma FailedLookup(autoCreate: bool, handle: string, s: Progress, tries: nat, id: string, e: Error)
    requires s.at == Looking(tries) && id == handle
    ensures var s' := Step(autoCreate, handle, s, Get(id, Err(e)));
            if e.temporary && tries < 2 then Awaits(handle, s'.at, AGet(handle)) && s'.says == s.says + []
            else if e.notFound then Awaits(handle, s'.at, AList) && s'.says == s.says + []
            else Awaits(handle, s'.at, Over(Err(Refused(e)))) && s'.says == s.says + [PhaseFailed]
  {}

  /** A list without a sole survivor: creation if that is allowed, else the failed lookup's error. */
  lemma ListLeads(autoCreate: bool, handle: string, calls: seq<Call>, environments: Result<seq<Environment>, Error>)
    requires Accepted(autoCreate, handle, calls + [List(environments)])
    requires environments.Err? || |environments.value| != 1
    ensures calls != [] && calls[|calls| - 1].Get? && calls[|calls| - 1].reply.Err?
    ensures var call, e := List(environments), calls[|calls| - 1].reply.error;
            if autoCreate then Leads(autoCreate, handle, calls, call, [PhaseProvisioning], ACreate(handle))
            else Leads(autoCreate, handle, calls, call, [], Over(Err(Disabled(e))))
  {
    var call := List(environments);
    FollowOneMore(autoCreate, handle, calls, call);
    RunIsTold(autoCreate, handle, calls);
    if autoCreate {
      LeadsTo(autoCreate, handle, calls, call, [PhaseProvisioning], ACreate(handle));
    } else {
      LeadsTo(autoCreate, handle, calls, call, [], Over(Err(Disabled(calls[|calls| - 1].reply.error))));
    }
  }

  /** What follows from the state of an environment that is dealt with now. */
  ghost predicate StateDecides(autoCreate: bool, handle: string, calls: seq<Call>, call: Call, env: Environment) {
    match env.state
    case StateRunning => Leads(autoCreate, handle, calls, call, [PhaseRunning], Over(Ok(env)))
    case StateStopping => Leads(autoCreate, handle, calls, call, [PhaseStopping], AGet(env.id))
    case StateStopped => Leads(autoCreate, handle, calls, call, [PhaseStarting], AStart(env.id))
    case StateUnknown => Leads(autoCreate, handle, calls, call, [PhaseStarting], AStart(env.id))
    case StateFailed => Leads(autoCreate, handle, calls, call, [PhaseStarting], AStart(env.id))
    case StateStarting => Leads(autoCreate, handle, calls, call, [PhaseStarting], AGet(env.id))
    case StateProvisioning => Leads(autoCreate, handle, calls, call, [PhaseProvisioning], AGet(env.id))
    case StateNotFound => Leads(autoCreate, handle, calls, call, [PhaseUnknown], AGet(env.id))
    case StateUnavailable => Leads(autoCreate, handle, calls, call, [PhaseUnknown], AGet(env.id))
  }

  lemma SettledLeads(autoCreate: bool, handle: string, calls: seq<Call>, call: Call, env: Environment)
    requires var s := Follow(autoCreate, handle, calls);
             var s' := Step(autoCreate, handle, s, call);
             s'.at == Settle(env) && s'.says == s.says + Entry(Settle(env), env)
    ensures StateDecides(autoCreate, handle, calls, call, env)
  {
    match env.state
    case StateRunning => LeadsTo(autoCreate, handle, calls, call, [PhaseRunning], Over(Ok(env)));
    case StateStopping => LeadsTo(autoCreate, handle, calls, call, [PhaseStopping], AGet(env.id));
    case StateStopped => LeadsTo(autoCreate, handle, calls, call, [PhaseStarting], AStart(env.id));
    case StateUnknown => LeadsTo(autoCreate, handle, calls, call, [PhaseStarting], AStart(env.id));
    case StateFailed => LeadsTo(autoCreate, handle, calls, call, [PhaseStarting], AStart(env.id));
    case StateStarting => LeadsTo(autoCreate, handle, calls, call, [PhaseStarting], AGet(env.id));
    case StateProvisioning => LeadsTo(autoCreate, handle, calls, call, [PhaseProvisioning], AGet(env.id));
    case StateNotFound => LeadsTo(autoCreate, handle, calls, call, [PhaseUnknown], AGet(env.id));
    case StateUnavailable => LeadsTo(autoCreate, handle, calls, call, [PhaseUnknown], AGet(env.id));
  }

  /** The first environment, found, adopted or created: its state alone decides what is announced
      and what follows. */
  lemma FoundLeads(autoCreate: bool, handle: string, calls: seq<Call>, call: Call, env: Environment)
    requires Accepted(autoCreate, handle, calls + [call]) && LastSeen(calls) == None && Yield(call) == Some(env)
    ensures StateDecides(autoCreate, handle, calls, call, env)
  {
    FollowOneMore(autoCreate, handle, calls, call);
    RunIsTold(autoCreate, handle, calls);
    SettledLeads(autoCreate, handle, calls, call, env);
  }

  /** A poll of an environment that was never seen but shutting down: the wait is over as soon as it
      is in any other state. */
  lemma StopPollLeads(autoCreate: bool, handle: string, calls: seq<Call>, id: string, env: Environment)
    requires Accepted(autoCreate, handle, calls + [Get(id, Ok(env))]) && OnlyStopping(calls)
    ensures if env.state == StateStopping then Leads(autoCreate, handle, calls, Get(id, Ok(env)), [], AGet(id))
            else StateDecides(autoCreate, handle, calls, Get(id, Ok(env)), env)
  {
    var call := Get(id, Ok(env));
    FollowOneMore(autoCreate, handle, calls, call);
    RunIsTold(autoCreate, handle, calls);
    if env.state == StateStopping {
      LeadsTo(autoCreate, handle, calls, call, [], AGet(id));
    } else {
      SettledLeads(autoCreate, handle, calls, call, env);
    }
  }

  /** A poll of an environment that is coming up: only RUNNING is success, FAILED and NOT_FOUND end
      the run, and every other state means another poll. */
  lemma RunPollLeads(autoCreate: bool, handle: string, calls: seq<Call>, id: string, env: Environment)
    requires Accepted(autoCreate, handle, calls + [Get(id, Ok(env))])
    requires LastSeen(calls).Some? && !OnlyStopping(calls)
    ensures var call := Get(id, Ok(env));
            match env.state
            case StateRunning => Leads(autoCreate, handle, calls, call, [PhaseRunning], Over(Ok(env)))
            case StateFailed => Leads(autoCreate, handle, calls, call, [PhaseFailed], Over(Err(FailedToStart(id))))
            case StateNotFound => Leads(autoCreate, handle, calls, call, [PhaseFailed], Over(Err(Vanished(id))))
            case _ => Leads(autoCreate, handle, calls, call, [], AGet(id))
  {
    var call := Get(id, Ok(env));
    FollowOneMore(autoCreate, handle, calls, call);
    RunIsTold(autoCreate, handle, calls);
    match env.state
    case StateRunning => LeadsTo(autoCreate, handle, calls, call, [PhaseRunning], Over(Ok(env)));
    case StateFailed => LeadsTo(autoCreate, handle, calls, call, [PhaseFailed], Over(Err(FailedToStart(id))));
    case StateNotFound => LeadsTo(autoCreate, handle, calls, call, [PhaseFailed], Over(Err(Vanished(id))));
    case _ => LeadsTo(autoCreate, handle, calls, call, [], AGet(id));
  }

  /** The five calls before were failed lookups too. */
  ghost predicate FiveFailed(calls: seq<Call>) {
    |calls| >= 5 && forall i :: |calls| - 5 <= i < |calls| ==> calls[i].Get? && calls[i].reply.Err?
  }

  lemma {:induction false} FailedAtTheEnd(calls: seq<Call>)
    ensures FailedGets(calls) <= |calls|
    ensures forall i :: |calls| - FailedGets(calls) <= i < |calls| ==> calls[i].Get? && calls[i].reply.Err?
    ensures var k := |calls| - FailedGets(calls) - 1; k >= 0 ==> !(calls[k].Get? && calls[k].reply.Err?)
  {
    if calls != [] && calls[|calls| - 1].Get? && calls[|calls| - 1].reply.Err? {
      FailedAtTheEnd(calls[..|calls| - 1]);
    }
  }

  lemma FiveFailedMeans(calls: seq<Call>)
    ensures FiveFailed(calls) <==> FailedGets(calls) >= 5
  {
    FailedAtTheEnd(calls);
  }

  /** A failed poll: five in a row are put up with if they are temporary, an authentication failure
      never is. */
  lemma FailedPollLeads(autoCreate: bool, handle: string, calls: seq<Call>, id: string, e: Error)
    requires Accepted(autoCreate, handle, calls + [Get(id, Err(e))]) && LastSeen(calls).Some?
    ensures var call := Get(id, Err(e));
            if e.temporary && !e.auth && !FiveFailed(calls) then Leads(autoCreate, handle, calls, call, [], AGet(id))
            else Leads(autoCreate, handle, calls, call, [PhaseFailed], Over(Err(Refused(e))))
  {
    var call := Get(id, Err(e));
    FollowOneMore(autoCreate, handle, calls, call);
    RunIsTold(autoCreate, handle, calls);
    FiveFailedMeans(calls);
    FailedPoll(autoCreate, handle, Follow(autoCreate, handle, calls), id, e);
    if e.temporary && !e.auth && !FiveFailed(calls) {
      LeadsTo(autoCreate, handle, calls, call, [], AGet(id));
    } else {
      LeadsTo(autoCreate, handle, calls, call, [PhaseFailed], Over(Err(Refused(e))));
    }
  }

  lemma FailedPoll(autoCreate: bool, handle: string, s: Progress, id: string, e: Error)
    requires (s.at.StopWait? || s.at.RunWait?) && s.at.id == id
    ensures var s' := Step(autoCreate, handle, s, Get(id, Err(e)));
            if e.temporary && !e.auth && s.at.fails < 5 then Awaits(handle, s'.at, AGet(id)) && s'.says == s.says
            else s'.at == Dead(Refused(e)) && s'.says == s.says + [PhaseFailed]
  {}

  /** A creation or a start that fails is the end; a start that succeeds is polled for. */
  lemma AnswerLeads(autoCreate: bool, handle: string, calls: seq<Call>, call: Call)
    requires Accepted(autoCreate, handle, calls + [call])
    requires call.Start? || (call.Create? && call.reply.Err?)
    ensures match call
            case Create(_, Err(e)) => Leads(autoCreate, handle, calls, call, [PhaseFailed], Over(Err(Refused(e))))
            case Start(id, None) => Leads(autoCreate, handle, calls, call, [], AGet(id))
            case Start(_, Some(e)) => Leads(autoCreate, handle, calls, call, [PhaseFailed], Over(Err(Refused(e))))
            case _ => false
  {
    FollowOneMore(autoCreate, handle, calls, call);
    match call
    case Create(_, Err(e)) => LeadsTo(autoCreate, handle, calls, call, [PhaseFailed], Over(Err(Refused(e))));
    case Start(id, None) => LeadsTo(autoCreate, handle, calls, call, [], AGet(id));
    case Start(_, Some(e)) => LeadsTo(autoCreate, handle, calls, call, [PhaseFailed], Over(Err(Refused(e))));
  }
}
