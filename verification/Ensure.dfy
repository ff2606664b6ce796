/** core/lifecycle/ensure.go: one run of the state machine over an arbitrary provider. Every provider
    call is logged; a monitor says which call may come next, and the run is proved to obey it. */
module Ensure {
  import opened Wrappers
  import opened Provider
  import opened Phases
  import opened WaitFor

  // ---------------------------------------------------------------- the monitor

  datatype Point =
    | Looking(tries: nat)            // after so many temporary lookup failures
    | Missing(error: Error)          // not found: the account's list is next
    | Creating
    | StopWait(id: string, fails: nat)
    | Starting(id: string)
    | RunWait(id: string, fails: nat)
    | Done(env: Environment)
    | Dead(why: Failure)
    | Wrong                          // a call out of place

  /** Where a run is, the environment its lookup settled on, what it counted and announced. */
  datatype Progress = Progress(at: Point, first: Option<Environment>, starts: nat, creates: nat, says: seq<Phase>)

  const BEGUN := Progress(Looking(0), None, 0, 0, [])
  const TRIES: nat := 3

  function Launch(env: Environment): Point {
    if Startable(env.state) then Starting(env.id) else RunWait(env.id, 0)
  }

  function AfterStop(env: Environment): Point {
    if Connectable(env.state) then Done(env) else Launch(env)
  }

  function Settle(env: Environment): Point {
    if env.state == StateStopping then StopWait(env.id, 0) else AfterStop(env)
  }

  function Entry(p: Point, env: Environment): seq<Phase> {
    match p
    case StopWait(_, _) => [PhaseStopping]
    case Starting(_) => [PhaseStarting]
    case RunWait(_, _) => [PhaseForState(env.state)]
    case Done(_) => [PhaseRunning]
    case _ => []
  }

  function Arrive(s: Progress, p: Point, env: Environment): Progress {
    s.(at := p, first := if s.first.None? then Some(env) else s.first, says := s.says + Entry(p, env))
  }

  function Die(s: Progress, why: Failure): Progress {
    s.(at := Dead(why), says := s.says + if why.Disabled? then [] else [PhaseFailed])
  }

  function Lose(s: Progress, e: Error): Progress {
    if e.notFound then s.(at := Missing(e)) else Die(s, Refused(e))
  }

  function Alone(s: Progress, autoCreate: bool, e: Error): Progress {
    if autoCreate then s.(at := Creating, says := s.says + [PhaseProvisioning]) else Die(s, Disabled(e))
  }

  predicate Sole(environments: Result<seq<Environment>, Error>) {
    environments.Ok? && |environments.value| == 1
  }

  function Waiting(goal: Goal, id: string, fails: nat): Point {
    if goal.Up? then RunWait(id, fails) else StopWait(id, fails)
  }

  function Waited(goal: Goal, id: string, s: Progress, w: Wait): Progress {
    match w
    case Polling(fails) => s.(at := Waiting(goal, id, fails))
    case Got(env) => Arrive(s, if goal.Up? then Done(env) else AfterStop(env), env)
    case Gave(why) => Die(s, why)
  }

  function Step(autoCreate: bool, handle: string, s: Progress, call: Call): Progress {
    match (s.at, call)
    case (Looking(tries), Get(id, reply)) =>
      if id != handle then s.(at := Wrong)
      else if reply.Ok? then Arrive(s, Settle(reply.value), reply.value)
      else if reply.error.temporary && tries + 1 < TRIES then s.(at := Looking(tries + 1))
      else Lose(s, reply.error)
    case (Missing(e), List(envs)) =>
      if Sole(envs) then Arrive(s, Settle(envs.value[0]), envs.value[0]) else Alone(s, autoCreate, e)
    case (Creating, Create(name, reply)) =>
      if name != handle then s.(at := Wrong)
      else if reply.Ok? then Arrive(s.(creates := s.creates + 1), Settle(reply.value), reply.value)
      else Die(s, Refused(reply.error))
    case (StopWait(id, fails), Get(id', reply)) =>
      if id' != id then s.(at := Wrong) else Waited(StopOver, id, s, Poll(StopOver, id, Polling(fails), reply))
    case (Starting(id), Start(id', error)) =>
      if id' != id then s.(at := Wrong)
      else if error.None? then s.(at := RunWait(id, 0), starts := s.starts + 1)
      else Die(s, Refused(error.value))
    case (RunWait(id, fails), Get(id', reply)) =>
      if id' != id then s.(at := Wrong) else Waited(Up, id, s, Poll(Up, id, Polling(fails), reply))
    case _ => s.(at := Wrong)
  }

  /** Where a lookup of this id is in place. */
  predicate LooksUp(handle: string, p: Point, id: string) {
    match p
    case Looking(_) => id == handle
    case StopWait(id', _) => id == id'
    case RunWait(id', _) => id == id'
    case _ => false
  }

  function Follow(autoCreate: bool, handle: string, calls: seq<Call>): Progress {
    if calls == [] then BEGUN
    else Step(autoCreate, handle, Follow(autoCreate, handle, calls[..|calls| - 1]), calls[|calls| - 1])
  }

  /** The same, with every intermediate point on record. */
  ghost predicate Obeys(autoCreate: bool, handle: string, calls: seq<Call>, path: seq<Progress>) {
    && |path| == |calls| + 1 && path[0] == BEGUN
    && forall i {:trigger calls[i]} :: 0 <= i < |calls| ==> path[i + 1] == Step(autoCreate, handle, path[i], calls[i])
  }

  lemma {:induction false} ObeysFollows(autoCreate: bool, handle: string, calls: seq<Call>, path: seq<Progress>)
    requires Obeys(autoCreate, handle, calls, path)
    ensures path[|calls|] == Follow(autoCreate, handle, calls)
  {
    if calls != [] {
      ObeysFollows(autoCreate, handle, calls[..|calls| - 1], path[..|calls|]);
    }
  }

  function Polls(id: string, replies: seq<Reply>): seq<Call> {
    seq(|replies|, i requires 0 <= i < |replies| => Get(id, replies[i]))
  }

  lemma OneMorePoll(id: string, before: seq<Reply>, reply: Reply)
    ensures Polls(id, before + [reply]) == Polls(id, before) + [Get(id, reply)]
  {}

  function Outcome(w: Wait): Result<Environment, Failure> {
    match w
    case Polling(_) => Err(ContextEnded)
    case Got(env) => Ok(env)
    case Gave(why) => Err(why)
  }

  lemma Assoc<T>(a: seq<T>, b: seq<T>, c: seq<T>)
    ensures (a + b) + c == a + (b + c)
  {}

  lemma {:induction false} WaitEnds(goal: Goal, id: string, replies: seq<Reply>)
    ensures var w := WaitAfter(goal, id, replies);
            && (w.Gave? ==> w.why.Refused? || w.why.FailedToStart? || w.why.Vanished?)
            && (w.Got? ==> Reached(goal, w.env.state))
  {
    if replies != [] {
      WaitEnds(goal, id, replies[..|replies| - 1]);
    }
  }

  lemma LookupStep(autoCreate: bool, handle: string, tries: nat, reply: Reply)
    ensures Step(autoCreate, handle, BEGUN.(at := Looking(tries)), Get(handle, reply)) ==
            if reply.Ok? then Arrive(BEGUN, Settle(reply.value), reply.value)
            else if reply.error.temporary && tries + 1 < TRIES then BEGUN.(at := Looking(tries + 1))
            else Lose(BEGUN, reply.error)
  {}

  // ---------------------------------------------------------------- the run

  /** One runEnsure: the provider answers whatever it likes, and the context lets the run wait at
      most ticksLeft more times, fewer when it is cancelled. */
  class Run {
    const autoCreate: bool
    const handle: string
    const st: EnvState
    var ticksLeft: nat
    ghost var expired: bool   // whether a select has chosen the context
    ghost var calls: seq<Call>
    ghost var path: seq<Progress>
    ghost var progress: Progress

    ghost predicate Valid()
      reads this
    {
      Obeys(autoCreate, handle, calls, path) && progress == path[|calls|] && progress.at != Wrong
    }

    constructor (autoCreate: bool, handle: string, st: EnvState, ticks: nat)
      ensures this.autoCreate == autoCreate && this.handle == handle && this.st == st
      ensures Valid() && ticksLeft == ticks && calls == [] && !expired
    {
      this.autoCreate, this.handle, this.st, ticksLeft, expired := autoCreate, handle, st, ticks, false;
      calls, path, progress := [], [BEGUN], BEGUN;
    }

    ghost method Note(call: Call)
      requires Valid() && Step(autoCreate, handle, progress, call).at != Wrong
      modifies this`calls, this`path, this`progress
      ensures Valid() && calls == old(calls) + [call]
      ensures progress == Step(autoCreate, handle, old(progress), call)
    {
      progress := Step(autoCreate, handle, progress, call);
      calls, path := calls + [call], path + [progress];
    }

    method ProviderGet(id: string) returns (reply: Reply)
      requires Valid() && LooksUp(handle, progress.at, id)
      modifies this`calls, this`path, this`progress
      ensures Valid() && calls == old(calls) + [Get(id, reply)]
      ensures progress == Step(autoCreate, handle, old(progress), Get(id, reply))
    {
      reply := *;
      Note(Get(id, reply));
    }

    method ProviderList() returns (environments: Result<seq<Environment>, Error>)
      requires Valid() && progress.at.Missing?
      modifies this`calls, this`path, this`progress
      ensures Valid() && calls == old(calls) + [List(environments)]
      ensures progress == Step(autoCreate, handle, old(progress), List(environments))
    {
      environments := *;
      Note(List(environments));
    }

    method ProviderCreate(name: string) returns (reply: Reply)
      requires Valid() && progress.at.Creating? && name == handle
      modifies this`calls, this`path, this`progress
      ensures Valid() && calls == old(calls) + [Create(name, reply)]
      ensures progress == Step(autoCreate, handle, old(progress), Create(name, reply))
    {
      reply := *;
      Note(Create(name, reply));
    }

    method ProviderStart(id: string) returns (error: Option<Error>)
      requires Valid() && progress.at == Starting(id)
      modifies this`calls, this`path, this`progress
      ensures Valid() && calls == old(calls) + [Start(id, error)]
      ensures progress == Step(autoCreate, handle, old(progress), Start(id, error))
    {
      error := *;
      Note(Start(id, error));
    }

    /** One select between the ticker and the context. */
    method Tick() returns (ticked: bool)
      modifies this`ticksLeft, this`expired
      ensures ticked ==> ticksLeft + 1 == old(ticksLeft)
      ensures !ticked ==> ticksLeft == old(ticksLeft)
      ensures expired == (old(expired) || !ticked)
    {
      var cancelled: bool := *;
      ticked := ticksLeft > 0 && !cancelled;
      expired := expired || !ticked;
      if ticked {
        ticksLeft := ticksLeft - 1;
      }
    }

    /** get: at most three lookups, only temporary failures tried again. */
    method Lookup() returns (r: Result<Environment, Failure>)
      requires Valid() && calls == []
      modifies this`calls, this`path, this`progress, this`ticksLeft, this`expired
      ensures Valid() && |calls| + ticksLeft <= 1 + old(ticksLeft)
      ensures r.Ok? ==> progress == Arrive(BEGUN, Settle(r.value), r.value)
      ensures r.Err? ==> r.error.Refused? || r.error.ContextEnded?
      ensures r.Err? && r.error.Refused? ==> progress == Lose(BEGUN, r.error.error)
      ensures r.Err? && r.error.ContextEnded? ==> 0 < |calls| < TRIES && progress == BEGUN.(at := Looking(|calls|))
      ensures expired <==> old(expired) || r == Err(ContextEnded)
    {
      var attempt := 0;
      var lastErr: Error := *;
      while attempt < TRIES
        invariant Valid() && attempt == |calls| <= TRIES
        invariant |calls| + ticksLeft <= old(ticksLeft) + if attempt == 0 then 0 else 1
        invariant progress == if attempt < TRIES then BEGUN.(at := Looking(attempt)) else Lose(BEGUN, lastErr)
        invariant expired == old(expired)
      {
        if attempt > 0 {
          var ticked := Tick();
          if !ticked {
            return Err(ContextEnded);
          }
        }
        var reply := ProviderGet(handle);
        LookupStep(autoCreate, handle, attempt, reply);
        if reply.Ok? {
          return Ok(reply.value);
        }
        if !reply.error.temporary {
          return Err(Refused(reply.error));
        }
        lastErr := reply.error;
        attempt := attempt + 1;
      }
      return Err(Refused(lastErr));
    }

    /** adopt: the account's only environment, if it has exactly one. */
    method Adopt() returns (adopted: Option<Environment>)
      requires Valid() && progress.at.Missing?
      modifies this`calls, this`path, this`progress
      ensures Valid() && |calls| == old(|calls|) + 1
      ensures progress == match adopted
                          case Some(env) => Arrive(old(progress), Settle(env), env)
                          case None => Alone(old(progress), autoCreate, old(progress.at.error))
    {
      var environments := ProviderList();
      if environments.Err? || |environments.value| != 1 {
        return None;
      }
      return Some(environments.value[0]);
    }

    method CreateEnvironment() returns (r: Result<Environment, Failure>)
      requires Valid() && st.Valid() && progress.at.Creating?
      modifies this`calls, this`path, this`progress, st`phase, st`history, st`failed, st`asked, st`tracks, st`creates
      ensures Valid() && st.Valid() && |calls| == old(|calls|) + 1
      ensures progress == match r
                          case Ok(env) => Arrive(old(progress.(creates := progress.creates + 1)), Settle(env), env)
                          case Err(why) => Die(old(progress), why)
      ensures st.asked == old(st.asked) + if r.Ok? then [PhaseProvisioning] else [PhaseProvisioning, PhaseFailed]
      ensures st.creates == old(st.creates) + if r.Ok? then 1 else 0
      ensures r.Err? ==> r.error.Refused? && st.failed && st.phase == PhaseFailed
    {
      st.SetPhase(PhaseProvisioning);
      var reply := ProviderCreate(handle);
      if reply.Err? {
        Fail();
        return Err(Refused(reply.error));
      }
      st.creates := st.creates + 1;
      return Ok(reply.value);
    }

    method Fail()
      requires st.Valid()
      modifies st`phase, st`history, st`failed, st`asked, st`tracks
      ensures st.Valid() && st.asked == old(st.asked) + [PhaseFailed]
      ensures st.failed && st.phase == PhaseFailed
    {
      st.RecordErr();
      st.SetPhase(PhaseFailed);
    }

    /** waitFor: poll once a tick until the goal is reached, tolerating five errors in a row. */
    method PollFor(goal: Goal, id: string) returns (r: Result<Environment, Failure>, ghost replies: seq<Reply>)
      requires Valid() && progress.at == Waiting(goal, id, 0)
      modifies this`calls, this`path, this`progress, this`ticksLeft, this`expired
      ensures Valid() && calls == old(calls) + Polls(id, replies)
      ensures ticksLeft + |replies| == old(ticksLeft)
      ensures r == Outcome(WaitAfter(goal, id, replies))
      ensures progress == Waited(goal, id, old(progress), WaitAfter(goal, id, replies))
      ensures expired <==> old(expired) || r == Err(ContextEnded)
    {
      var fails := 0;
      replies := [];
      while true
        invariant Valid() && calls == old(calls) + Polls(id, replies)
        invariant ticksLeft + |replies| == old(ticksLeft)
        invariant WaitAfter(goal, id, replies) == Polling(fails)
        invariant progress == old(progress).(at := Waiting(goal, id, fails))
        invariant expired == old(expired)
        decreases ticksLeft
      {
        var ticked := Tick();
        if !ticked {
          return Err(ContextEnded), replies;
        }
        var reply := ProviderGet(id);
        ghost var before := replies;
        replies := replies + [reply];
        FoldsGrow(goal, id, before, reply);
        OneMorePoll(id, before, reply);
        match reply
        case Err(e) =>
          if e.auth {
            return Err(Refused(e)), replies;
          }
          if e.temporary && fails < TOLERATED {
            fails := fails + 1;
            continue;
          }
          return Err(Refused(e)), replies;
        case Ok(env) =>
          fails := 0;
          if Reached(goal, env.state) {
            return Ok(env), replies;
          }
          match env.state {
            case StateFailed => return Err(FailedToStart(id)), replies;
            case StateNotFound => return Err(Vanished(id)), replies;
            case _ =>
          }
      }
    }

    /** What both callers of waitFor do with it: an error is recorded and fails the phase. */
    method WaitOrFail(goal: Goal, id: string) returns (r: Result<Environment, Failure>)
      requires Valid() && st.Valid() && progress.at == Waiting(goal, id, 0)
      modifies this`calls, this`path, this`progress, this`ticksLeft, this`expired
      modifies st`phase, st`history, st`failed, st`asked, st`tracks
      ensures Valid() && st.Valid() && |calls| + ticksLeft == old(|calls| + ticksLeft)
      ensures r.Ok? ==> progress == Waited(goal, id, old(progress), Got(r.value)) && Reached(goal, r.value.state)
      ensures r.Err? && r.error.ContextEnded? ==>
                exists fails: nat :: progress == old(progress).(at := Waiting(goal, id, fails))
      ensures r.Err? && !r.error.ContextEnded? ==> !r.error.Disabled? && progress == Die(old(progress), r.error)
      ensures r.Err? ==> st.failed && st.phase == PhaseFailed && st.asked == old(st.asked) + [PhaseFailed]
      ensures r.Ok? ==> st.asked == old(st.asked)
      ensures expired <==> old(expired) || r == Err(ContextEnded)
    {
      ghost var replies;
      r, replies := PollFor(goal, id);
      WaitEnds(goal, id, replies);
      if r.Err? {
        Fail();
      }
    }

    /** The shared state after the calls logged so far, when these phases were announced. */
    ghost predicate Reflects(asked: seq<Phase>, says: seq<Phase>, starts: nat, creates: nat, resolved: string)
      reads this, st
    {
      && Valid() && st.Valid()
      && st.asked == asked + says
      && st.starts == starts + progress.starts
      && st.creates == creates + progress.creates
      && var found := progress.first;
      st.resolved == if found.Some? && found.value.id != "" then found.value.id else resolved
    }

    /** How a run ends: with what the calls led to, or early because its context ended. */
    ghost predicate Ends(r: Result<Environment, Failure>)
      reads this
    {
      match progress.at
      case Done(env) => r == Ok(env)
      case Dead(why) => r == Err(why)
      case Looking(tries) => tries > 0 && r == Err(ContextEnded)
      case StopWait(_, _) => r == Err(ContextEnded)
      case RunWait(_, _) => r == Err(ContextEnded)
      case _ => false
    }

    ghost function Says(r: Result<Environment, Failure>): seq<Phase>
      reads this
    {
      if r == Err(ContextEnded) then progress.says + [PhaseFailed] else progress.says
    }

    /** Start the environment if that is the right move. */
    method StartIfStartable(found: Environment, ghost s: Progress, ghost asked: seq<Phase>)
      returns (error: Option<Error>)
      requires Valid() && st.Valid() && progress == Arrive(s, Launch(found), found) && st.asked == asked + s.says
      modifies this`calls, this`path, this`progress
      modifies st`phase, st`history, st`failed, st`asked, st`tracks, st`starts
      ensures Valid() && st.Valid() && |calls| <= old(|calls|) + 1 && st.asked == asked + progress.says
      ensures progress.creates == s.creates && progress.first == old(progress.first)
      ensures st.starts == old(st.starts) + progress.starts - s.starts
      ensures error.Some? ==> progress.at == Dead(Refused(error.value)) && st.failed && st.phase == PhaseFailed
      ensures error.None? ==> progress.at == RunWait(found.id, 0)
    {
      error := None;
      if Startable(found.state) {
        Assoc(asked, s.says, [PhaseStarting]);
        st.SetPhase(PhaseStarting);
        ghost var said := progress.says;
        error := ProviderStart(found.id);
        if error.Some? {
          Assoc(asked, said, [PhaseFailed]);
          Fail();
          return;
        }
        st.starts := st.starts + 1;
      } else {
        Assoc(asked, s.says, [PhaseForState(found.state)]);
        st.SetPhase(PhaseForState(found.state));
      }
    }

    /** The last wait of ensure. */
    method AwaitRunning(id: string, ghost asked: seq<Phase>, ghost starts: nat, ghost creates: nat,
          ghost resolved: string)
      returns (r: Result<Environment, Failure>)
      requires progress.at == RunWait(id, 0) && progress.first.Some?
      requires Reflects(asked, progress.says, starts, creates, resolved)
      modifies this`calls, this`path, this`progress, this`ticksLeft, this`expired
      modifies st`phase, st`history, st`failed, st`asked, st`tracks
      ensures Ends(r) && (expired <==> old(expired) || r == Err(ContextEnded))
      ensures |calls| + ticksLeft == old(|calls| + ticksLeft)
      ensures Reflects(asked, Says(r), starts, creates, resolved)
      ensures r.Ok? ==> Connectable(r.value.state) && st.phase == PhaseRunning
      ensures r.Err? ==> !r.error.Disabled? && st.failed && st.phase == PhaseFailed
    {
      ghost var said := progress.says;
      r := WaitOrFail(Up, id);
      if r.Err? {
        Assoc(asked, said, [PhaseFailed]);
      } else {
        Assoc(asked, said, [PhaseRunning]);
        st.SetPhase(PhaseRunning);
      }
    }

    /** The end of ensure: start the environment if need be, then wait for it. */
    method StartAndWait(found: Environment, ghost s: Progress,
        ghost asked: seq<Phase>, ghost starts: nat, ghost creates: nat, ghost resolved: string)
      returns (r: Result<Environment, Failure>)
      requires progress == Arrive(s, Launch(found), found)
      requires Reflects(asked, s.says, starts, creates, resolved)
      modifies this`calls, this`path, this`progress, this`ticksLeft, this`expired, st
      ensures Ends(r) && (expired <==> old(expired) || r == Err(ContextEnded))
      ensures |calls| + ticksLeft <= 1 + old(|calls| + ticksLeft)
      ensures Reflects(asked, Says(r), starts, creates, resolved)
      ensures r.Ok? ==> Connectable(r.value.state) && st.phase == PhaseRunning
      ensures r.Err? ==> !r.error.Disabled? && st.failed && st.phase == PhaseFailed
    {
      var error := StartIfStartable(found, s, asked);
      if error.Some? {
        return Err(Refused(error.value));
      }
      r := AwaitRunning(found.id, asked, starts, creates, resolved);
    }

    /** For an environment that is not, or no longer, shutting down: it may be running already. */
    method StartUnlessRunning(found: Environment, ghost s: Progress,
        ghost asked: seq<Phase>, ghost starts: nat, ghost creates: nat, ghost resolved: string)
      returns (r: Result<Environment, Failure>)
      requires progress == Arrive(s, AfterStop(found), found)
      requires Reflects(asked, s.says, starts, creates, resolved)
      modifies this`calls, this`path, this`progress, this`ticksLeft, this`expired, st
      ensures Ends(r) && (expired <==> old(expired) || r == Err(ContextEnded))
      ensures |calls| + ticksLeft <= 1 + old(|calls| + ticksLeft)
      ensures Reflects(asked, Says(r), starts, creates, resolved)
      ensures r.Ok? ==> Connectable(r.value.state) && st.phase == PhaseRunning
      ensures r.Err? ==> !r.error.Disabled? && st.failed && st.phase == PhaseFailed
    {
      if Connectable(found.state) {
        Assoc(asked, s.says, [PhaseRunning]);
        st.SetPhase(PhaseRunning);
        return Ok(found);
      }
      r := StartAndWait(found, s, asked, starts, creates, resolved);
    }

    /** The middle of ensure: nothing to do for a running environment, and one that is shutting down
        is waited for before it can be started. */
    method Raise(found: Environment, ghost s: Progress,
        ghost asked: seq<Phase>, ghost starts: nat, ghost creates: nat, ghost resolved: string)
      returns (r: Result<Environment, Failure>)
      requires progress == Arrive(s, Settle(found), found)
      requires Reflects(asked, s.says, starts, creates, resolved)
      modifies this`calls, this`path, this`progress, this`ticksLeft, this`expired, st
      ensures Ends(r) && (expired <==> old(expired) || r == Err(ContextEnded))
      ensures |calls| + ticksLeft <= 1 + old(|calls| + ticksLeft)
      ensures Reflects(asked, Says(r), starts, creates, resolved)
      ensures r.Ok? ==> Connectable(r.value.state) && st.phase == PhaseRunning
      ensures r.Err? ==> !r.error.Disabled? && st.failed && st.phase == PhaseFailed
    {
      if found.state != StateStopping {
        r := StartUnlessRunning(found, s, asked, starts, creates, resolved);
        return;
      }
      Assoc(asked, s.says, [PhaseStopping]);
      st.SetPhase(PhaseStopping);
      ghost var waiting := progress;
      r := WaitOrFail(StopOver, found.id);
      if r.Err? {
        Assoc(asked, waiting.says, [PhaseFailed]);
        return;
      }
      r := StartUnlessRunning(r.value, waiting, asked, starts, creates, resolved);
    }

    /** The configured environment is gone: use the account's only one, or create one if allowed. */
    method AdoptOrCreate(e: Error) returns (r: Result<Environment, Failure>, ghost s: Progress)
      requires Valid() && st.Valid() && progress == BEGUN.(at := Missing(e))
      modifies this`calls, this`path, this`progress, st`phase, st`history, st`failed, st`asked, st`tracks, st`creates
      ensures Valid() && st.Valid() && |calls| <= old(|calls|) + 2
      ensures st.creates == old(st.creates) + s.creates && s.starts == 0 && s.first == None
      ensures st.asked == old(st.asked) + s.says
      ensures r.Ok? ==> progress == Arrive(s, Settle(r.value), r.value)
      ensures r.Err? ==> !r.error.ContextEnded? && st.failed && progress == s && s.at == Dead(r.error)
      ensures r.Err? ==> st.phase == if r.error.Disabled? then old(st.phase) else PhaseFailed
    {
      s := progress;
      var adopted := Adopt();
      if adopted.Some? {
        return Ok(adopted.value), s;
      }
      if !autoCreate {
        st.RecordErr();
        return Err(Disabled(e)), progress;
      }
      s := progress.(creates := 1);
      r := CreateEnvironment();
      if r.Err? {
        s := progress;
      }
    }

    /** The first half of ensure: an environment to work with, looked up, adopted or created. */
    method Find() returns (r: Result<Environment, Failure>, ghost s: Progress)
      requires Valid() && st.Valid() && calls == []
      modifies this`calls, this`path, this`progress, this`ticksLeft, this`expired
      modifies st`phase, st`history, st`failed, st`asked, st`tracks, st`creates
      ensures Valid() && st.Valid() && |calls| + ticksLeft <= 3 + old(ticksLeft)
      ensures st.creates == old(st.creates) + s.creates && s.starts == 0 && s.first == None
      ensures r.Ok? ==> st.asked == old(st.asked) + s.says && progress == Arrive(s, Settle(r.value), r.value)
      ensures r.Err? ==> Ends(r) && st.failed && progress == s && st.asked == old(st.asked) + Says(r)
      ensures expired <==> old(expired) || r == Err(ContextEnded)
      ensures r.Err? ==> st.phase == if r.error.Disabled? then old(st.phase) else PhaseFailed
    {
      s := BEGUN;
      r := Lookup();
      if r.Ok? {
        assert st.asked == old(st.asked) + s.says;
        return;
      }
      if r.error.ContextEnded? || !r.error.error.notFound {
        s := progress;
        Fail();
        assert Says(r) == [PhaseFailed];
        return;
      }
      r, s := AdoptOrCreate(r.error.error);
    }

    method Ensure() returns (r: Result<Environment, Failure>)
      requires Valid() && st.Valid() && calls == []
      modifies this`calls, this`path, this`progress, this`ticksLeft, this`expired, st
      ensures Ends(r) && (expired <==> old(expired) || r == Err(ContextEnded))
      ensures |calls| + ticksLeft <= 4 + old(ticksLeft)
      ensures Reflects(old(st.asked), Says(r), old(st.starts), old(st.creates), old(st.resolved))
      ensures r.Ok? ==> Connectable(r.value.state) && st.phase == PhaseRunning
      ensures r.Err? ==> st.failed && st.phase == if r.error.Disabled? then old(st.phase) else PhaseFailed
    {
      ghost var s;
      r, s := Find();
      if r.Ok? {
        st.Resolve(r.value);
        r := Raise(r.value, s, old(st.asked), old(st.starts), old(st.creates), old(st.resolved));
      }
    }
  }

  /** The log of a run, at any moment, is one the monitor accepts: every call was in place. */
  lemma RunFollowsMonitor(run: Run)
    requires run.Valid()
    ensures run.progress == Follow(run.autoCreate, run.handle, run.calls) && run.progress.at != Wrong
  {
    ObeysFollows(run.autoCreate, run.handle, run.calls, run.path);
  }
}
