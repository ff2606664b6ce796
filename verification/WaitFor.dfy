/** core/lifecycle/ensure.go, waitFor: polling until a state is reached. */
module WaitFor {
  import opened Wrappers
  import opened Provider

  /** The two `done` functions waitFor is called with. */
  datatype Goal = StopOver | Up

  predicate Reached(goal: Goal, s: State) {
    match goal
    case StopOver => s != StateStopping
    case Up => Connectable(s)
  }

  datatype Failure =
    | Refused(error: Error)      // a provider call failed for good
    | Disabled(error: Error)     // not found, and auto-create is off
    | FailedToStart(id: string)
    | Vanished(id: string)
    | ContextEnded

  const TOLERATED: nat := 5

  datatype Wait = Polling(fails: nat) | Got(env: Environment) | Gave(why: Failure)

  /** One poll's effect; a decided wait polls no more. */
  function Poll(goal: Goal, id: string, w: Wait, reply: Reply): Wait {
    if !w.Polling? then w
    else match reply
      case Err(e) =>
        if e.auth then Gave(Refused(e))
        else if e.temporary && w.fails < TOLERATED then Polling(w.fails + 1)
        else Gave(Refused(e))
      case Ok(env) =>
        if Reached(goal, env.state) then Got(env)
        else if env.state == StateFailed then Gave(FailedToStart(id))
        else if env.state == StateNotFound then Gave(Vanished(id))
        else Polling(0)
  }

  function WaitAfter(goal: Goal, id: string, polls: seq<Reply>): Wait {
    if polls == [] then Polling(0) else Poll(goal, id, WaitAfter(goal, id, polls[..|polls| - 1]), polls[|polls| - 1])
  }

  // ---------------------------------------------------------------- what that means

  /** A poll that neither reaches the goal nor rules it out. */
  predicate Indecisive(goal: Goal, reply: Reply) {
    match reply
    case Err(e) => e.temporary && !e.auth
    case Ok(env) => !Reached(goal, env.state) && env.state != StateFailed && env.state != StateNotFound
  }

  ghost predicate SixErrorsFrom(polls: seq<Reply>, i: nat) {
    i + 6 <= |polls| && forall j :: i <= j < i + 6 ==> polls[j].Err?
  }

  /** Nothing decisive so far: only indecisive polls, and never six errors in a row. */
  ghost predicate Quiet(goal: Goal, polls: seq<Reply>) {
    && (forall i :: 0 <= i < |polls| ==> Indecisive(goal, polls[i]))
    && (forall i: nat :: !SixErrorsFrom(polls, i))
  }

  /** How many errors the polls end with. */
  function Trailing(polls: seq<Reply>): nat {
    if polls == [] || polls[|polls| - 1].Ok? then 0 else 1 + Trailing(polls[..|polls| - 1])
  }

  lemma {:induction false} TrailingErrors(polls: seq<Reply>)
    ensures Trailing(polls) <= |polls|
    ensures forall j :: |polls| - Trailing(polls) <= j < |polls| ==> polls[j].Err?
    ensures Trailing(polls) < |polls| ==> polls[|polls| - Trailing(polls) - 1].Ok?
  {
    if polls != [] && polls[|polls| - 1].Err? {
      TrailingErrors(polls[..|polls| - 1]);
    }
  }

  /** Still polling means quiet, and the counter is the current run of errors. */
  lemma {:induction false} PollingIsQuiet(goal: Goal, id: string, polls: seq<Reply>)
    ensures WaitAfter(goal, id, polls).Polling? <==> Quiet(goal, polls)
    ensures WaitAfter(goal, id, polls).Polling? ==> WaitAfter(goal, id, polls).fails == Trailing(polls) <= TOLERATED
  {
    if polls != [] {
      var before, reply := polls[..|polls| - 1], polls[|polls| - 1];
      PollingIsQuiet(goal, id, before);
      QuietSnoc(goal, before, reply);
      assert before + [reply] == polls;
    }
  }

  lemma QuietSnoc(goal: Goal, before: seq<Reply>, reply: Reply)
    ensures Quiet(goal, before + [reply]) <==>
      Quiet(goal, before) && Indecisive(goal, reply) && (reply.Err? ==> Trailing(before) < TOLERATED)
  {
    var polls := before + [reply];
    TrailingErrors(before);
    assert forall i :: 0 <= i < |before| ==> polls[i] == before[i];
    assert polls[|before|] == reply;
    if Quiet(goal, before) && Indecisive(goal, reply) && (reply.Err? ==> Trailing(before) < TOLERATED) {
      forall i: nat ensures !SixErrorsFrom(polls, i) {
        if SixErrorsFrom(polls, i) {
          if i + 6 <= |before| {
            assert SixErrorsFrom(before, i);
          }
        }
      }
    }
    if Quiet(goal, polls) {
      forall i: nat ensures !SixErrorsFrom(before, i) {
        assert !SixErrorsFrom(polls, i);
      }
      if reply.Err? && Trailing(before) >= TOLERATED {
        assert SixErrorsFrom(polls, |before| - 5);
      }
    }
  }

  ghost predicate ReachedAt(goal: Goal, polls: seq<Reply>, k: nat, env: Environment) {
    k < |polls| && Quiet(goal, polls[..k]) && polls[k] == Ok(env) && Reached(goal, env.state)
  }

  /** waitFor returns exactly the first poll that reaches the goal, if only quiet polls precede it. */
  lemma {:induction false} GotIsFirstReached(goal: Goal, id: string, polls: seq<Reply>, env: Environment)
    ensures WaitAfter(goal, id, polls) == Got(env) <==> exists k: nat :: ReachedAt(goal, polls, k, env)
  {
    if polls != [] {
      var n := |polls| - 1;
      var before := polls[..n];
      GotIsFirstReached(goal, id, before, env);
      PollingIsQuiet(goal, id, before);
      forall k: nat | k < n ensures ReachedAt(goal, polls, k, env) <==> ReachedAt(goal, before, k, env) {
        assert before[..k] == polls[..k];
      }
      assert before + [polls[n]] == polls;
      LastDecides(goal, id, before, polls[n]);
      assert ReachedAt(goal, polls, n, env)
        <==> WaitAfter(goal, id, before).Polling? && polls[n] == Ok(env) && Reached(goal, env.state);
    }
  }

  /** A poll that ends the wait with an error, given the quiet polls before it. */
  ghost predicate Fatal(goal: Goal, before: seq<Reply>, reply: Reply) {
    match reply
    case Err(e) => e.auth || !e.temporary || Trailing(before) == TOLERATED
    case Ok(env) => !Reached(goal, env.state) && (env.state == StateFailed || env.state == StateNotFound)
  }

  /** The error a fatal poll stands for. */
  function Cause(id: string, reply: Reply): Failure {
    match reply
    case Err(e) => Refused(e)
    case Ok(env) => if env.state == StateFailed then FailedToStart(id) else Vanished(id)
  }

  ghost predicate FatalAt(goal: Goal, id: string, polls: seq<Reply>, k: nat, why: Failure) {
    k < |polls| && Quiet(goal, polls[..k]) && Fatal(goal, polls[..k], polls[k]) && why == Cause(id, polls[k])
  }

  /** What one more poll does to a wait, told from the polls before it. */
  lemma LastDecides(goal: Goal, id: string, before: seq<Reply>, reply: Reply)
    ensures var w, w' := WaitAfter(goal, id, before), WaitAfter(goal, id, before + [reply]);
            && (!w.Polling? ==> w' == w)
            && (w.Polling? ==> (w'.Got? <==> reply.Ok? && Reached(goal, reply.value.state)))
            && (w.Polling? && w'.Got? ==> w'.env == reply.value)
            && (w.Polling? ==> (w'.Gave? <==> Fatal(goal, before, reply)))
            && (w.Polling? && w'.Gave? ==> w'.why == Cause(id, reply))
  {
    assert (before + [reply])[..|before|] == before;
    PollingIsQuiet(goal, id, before);
  }

  /** waitFor fails exactly at the first fatal poll: an auth or permanent error, the sixth error in
      a row, or a failed or missing environment that does not satisfy the goal. */
  lemma {:induction false} GaveIsFirstFatal(goal: Goal, id: string, polls: seq<Reply>, why: Failure)
    ensures WaitAfter(goal, id, polls) == Gave(why) <==> exists k: nat :: FatalAt(goal, id, polls, k, why)
  {
    if polls != [] {
      var n := |polls| - 1;
      var before := polls[..n];
      GaveIsFirstFatal(goal, id, before, why);
      PollingIsQuiet(goal, id, before);
      forall k: nat | k < n ensures FatalAt(goal, id, polls, k, why) <==> FatalAt(goal, id, before, k, why) {
        assert before[..k] == polls[..k];
      }
      assert before + [polls[n]] == polls;
      LastDecides(goal, id, before, polls[n]);
      assert FatalAt(goal, id, polls, n, why)
        <==> WaitAfter(goal, id, before).Polling? && Fatal(goal, before, polls[n]) && why == Cause(id, polls[n]);
    }
  }

  /** One more poll of an undecided wait. A wait for a stop is over in every state but STOPPING, a wait
      for RUNNING only there; failed and missing environments end only the latter. */
  lemma NextPollDecides(id: string, polls: seq<Reply>, env: Environment)
    ensures WaitAfter(StopOver, id, polls).Polling? ==>
              WaitAfter(StopOver, id, polls + [Ok(env)]) == if env.state == StateStopping then Polling(0) else Got(env)
    ensures WaitAfter(Up, id, polls).Polling? ==>
              WaitAfter(Up, id, polls + [Ok(env)]) == match env.state
                                                      case StateRunning => Got(env)
                                                      case StateFailed => Gave(FailedToStart(id))
                                                      case StateNotFound => Gave(Vanished(id))
                                                      case _ => Polling(0)
  {
    FoldsGrow(StopOver, id, polls, Ok(env));
    FoldsGrow(Up, id, polls, Ok(env));
  }

  // ---------------------------------------------------------------- invisible errors

  /** The states actually observed, errors left out. */
  function Observed(polls: seq<Reply>): seq<Environment> {
    if polls == [] then []
    else Observed(polls[..|polls| - 1]) + if polls[|polls| - 1].Ok? then [polls[|polls| - 1].value] else []
  }

  /** The wait as it would go over a provider that never errs. */
  function Scan(goal: Goal, id: string, seen: seq<Environment>): Wait {
    if seen == [] then Polling(0) else Poll(goal, id, Scan(goal, id, seen[..|seen| - 1]), Ok(seen[|seen| - 1]))
  }

  /** Only temporary errors, in runs of at most five. */
  ghost predicate ShortRuns(polls: seq<Reply>) {
    && (forall i :: 0 <= i < |polls| && polls[i].Err? ==> polls[i].error.temporary && !polls[i].error.auth)
    && (forall i: nat :: !SixErrorsFrom(polls, i))
  }

  lemma ShortRunsBefore(before: seq<Reply>, reply: Reply)
    requires ShortRuns(before + [reply])
    ensures ShortRuns(before)
    ensures reply.Err? ==> reply.error.temporary && !reply.error.auth && Trailing(before) < TOLERATED
  {
    var polls := before + [reply];
    assert polls[|before|] == reply;
    forall i | 0 <= i < |before| && before[i].Err? ensures before[i].error.temporary && !before[i].error.auth {
      assert polls[i] == before[i];
    }
    forall i: nat ensures !SixErrorsFrom(before, i) {
      assert !SixErrorsFrom(polls, i);
    }
    TrailingErrors(before);
    if reply.Err? && Trailing(before) >= TOLERATED {
      assert SixErrorsFrom(polls, |before| - 5);
    }
  }

  lemma FoldsGrow(goal: Goal, id: string, before: seq<Reply>, reply: Reply)
    ensures WaitAfter(goal, id, before + [reply]) == Poll(goal, id, WaitAfter(goal, id, before), reply)
    ensures Observed(before + [reply]) == Observed(before) + if reply.Ok? then [reply.value] else []
    ensures Trailing(before + [reply]) == if reply.Ok? then 0 else 1 + Trailing(before)
  {
    assert (before + [reply])[..|before|] == before;
  }

  lemma ScanGrows(goal: Goal, id: string, seen: seq<Environment>, env: Environment)
    ensures Scan(goal, id, seen + [env]) == Poll(goal, id, Scan(goal, id, seen), Ok(env))
  {
    assert (seen + [env])[..|seen|] == seen;
  }

  /** A wait with errors in it stands where the wait without them stands, but for the counter. */
  predicate Shadows(w: Wait, s: Wait, trailing: nat) {
    if s.Polling? then w == Polling(trailing) else w == s
  }

  lemma ShadowStep(goal: Goal, id: string, w: Wait, s: Wait, trailing: nat, reply: Reply)
    requires Shadows(w, s, trailing)
    requires reply.Err? ==> reply.error.temporary && !reply.error.auth && trailing < TOLERATED
    requires s.Polling? ==> s.fails == 0
    ensures reply.Ok? ==> Shadows(Poll(goal, id, w, reply), Poll(goal, id, s, reply), 0)
    ensures reply.Err? ==> Shadows(Poll(goal, id, w, reply), s, trailing + 1)
  {}

  lemma {:induction false} ScanCountsNothing(goal: Goal, id: string, seen: seq<Environment>)
    ensures Scan(goal, id, seen).Polling? ==> Scan(goal, id, seen).fails == 0
  {
    if seen != [] {
      ScanCountsNothing(goal, id, seen[..|seen| - 1]);
    }
  }

  /** Runs of at most five temporary errors change nothing: the outcome is that of the observed
      states alone. */
  lemma {:induction false} ShortErrorRunsAreInvisible(goal: Goal, id: string, polls: seq<Reply>)
    requires ShortRuns(polls)
    ensures Shadows(WaitAfter(goal, id, polls), Scan(goal, id, Observed(polls)), Trailing(polls))
  {
    if polls != [] {
      var before, reply := polls[..|polls| - 1], polls[|polls| - 1];
      assert polls == before + [reply];
      ShortRunsBefore(before, reply);
      ShortErrorRunsAreInvisible(goal, id, before);
      FoldsGrow(goal, id, before, reply);
      ScanCountsNothing(goal, id, Observed(before));
      ShadowStep(goal, id, WaitAfter(goal, id, before), Scan(goal, id, Observed(before)), Trailing(before), reply);
      if reply.Ok? {
        ScanGrows(goal, id, Observed(before), reply.value);
      } else {
        assert Observed(before) + [] == Observed(before);
      }
    }
  }
}
