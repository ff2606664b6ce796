/** core/lifecycle/manager.go: the phase of one environment and its bounded history. */
module Phases {
  import opened Provider

  datatype Phase =
    | PhaseUnknown | PhaseStopped | PhaseProvisioning | PhaseStarting | PhaseRunning
    | PhaseConnecting | PhaseConnected | PhaseStopping | PhaseProviderManaged | PhaseFailed

  /** The phase reported for an environment that the gateway is not itself moving. */
  function PhaseForState(s: State): Phase {
    match s
    case StateRunning => PhaseRunning
    case StateStopped => PhaseStopped
    case StateStarting => PhaseStarting
    case StateProvisioning => PhaseProvisioning
    case StateStopping => PhaseStopping
    case StateFailed => PhaseFailed
    case _ => PhaseUnknown
  }

  datatype Transition = Transition(from: Phase, to: Phase)

  const MAX_HISTORY: nat := 32

  datatype Track = Track(phase: Phase, history: seq<Transition>)

  const UNTRACKED := Track(PhaseUnknown, [])

  function LastOf<T>(s: seq<T>, n: nat): seq<T> {
    if |s| > n then s[|s| - n..] else s
  }

  /** setPhase: nothing for a repeated phase, otherwise one more entry, trimmed from the front. */
  function ChangePhase(t: Track, to: Phase): Track {
    if t.phase == to then t else Track(to, LastOf(t.history + [Transition(t.phase, to)], MAX_HISTORY))
  }

  class EnvState {
    var phase: Phase
    var resolved: string   // the provider's id for the environment, "" before the first lookup
    var failed: bool   // whether lastErr holds an error
    var starts: nat
    var creates: nat
    var connects: nat
    var history: seq<Transition>
    ghost var asked: seq<Phase>     // every phase setPhase was ever called with
    ghost var tracks: seq<Track>    // what each of those calls left behind

    ghost predicate Valid()
      reads this
    {
      Tracked(asked, tracks) && View() == tracks[|asked|]
    }

    constructor ()
      ensures Valid() && asked == [] && resolved == "" && !failed && starts == creates == connects == 0
    {
      phase, resolved, failed, starts, creates, connects, history := PhaseUnknown, "", false, 0, 0, 0, [];
      asked, tracks := [], [UNTRACKED];
    }

    ghost function View(): Track
      reads this
    {
      Track(phase, history)
    }

    method SetPhase(to: Phase)
      requires Valid()
      modifies this`phase, this`history, this`failed, this`asked, this`tracks
      ensures Valid() && asked == old(asked) + [to]
      ensures View() == ChangePhase(old(View()), to)
      ensures failed == (old(failed) && (to == PhaseFailed || to == old(phase)))
    {
      TrackedOnce(asked, tracks, to);
      asked, tracks := asked + [to], tracks + [ChangePhase(View(), to)];
      var from := phase;
      if from == to {
        return;
      }
      phase := to;
      if to != PhaseFailed {
        failed := false;
      }
      history := history + [Transition(from, to)];
      if |history| > MAX_HISTORY {
        history := history[|history| - MAX_HISTORY..];
      }
    }

    method Resolve(env: Environment)
      modifies this`resolved
      ensures resolved == if env.id == "" then old(resolved) else env.id
    {
      if env.id == "" {
        return;
      }
      resolved := env.id;
    }

    method RecordErr()
      modifies this`failed
      ensures failed
    {
      failed := true;
    }
  }

  // ---------------------------------------------------------------- any sequence of phase changes

  function TrackAfter(phases: seq<Phase>): Track {
    if phases == [] then UNTRACKED else ChangePhase(TrackAfter(phases[..|phases| - 1]), phases[|phases| - 1])
  }

  /** The same, with every intermediate track on record. */
  ghost predicate Tracked(phases: seq<Phase>, tracks: seq<Track>) {
    && |tracks| == |phases| + 1 && tracks[0] == UNTRACKED
    && forall i {:trigger phases[i]} :: 0 <= i < |phases| ==> tracks[i + 1] == ChangePhase(tracks[i], phases[i])
  }

  lemma TrackedOnce(phases: seq<Phase>, tracks: seq<Track>, to: Phase)
    requires Tracked(phases, tracks)
    ensures Tracked(phases + [to], tracks + [ChangePhase(tracks[|phases|], to)])
  {}

  lemma {:induction false} TrackedFollows(phases: seq<Phase>, tracks: seq<Track>)
    requires Tracked(phases, tracks)
    ensures tracks[|phases|] == TrackAfter(phases)
  {
    if phases != [] {
      TrackedFollows(phases[..|phases| - 1], tracks[..|phases|]);
    }
  }

  /** The unbounded log: the changes of phase, repeated phases left out. */
  function FullLog(phases: seq<Phase>): seq<Transition> {
    if phases == [] then []
    else
      var before, to := phases[..|phases| - 1], phases[|phases| - 1];
      var from := if before == [] then PhaseUnknown else before[|before| - 1];
      FullLog(before) + if from == to then [] else [Transition(from, to)]
  }

  lemma LastOfGrown<T>(s: seq<T>, x: T, n: nat)
    requires n > 0
    ensures LastOf(LastOf(s, n) + [x], n) == LastOf(s + [x], n)
  {}

  /** The stored history is exactly the end of the full log, at most 32 entries of it. */
  lemma {:induction false} HistoryIsTheLogsEnd(phases: seq<Phase>)
    ensures var log := FullLog(phases);
            TrackAfter(phases).history == if |log| > 32 then log[|log| - 32..] else log
    ensures TrackAfter(phases).phase == if phases == [] then PhaseUnknown else phases[|phases| - 1]
  {
    if phases != [] {
      var before, to := phases[..|phases| - 1], phases[|phases| - 1];
      HistoryIsTheLogsEnd(before);
      LastOfGrown(FullLog(before), Transition(TrackAfter(before).phase, to), MAX_HISTORY);
      assert FullLog(before) + [] == FullLog(before);
    }
  }

  ghost predicate Chained(log: seq<Transition>) {
    && (forall i :: 0 <= i < |log| ==> log[i].from != log[i].to)
    && (forall i :: 0 < i < |log| ==> log[i - 1].to == log[i].from)
  }

  /** Entries follow one another without gap or self-transition, and end in the current phase. */
  lemma {:induction false} LogIsChained(phases: seq<Phase>)
    ensures Chained(FullLog(phases))
    ensures var log := FullLog(phases);
            TrackAfter(phases).phase == if log == [] then PhaseUnknown else log[|log| - 1].to
  {
    if phases != [] {
      LogIsChained(phases[..|phases| - 1]);
      PhaseIsLast(phases[..|phases| - 1]);
    }
  }

  lemma PhaseIsLast(phases: seq<Phase>)
    ensures TrackAfter(phases).phase == if phases == [] then PhaseUnknown else phases[|phases| - 1]
  {}

  lemma ChainedEnd(log: seq<Transition>, n: nat)
    requires Chained(log) && n > 0
    ensures Chained(LastOf(log, n)) && |LastOf(log, n)| <= n && (LastOf(log, n) == [] <==> log == [])
    ensures log != [] ==> LastOf(log, n)[|LastOf(log, n)| - 1] == log[|log| - 1]
  {}

  lemma HistoryIsChained(phases: seq<Phase>)
    ensures var t := TrackAfter(phases);
            && Chained(t.history) && |t.history| <= 32
            && (t.history != [] ==> t.history[|t.history| - 1].to == t.phase)
            && (t.history == [] <==> FullLog(phases) == [])
  {
    HistoryIsTheLogsEnd(phases);
    LogIsChained(phases);
    ChainedEnd(FullLog(phases), MAX_HISTORY);
  }
}
