/** ssh/session.go and ssh/forward.go: one SSH session channel. The request loop and the
    forwarder share sessionState; each section under its mutex, and each call made outside it
    (conn.Resize, conn.Close, cancel, release, close of `done`), is one step. */
module SshChannel {
  import opened Wrappers
  import opened Latches

  const GATEWAY_ENV := "GATEWAY_ENV"

  datatype Size = Size(rows: nat, cols: nat) {
    predicate Visible() { rows > 0 && cols > 0 }
  }

  /** The mutable fields of sessionState. `conn` and `release` are set together. */
  datatype Fields = Fields(pty: bool, term: string, size: Size, modes: seq<nat>, env: map<string, string>,
                           quiet: bool, started: bool, conn: bool)

  const FRESH := Fields(false, "", Size(0, 0), [], map[], false, false, false)

  /** clampDimension: a uint32 squeezed into a uint16. */
  function Clamp(v: nat): nat {
    if v > 0xffff then 0xffff else v
  }

  function ClampSize(rows: nat, cols: nat): Size {
    Size(Clamp(rows), Clamp(cols))
  }

  /** What run() reads of the request data; the hint falls back to the control variable. */
  datatype Snapshot = Snapshot(pty: bool, term: string, size: Size, modes: seq<nat>, env: map<string, string>)

  // ---------------------------------------------------------------- sections under sessionState.mu

  function PtyRequested(f: Fields, term: string, size: Size, modes: seq<nat>): (Fields, bool) {
    if f.started then (f, false) else (f.(pty := true, term := term, size := size, modes := modes), true)
  }

  function EnvRequested(f: Fields, name: string, value: string): Fields {
    if f.started then f else f.(env := f.env[name := value])
  }

  function Begun(f: Fields, subsystem: string): (Fields, bool) {
    if f.started then (f, false) else (f.(started := true, quiet := subsystem != ""), true)
  }

  function TakeSnapshot(f: Fields): Snapshot {
    Snapshot(f.pty, f.term, f.size, f.modes, f.env - {GATEWAY_ENV})
  }

  function Hint(f: Fields, loginHint: string): string {
    if loginHint != "" then loginHint else if GATEWAY_ENV in f.env then f.env[GATEWAY_ENV] else ""
  }

  /** The locked half of setConn: the connection is there, and this size is to be sent to it. */
  function Registered(f: Fields): (Fields, Size) {
    (f.(conn := true), f.size)
  }

  /** The locked half of resize: the size is stored, and sent if there is a connection to size. */
  function Resized(f: Fields, size: Size): (Fields, bool) {
    (f.(size := size), f.conn && size.Visible())
  }

  /** Whichever of setConn and resize takes the lock first, the second to come sends the new size,
      and both orders leave the same fields. */
  lemma EitherSectionDelivers(f: Fields, size: Size)
    requires !f.conn && size.Visible()
    ensures !Resized(f, size).1 && Registered(Resized(f, size).0).1 == size
    ensures Resized(Registered(f).0, size).1
    ensures Registered(Resized(f, size).0).0 == Resized(Registered(f).0, size).0
  {}

  class SessionState {
    var f: Fields
    const loginHint: string
    ghost var sent: seq<Size>   // the arguments of conn.Resize

    constructor (loginHint: string)
      ensures f == FRESH && this.loginHint == loginHint && sent == []
    {
      f, sent := FRESH, [];
      this.loginHint := loginHint;
    }

    method PtyRequest(term: string, rows: nat, cols: nat, modes: seq<nat>) returns (ok: bool)
      modifies this`f
      ensures (f, ok) == PtyRequested(old(f), term, ClampSize(rows, cols), modes)
    {
      ok := !f.started;
      if ok {
        f := f.(pty := true, term := term);
        f := f.(size := Size(Clamp(rows), Clamp(cols)));
        f := f.(modes := modes);
      }
    }

    method EnvRequest(name: string, value: string)
      modifies this`f
      ensures f == EnvRequested(old(f), name, value)
    {
      if !f.started {
        f := f.(env := f.env[name := value]);
      }
    }

    method Begin(subsystem: string) returns (ok: bool)
      modifies this`f
      ensures (f, ok) == Begun(old(f), subsystem)
    {
      if f.started {
        return false;
      }
      f := f.(started := true);
      f := f.(quiet := subsystem != "");
      return true;
    }

    method ReadSnapshot() returns (s: Snapshot)
      ensures s == TakeSnapshot(f)
    {
      var env: map<string, string> := map[];
      var rest := f.env.Keys;
      while rest != {}
        invariant rest <= f.env.Keys
        invariant env == map k | k in f.env && k !in rest && k != GATEWAY_ENV :: f.env[k]
        decreases |rest|
      {
        var k :| k in rest;
        rest := rest - {k};
        if k == GATEWAY_ENV { continue; }
        env := env[k := f.env[k]];
      }
      assert env == f.env - {GATEWAY_ENV};
      s := Snapshot(f.pty, f.term, f.size, f.modes, env);
    }

    /** The caller then resizes the connection outside the lock. */
    method Register() returns (size: Size)
      modifies this`f
      ensures (f, size) == Registered(old(f))
    {
      f := f.(conn := true);
      size := f.size;
    }

    method StoreSize(rows: nat, cols: nat) returns (deliver: bool)
      modifies this`f
      ensures (f, deliver) == Resized(old(f), Size(rows, cols))
    {
      f := f.(size := Size(rows, cols));
      deliver := f.conn && rows > 0 && cols > 0;
    }

    ghost method Send(size: Size)
      modifies this`sent
      ensures sent == old(sent) + [size]
    {
      sent := sent + [size];
    }

    /** setConn, when nothing comes in between: the stored size is sent if it is visible. */
    method SetConnection()
      modifies this
      ensures f == Registered(old(f)).0
      ensures sent == old(sent) + if old(f).size.Visible() then [old(f).size] else []
    {
      var size := Register();
      if size.rows > 0 && size.cols > 0 {
        Send(size);
      }
    }

    /** resize, when nothing comes in between: the size is stored, and sent if it is visible and there
        is a connection. */
    method Resize(rows: nat, cols: nat)
      modifies this
      ensures f == Resized(old(f), Size(rows, cols)).0
      ensures sent == old(sent) + if old(f).conn && rows > 0 && cols > 0 then [Size(rows, cols)] else []
    {
      var deliver := StoreSize(rows, cols);
      if deliver {
        Send(Size(rows, cols));
      }
    }
  }

  // ---------------------------------------------------------------- the two goroutines

  /** The request loop: reading requests, between begin's lock and `go run`, between resize's lock
      and conn.Resize, then the deferred teardown. Teardown's stages carry what its snapshot saw. */
  datatype Loop =
    | Reading
    | Launching
    | Resizing(size: Size)
    | HungUp
    | Cancelling(saw: bool, sawStarted: bool)
    | Closing(saw: bool, sawStarted: bool)
    | Awaiting(saw: bool, sawStarted: bool)
    | Releasing(saw: bool)
    | Ended(saw: bool)

  /** The forwarder run(): snapshot, hint, OpenSession, setConn and its resize, pump, close(done). */
  datatype Forwarder =
    | Unborn
    | Born
    | Snapped(snapshot: Snapshot)
    | Opening(snapshot: Snapshot, hint: string)
    | Connected(snapshot: Snapshot, hint: string)
    | Sizing(size: Size)
    | Pumping
    | Exiting
    | Gone

  /** The last five fields record what happened: the fields when begin won, sizes sent with
      conn.Resize, and how often teardown closed the connection, released the session record, and
      the forwarder closed `done`. `newest` is the last visible size the client reported;
      `skipped` says setConn found a hidden size although a visible one had come before. */
  datatype State = State(
    f: Fields,
    loop: Loop,
    forwarder: Forwarder,
    cancelled: bool,
    atBegin: Option<Fields>,
    delivered: seq<Size>,
    closes: nat,
    releases: nat,
    doneCloses: nat,
    newest: Option<Size>,
    skipped: bool)

  datatype Event =
    | Pty(term: string, rows: nat, cols: nat, modes: seq<nat>)
    | Env(name: string, value: string)
    | WindowChange(rows: nat, cols: nat)
    | DeliverChange
    | Begin(subsystem: string)
    | Launch
    | OtherRequest
    | HangUp
    | TeardownSnapshot
    | TeardownCancels
    | TeardownCloses
    | TeardownWaits
    | TeardownReleases
    | Snap
    | ReadHint
    | OpenFails
    | OpenSucceeds
    | SetConn
    | DeliverFirst
    | PumpEnds
    | CloseDone

  const INITIAL := State(FRESH, Reading, Unborn, false, None, [], 0, 0, 0, None, false)

  predicate Enabled(s: State, e: Event) {
    match e
    case Pty(_, _, _, _) => s.loop == Reading
    case Env(_, _) => s.loop == Reading
    case WindowChange(_, _) => s.loop == Reading
    case DeliverChange => s.loop.Resizing?
    case Begin(_) => s.loop == Reading
    case Launch => s.loop == Launching
    case OtherRequest => s.loop == Reading
    case HangUp => s.loop == Reading
    case TeardownSnapshot => s.loop == HungUp
    case TeardownCancels => s.loop.Cancelling?
    case TeardownCloses => s.loop.Closing?
    case TeardownWaits => s.loop.Awaiting?   // `done` closed, nothing to wait for, or five seconds over
    case TeardownReleases => s.loop.Releasing?
    case Snap => s.forwarder == Born
    case ReadHint => s.forwarder.Snapped?
    case OpenFails => s.forwarder.Opening?
    case OpenSucceeds => s.forwarder.Opening?
    case SetConn => s.forwarder.Connected?
    case DeliverFirst => s.forwarder.Sizing?
    case PumpEnds => s.forwarder == Pumping
    case CloseDone => s.forwarder == Exiting
  }

  function AfterPty(s: State, term: string, size: Size, modes: seq<nat>): State {
    var (f, ok) := PtyRequested(s.f, term, size, modes);
    if ok && size.Visible() then s.(f := f, newest := Some(size), skipped := false) else s.(f := f)
  }

  function AfterWindowChange(s: State, size: Size): State {
    var (f, deliver) := Resized(s.f, size);
    var s' := s.(f := f, loop := if deliver then Resizing(size) else Reading);
    if size.Visible() then s'.(newest := Some(size), skipped := false) else s'
  }

  function Apply(loginHint: string, s: State, e: Event): State
    requires Enabled(s, e)
  {
    match e
    case Pty(term, rows, cols, modes) => AfterPty(s, term, ClampSize(rows, cols), modes)
    case Env(name, value) => s.(f := EnvRequested(s.f, name, value))
    case WindowChange(rows, cols) => AfterWindowChange(s, ClampSize(rows, cols))
    case DeliverChange => s.(loop := Reading, delivered := s.delivered + [s.loop.size])
    case Begin(subsystem) =>
      var (f, ok) := Begun(s.f, subsystem);
      if ok then s.(f := f, loop := Launching, atBegin := Some(f)) else s
    case Launch => s.(loop := Reading, forwarder := Born)
    case OtherRequest => s
    case HangUp => s.(loop := HungUp)
    case TeardownSnapshot => s.(loop := Cancelling(s.f.conn, s.f.started))
    case TeardownCancels => s.(loop := Closing(s.loop.saw, s.loop.sawStarted), cancelled := true)
    case TeardownCloses =>
      s.(loop := Awaiting(s.loop.saw, s.loop.sawStarted), closes := if s.loop.saw then s.closes + 1 else s.closes)
    case TeardownWaits => s.(loop := Releasing(s.loop.saw))
    case TeardownReleases =>
      s.(loop := Ended(s.loop.saw), releases := if s.loop.saw then s.releases + 1 else s.releases)
    case Snap => s.(forwarder := Snapped(TakeSnapshot(s.f)))
    case ReadHint => s.(forwarder := Opening(s.forwarder.snapshot, Hint(s.f, loginHint)))
    case OpenFails => s.(forwarder := Exiting)
    case OpenSucceeds => s.(forwarder := Connected(s.forwarder.snapshot, s.forwarder.hint))
    case SetConn =>
      var (f, size) := Registered(s.f);
      s.(f := f, forwarder := Sizing(size), skipped := s.newest.Some? && !size.Visible())
    case DeliverFirst =>
      var size := s.forwarder.size;
      s.(forwarder := Pumping, delivered := if size.Visible() then s.delivered + [size] else s.delivered)
    case PumpEnds => s.(forwarder := Exiting)
    case CloseDone => s.(forwarder := Gone, doneCloses := s.doneCloses + 1)
  }

  // ---------------------------------------------------------------- invariant

  predicate TearingDown(l: Loop) {
    l.Cancelling? || l.Closing? || l.Awaiting? || l.Releasing? || l.Ended?
  }

  predicate Saw(l: Loop) {
    match l
    case Cancelling(saw, _) => saw
    case Closing(saw, _) => saw
    case Awaiting(saw, _) => saw
    case Releasing(saw) => saw
    case Ended(saw) => saw
    case _ => false
  }

  ghost predicate BegunOnce(s: State) {
    && (s.f.started <==> s.atBegin.Some?)
    && (s.forwarder != Unborn ==> s.f.started && s.loop != Launching)
    && (s.loop == Launching ==> s.f.started)
    && s.doneCloses == (if s.forwarder == Gone then 1 else 0)
    && (s.f.conn ==> s.forwarder.Sizing? || s.forwarder == Pumping || s.forwarder == Exiting || s.forwarder == Gone)
    && (s.forwarder.Sizing? || s.forwarder == Pumping ==> s.f.conn)
  }

  ghost predicate RequestFrozen(s: State) {
    s.atBegin.Some? ==> SameRequest(s.f, s.atBegin.value)
  }

  ghost predicate SnapshotAgrees(s: State) {
    s.forwarder.Snapped? || s.forwarder.Opening? || s.forwarder.Connected? ==>
      && s.forwarder.snapshot.env == s.f.env - {GATEWAY_ENV} && s.forwarder.snapshot.pty == s.f.pty
      && s.forwarder.snapshot.term == s.f.term && s.forwarder.snapshot.modes == s.f.modes
  }

  ghost predicate HintAgrees(s: State, loginHint: string) {
    s.forwarder.Opening? || s.forwarder.Connected? ==> s.forwarder.hint == Hint(s.f, loginHint)
  }

  ghost predicate Frozen(s: State, loginHint: string) {
    RequestFrozen(s) && SnapshotAgrees(s) && HintAgrees(s, loginHint)
  }

  ghost predicate TornDownOnce(s: State) {
    && s.closes == (if Saw(s.loop) && !s.loop.Cancelling? && !s.loop.Closing? then 1 else 0)
    && s.releases == (if s.loop == Ended(true) then 1 else 0)
    && (Saw(s.loop) ==> s.f.conn)
  }

  ghost predicate ChangePending(s: State, size: Size) {
    s.loop == Resizing(size) || s.forwarder == Sizing(size)
  }

  ghost predicate SizesAgree(s: State) {
    && (s.newest.Some? ==> s.newest.value.Visible())
    && (s.f.size.Visible() ==> s.newest == Some(s.f.size))
    && (!s.f.conn ==> s.delivered == [] && !s.loop.Resizing? && !s.skipped)
    && (s.loop.Resizing? ==> s.newest == Some(s.loop.size))
    && (s.skipped ==> s.f.conn && s.newest.Some? && s.delivered == [] && !s.loop.Resizing? && !s.f.size.Visible()
                      && (s.forwarder.Sizing? ==> !s.forwarder.size.Visible()))
    && (s.f.conn && s.newest.Some? && !s.skipped ==> s.newest.value in s.delivered || ChangePending(s, s.newest.value))
  }

  ghost predicate Inv(s: State, loginHint: string) {
    BegunOnce(s) && Frozen(s, loginHint) && TornDownOnce(s) && SizesAgree(s)
  }

  predicate ByForwarder(e: Event) {
    || e.Snap? || e.ReadHint? || e.OpenFails? || e.OpenSucceeds?
    || e.SetConn? || e.DeliverFirst? || e.PumpEnds? || e.CloseDone?
  }

  lemma ForwarderKeepsBegun(loginHint: string, s: State, e: Event)
    requires BegunOnce(s) && Enabled(s, e) && ByForwarder(e)
    ensures BegunOnce(Apply(loginHint, s, e))
  {}

  predicate ByClient(e: Event) {
    e.Pty? || e.Env? || e.WindowChange? || e.Begin? || e.OtherRequest? || e.HangUp?
  }

  lemma ClientKeepsBegun(loginHint: string, s: State, e: Event)
    requires BegunOnce(s) && Enabled(s, e) && ByClient(e)
    ensures BegunOnce(Apply(loginHint, s, e))
  {}

  lemma LoopKeepsBegun(loginHint: string, s: State, e: Event)
    requires BegunOnce(s) && Enabled(s, e) && !ByForwarder(e) && !ByClient(e)
    ensures BegunOnce(Apply(loginHint, s, e))
  {}

  lemma StepKeepsBegun(loginHint: string, s: State, e: Event)
    requires BegunOnce(s) && Enabled(s, e)
    ensures BegunOnce(Apply(loginHint, s, e))
  {
    if ByForwarder(e) {
      ForwarderKeepsBegun(loginHint, s, e);
    } else if ByClient(e) {
      ClientKeepsBegun(loginHint, s, e);
    } else {
      LoopKeepsBegun(loginHint, s, e);
    }
  }

  predicate SameRequest(f: Fields, g: Fields) {
    f.env == g.env && f.pty == g.pty && f.term == g.term && f.modes == g.modes && f.quiet == g.quiet
  }

  lemma StartedStep(loginHint: string, s: State, e: Event)
    requires s.f.started && Enabled(s, e)
    ensures SameRequest(Apply(loginHint, s, e).f, s.f)
  {
    match e
    case Pty(term, rows, cols, modes) => assert PtyRequested(s.f, term, ClampSize(rows, cols), modes).0 == s.f;
    case Env(name, value) => assert EnvRequested(s.f, name, value) == s.f;
    case WindowChange(rows, cols) => assert SameRequest(Resized(s.f, ClampSize(rows, cols)).0, s.f);
    case Begin(subsystem) => assert Begun(s.f, subsystem).0 == s.f;
    case SetConn => assert SameRequest(Registered(s.f).0, s.f);
    case _ =>
  }

  lemma StepKeepsRequest(loginHint: string, s: State, e: Event)
    requires BegunOnce(s) && RequestFrozen(s) && Enabled(s, e)
    ensures RequestFrozen(Apply(loginHint, s, e))
  {
    StepKeepsStarted(loginHint, s, e);
    if s.f.started {
      StartedStep(loginHint, s, e);
    } else {
      assert Apply(loginHint, s, e).atBegin.Some? ==> Apply(loginHint, s, e).atBegin == Some(Apply(loginHint, s, e).f);
    }
  }

  lemma LoopKeepsForwarder(loginHint: string, s: State, e: Event)
    requires Enabled(s, e) && !ByForwarder(e) && e != Launch
    ensures Apply(loginHint, s, e).forwarder == s.forwarder
  {}

  lemma StepKeepsSnapshot(loginHint: string, s: State, e: Event)
    requires BegunOnce(s) && SnapshotAgrees(s) && Enabled(s, e)
    ensures SnapshotAgrees(Apply(loginHint, s, e))
  {
    if !ByForwarder(e) && e != Launch {
      LoopKeepsForwarder(loginHint, s, e);
      if s.f.started {
        StartedStep(loginHint, s, e);
      }
    }
  }

  lemma StepKeepsHint(loginHint: string, s: State, e: Event)
    requires BegunOnce(s) && HintAgrees(s, loginHint) && Enabled(s, e)
    ensures HintAgrees(Apply(loginHint, s, e), loginHint)
  {}

  lemma StepKeepsFrozen(loginHint: string, s: State, e: Event)
    requires BegunOnce(s) && Frozen(s, loginHint) && Enabled(s, e)
    ensures Frozen(Apply(loginHint, s, e), loginHint)
  {
    StepKeepsRequest(loginHint, s, e);
    StepKeepsSnapshot(loginHint, s, e);
    StepKeepsHint(loginHint, s, e);
  }

  lemma StepKeepsTornDown(loginHint: string, s: State, e: Event)
    requires TornDownOnce(s) && Enabled(s, e)
    ensures TornDownOnce(Apply(loginHint, s, e))
  {}

  predicate TouchesSizes(e: Event) {
    e.Pty? || e.WindowChange? || e.DeliverChange? || e.SetConn? || e.DeliverFirst?
  }

  lemma PtyKeepsSizes(s: State, term: string, size: Size, modes: seq<nat>)
    requires BegunOnce(s) && SizesAgree(s) && s.loop == Reading
    ensures SizesAgree(AfterPty(s, term, size, modes))
  {}

  lemma WindowChangeKeepsSizes(s: State, size: Size)
    requires SizesAgree(s) && s.loop == Reading
    ensures SizesAgree(AfterWindowChange(s, size))
  {}

  lemma SendingKeepsSizes(loginHint: string, s: State, e: Event)
    requires BegunOnce(s) && SizesAgree(s) && Enabled(s, e) && (e.DeliverChange? || e.SetConn? || e.DeliverFirst?)
    ensures SizesAgree(Apply(loginHint, s, e))
  {}

  lemma OtherStepKeepsSizes(loginHint: string, s: State, e: Event)
    requires BegunOnce(s) && SizesAgree(s) && Enabled(s, e) && !TouchesSizes(e)
    ensures SizesAgree(Apply(loginHint, s, e))
  {}

  lemma StepKeepsSizes(loginHint: string, s: State, e: Event)
    requires BegunOnce(s) && SizesAgree(s) && Enabled(s, e)
    ensures SizesAgree(Apply(loginHint, s, e))
  {
    if e.Pty? {
      PtyKeepsSizes(s, e.term, ClampSize(e.rows, e.cols), e.modes);
    } else if e.WindowChange? {
      WindowChangeKeepsSizes(s, ClampSize(e.rows, e.cols));
    } else if TouchesSizes(e) {
      SendingKeepsSizes(loginHint, s, e);
    } else {
      OtherStepKeepsSizes(loginHint, s, e);
    }
  }

  lemma StepKeepsStarted(loginHint: string, s: State, e: Event)
    requires Enabled(s, e)
    ensures s.f.started ==> Apply(loginHint, s, e).f.started && Apply(loginHint, s, e).atBegin == s.atBegin
    ensures s.f.conn ==> Apply(loginHint, s, e).f.conn
  {}

  // ---------------------------------------------------------------- whole runs

  ghost predicate Run(loginHint: string, states: seq<State>, events: seq<Event>) {
    && |states| == |events| + 1
    && states[0] == INITIAL
    && forall i :: 0 <= i < |events| ==>
         Enabled(states[i], events[i]) && states[i + 1] == Apply(loginHint, states[i], events[i])
  }

  lemma {:induction false} Always(loginHint: string, states: seq<State>, events: seq<Event>, i: nat)
    requires Run(loginHint, states, events) && i <= |events|
    ensures Inv(states[i], loginHint)
  {
    if i > 0 {
      Always(loginHint, states, events, i - 1);
      StepKeepsBegun(loginHint, states[i - 1], events[i - 1]);
      StepKeepsFrozen(loginHint, states[i - 1], events[i - 1]);
      StepKeepsTornDown(loginHint, states[i - 1], events[i - 1]);
      StepKeepsSizes(loginHint, states[i - 1], events[i - 1]);
    }
  }

  /** No step un-begins the channel, changes what it began with, or drops its connection. */
  ghost predicate Monotone(states: seq<State>) {
    forall i :: 0 <= i < |states| - 1 ==>
      && (states[i].f.started ==> states[i + 1].f.started && states[i + 1].atBegin == states[i].atBegin)
      && (states[i].f.conn ==> states[i + 1].f.conn)
  }

  lemma RunIsMonotone(loginHint: string, states: seq<State>, events: seq<Event>)
    requires Run(loginHint, states, events)
    ensures Monotone(states)
  {
    forall i | 0 <= i < |states| - 1
      ensures states[i].f.started ==> states[i + 1].f.started && states[i + 1].atBegin == states[i].atBegin
      ensures states[i].f.conn ==> states[i + 1].f.conn
    {
      StepKeepsStarted(loginHint, states[i], events[i]);
    }
  }

  lemma {:induction false} MonotoneStays(states: seq<State>, i: nat, j: nat)
    requires Monotone(states) && i <= j < |states|
    ensures states[i].f.started ==> states[j].f.started && states[j].atBegin == states[i].atBegin
    ensures states[i].f.conn ==> states[j].f.conn
    decreases j
  {
    if i < j {
      MonotoneStays(states, i, j - 1);
    }
  }

  /** At most one shell, exec or subsystem request of a channel is granted; a later one changes nothing. */
  lemma OneSessionPerChannel(loginHint: string, states: seq<State>, events: seq<Event>, i: nat, j: nat)
    requires Run(loginHint, states, events) && i < j < |events| && events[i].Begin? && events[j].Begin?
    ensures states[j + 1] == states[j] && states[j].f.started && states[j].doneCloses <= 1
  {
    assert Enabled(states[i], events[i]) && states[i + 1] == Apply(loginHint, states[i], events[i]);
    assert Enabled(states[j], events[j]) && states[j + 1] == Apply(loginHint, states[j], events[j]);
    RunIsMonotone(loginHint, states, events);
    MonotoneStays(states, i + 1, j);
    Always(loginHint, states, events, j);
  }

  /** The environment hint and the snapshot are read under separate locks but agree: both come
      from the request data as it stood when begin won. */
  lemma OpenRequestIsFrozen(loginHint: string, states: seq<State>, events: seq<Event>, i: nat)
    requires Run(loginHint, states, events) && i <= |events| && states[i].forwarder.Opening?
    ensures states[i].atBegin.Some?
    ensures var b, o := states[i].atBegin.value, states[i].forwarder;
            && o.hint == Hint(b, loginHint)
            && o.snapshot == TakeSnapshot(b).(size := o.snapshot.size)
            && GATEWAY_ENV !in o.snapshot.env
  {
    Always(loginHint, states, events, i);
  }

  // ---------------------------------------------------------------- what the client asked for

  /** The channel's session is started by this request: the first shell, exec or subsystem. */
  ghost predicate WinsAt(events: seq<Event>, b: nat) {
    b < |events| && events[b].Begin? && forall j :: 0 <= j < b ==> !events[j].Begin?
  }

  predicate SetsVar(e: Event, name: string) {
    e.Env? && e.name == name
  }

  ghost predicate NeverSet(events: seq<Event>, n: nat, name: string)
    requires n <= |events|
  {
    forall j :: 0 <= j < n ==> !SetsVar(events[j], name)
  }

  /** Among the first n events, the last one to set this variable gave it this value. */
  ghost predicate LastSet(events: seq<Event>, n: nat, name: string, value: string)
    requires n <= |events|
  {
    exists j: nat :: j < n && events[j] == Env(name, value) && forall m :: j < m < n ==> !SetsVar(events[m], name)
  }

  ghost predicate NoPty(events: seq<Event>, n: nat)
    requires n <= |events|
  {
    forall j :: 0 <= j < n ==> !events[j].Pty?
  }

  predicate AsksFor(e: Event, term: string, modes: seq<nat>) {
    e.Pty? && e.term == term && e.modes == modes
  }

  /** Among the first n events, the last one to ask for a terminal gave these. */
  ghost predicate LastPty(events: seq<Event>, n: nat, term: string, modes: seq<nat>)
    requires n <= |events|
  {
    exists j: nat :: j < n && AsksFor(events[j], term, modes) && forall m :: j < m < n ==> !events[m].Pty?
  }

  lemma OneMoreEnv(events: seq<Event>, n: nat, name: string, value: string)
    requires n < |events|
    ensures LastSet(events, n + 1, name, value) <==>
      if SetsVar(events[n], name) then events[n].value == value else LastSet(events, n, name, value)
  {
    if SetsVar(events[n], name) {
      if events[n].value == value {
        assert events[n] == Env(name, value);
      }
    } else if LastSet(events, n, name, value) {
      var j: nat :| j < n && events[j] == Env(name, value) && forall m :: j < m < n ==> !SetsVar(events[m], name);
      assert j < n + 1 && forall m :: j < m < n + 1 ==> !SetsVar(events[m], name);
    }
  }

  lemma OneMorePty(events: seq<Event>, n: nat, term: string, modes: seq<nat>)
    requires n < |events|
    ensures LastPty(events, n + 1, term, modes) <==>
      if events[n].Pty? then AsksFor(events[n], term, modes) else LastPty(events, n, term, modes)
  {
    if events[n].Pty? {
    } else if LastPty(events, n, term, modes) {
      var j: nat :| j < n && AsksFor(events[j], term, modes) && forall m :: j < m < n ==> !events[m].Pty?;
      assert j < n + 1 && forall m :: j < m < n + 1 ==> !events[m].Pty?;
    }
  }

  ghost predicate EnvFrom(env: map<string, string>, events: seq<Event>, n: nat)
    requires n <= |events|
  {
    forall k, v {:trigger LastSet(events, n, k, v)} :: (k in env && env[k] == v) <==> LastSet(events, n, k, v)
  }

  ghost predicate PtyFrom(pty: bool, term: string, modes: seq<nat>, events: seq<Event>, n: nat)
    requires n <= |events|
  {
    if pty then LastPty(events, n, term, modes) else NoPty(events, n) && term == "" && modes == []
  }

  lemma EnvFromOneMore(env: map<string, string>, events: seq<Event>, n: nat)
    requires n < |events| && EnvFrom(env, events, n)
    ensures EnvFrom(if events[n].Env? then env[events[n].name := events[n].value] else env, events, n + 1)
  {
    var env' := if events[n].Env? then env[events[n].name := events[n].value] else env;
    var m := n + 1;
    forall k, v {:trigger LastSet(events, m, k, v)} ensures (k in env' && env'[k] == v) <==> LastSet(events, m, k, v) {
      OneMoreEnv(events, n, k, v);
      assert (k in env && env[k] == v) <==> LastSet(events, n, k, v);
    }
  }

  /** A step that does not begin the session. */
  lemma UnbegunStep(loginHint: string, s: State, e: Event)
    requires Enabled(s, e) && !s.f.started && !e.Begin?
    ensures var f := Apply(loginHint, s, e).f;
            && !f.started
            && f.env == (if e.Env? then s.f.env[e.name := e.value] else s.f.env)
            && (e.Pty? ==> f.pty && f.term == e.term && f.modes == e.modes)
            && (!e.Pty? ==> f.pty == s.f.pty && f.term == s.f.term && f.modes == s.f.modes)
  {
    match e
    case Pty(term, rows, cols, modes) =>
      assert Apply(loginHint, s, e).f == PtyRequested(s.f, term, ClampSize(rows, cols), modes).0;
    case Env(name, value) => assert Apply(loginHint, s, e).f == EnvRequested(s.f, name, value);
    case WindowChange(rows, cols) => assert Apply(loginHint, s, e).f == Resized(s.f, ClampSize(rows, cols)).0;
    case SetConn => assert Apply(loginHint, s, e).f == Registered(s.f).0;
    case _ =>
  }

  /** Before the session begins the fields hold what the requests so far have said. */
  lemma {:induction false} FieldsFromEvents(loginHint: string, states: seq<State>, events: seq<Event>, n: nat)
    requires Run(loginHint, states, events) && n <= |events|
    requires forall j :: 0 <= j < n ==> !events[j].Begin?
    ensures !states[n].f.started && EnvFrom(states[n].f.env, events, n)
    ensures PtyFrom(states[n].f.pty, states[n].f.term, states[n].f.modes, events, n)
  {
    if n > 0 {
      var s, e := states[n - 1], events[n - 1];
      FieldsFromEvents(loginHint, states, events, n - 1);
      UnbegunStep(loginHint, s, e);
      EnvFromOneMore(s.f.env, events, n - 1);
      OneMorePty(events, n - 1, states[n].f.term, states[n].f.modes);
    }
  }

  lemma StartedStays(loginHint: string, s: State, e: Event)
    requires Enabled(s, e)
    ensures Apply(loginHint, s, e).f.started <==> s.f.started || e.Begin?
  {
    StepKeepsStarted(loginHint, s, e);
    if !s.f.started && !e.Begin? {
      UnbegunStep(loginHint, s, e);
    }
  }

  lemma {:induction false} Winner(loginHint: string, states: seq<State>, events: seq<Event>, i: nat) returns (b: nat)
    requires Run(loginHint, states, events) && i <= |events| && states[i].f.started
    ensures b < i && WinsAt(events, b)
  {
    StartedStays(loginHint, states[i - 1], events[i - 1]);
    if states[i - 1].f.started {
      b := Winner(loginHint, states, events, i - 1);
    } else {
      b := i - 1;
      RunIsMonotone(loginHint, states, events);
      forall j | 0 <= j < b ensures !events[j].Begin? {
        StartedStays(loginHint, states[j], events[j]);
        MonotoneStays(states, j + 1, b);
      }
    }
  }

  lemma BeginStep(loginHint: string, s: State, e: Event)
    requires Enabled(s, e) && !s.f.started && e.Begin?
    ensures var s' := Apply(loginHint, s, e);
            && s'.atBegin == Some(s'.f) && s'.f.env == s.f.env && s'.f.pty == s.f.pty && s'.f.term == s.f.term
            && s'.f.modes == s.f.modes && (s'.f.quiet <==> e.subsystem != "")
  {}

  /** What is opened, told by the login and the requests that came before the winning one: the login's
      environment hint or else the last GATEWAY_ENV; every other variable as last set; the terminal last
      asked for. Whether progress is shown is told by the winning request itself. */
  lemma OpenRequestFromEvents(loginHint: string, states: seq<State>, events: seq<Event>, i: nat) returns (b: nat)
    requires Run(loginHint, states, events) && i <= |events| && states[i].forwarder.Opening?
    ensures b < i && WinsAt(events, b)
    ensures var o := states[i].forwarder;
            && (loginHint != "" ==> o.hint == loginHint)
            && (loginHint == "" ==>
                  LastSet(events, b, "GATEWAY_ENV", o.hint) || (o.hint == "" && NeverSet(events, b, "GATEWAY_ENV")))
            && (forall k, v {:trigger LastSet(events, b, k, v)} ::
                  (k in o.snapshot.env && o.snapshot.env[k] == v) <==> k != "GATEWAY_ENV" && LastSet(events, b, k, v))
            && PtyFrom(o.snapshot.pty, o.snapshot.term, o.snapshot.modes, events, b)
    ensures states[i].f.quiet <==> events[b].subsystem != ""
  {
    Always(loginHint, states, events, i);
    b := Winner(loginHint, states, events, i);
    FieldsFromEvents(loginHint, states, events, b);
    BeginStep(loginHint, states[b], events[b]);
    RunIsMonotone(loginHint, states, events);
    MonotoneStays(states, b + 1, i);
    OpenRequestIsFrozen(loginHint, states, events, i);
    OpenedWith(loginHint, states[b].f, states[i].forwarder.hint, states[i].forwarder.snapshot.env, events, b);
  }

  lemma OpenedWith(loginHint: string, f: Fields, hint: string, env: map<string, string>, events: seq<Event>, b: nat)
    requires b <= |events| && EnvFrom(f.env, events, b) && hint == Hint(f, loginHint) && env == f.env - {GATEWAY_ENV}
    ensures loginHint != "" ==> hint == loginHint
    ensures loginHint == "" ==>
              LastSet(events, b, "GATEWAY_ENV", hint) || (hint == "" && NeverSet(events, b, "GATEWAY_ENV"))
    ensures forall k, v {:trigger LastSet(events, b, k, v)} ::
              (k in env && env[k] == v) <==> k != "GATEWAY_ENV" && LastSet(events, b, k, v)
  {
    if loginHint == "" {
      if GATEWAY_ENV in f.env {
        assert LastSet(events, b, GATEWAY_ENV, f.env[GATEWAY_ENV]);
      } else {
        SetLeavesValue(f.env, events, b, GATEWAY_ENV);
      }
    }
  }

  lemma LastSetter(events: seq<Event>, n: nat, name: string) returns (j: nat)
    requires n <= |events| && !NeverSet(events, n, name)
    ensures j < n && SetsVar(events[j], name) && forall m :: j < m < n ==> !SetsVar(events[m], name)
  {
    j := n - 1;
    while !SetsVar(events[j], name)
      invariant j < n && !NeverSet(events, j + 1, name)
      invariant forall m :: j < m < n ==> !SetsVar(events[m], name)
      decreases j
    {
      j := j - 1;
    }
  }

  lemma SetLeavesValue(env: map<string, string>, events: seq<Event>, n: nat, name: string)
    requires n <= |events| && EnvFrom(env, events, n) && name !in env
    ensures NeverSet(events, n, name)
  {
    if !NeverSet(events, n, name) {
      var j := LastSetter(events, n, name);
      assert events[j] == Env(name, events[j].value);
      assert LastSet(events, n, name, events[j].value);
      assert false;
    }
  }

  /** A size report that counts: a window change, or a pty request before the session began. */
  ghost predicate ReportsSize(events: seq<Event>, j: nat)
    requires j < |events|
  {
    events[j].WindowChange? || (events[j].Pty? && forall m :: 0 <= m < j ==> !events[m].Begin?)
  }

  /** A reported size with both dimensions cut down to sixteen bits. */
  predicate CutDown(e: Event, size: Size)
    requires e.WindowChange? || e.Pty?
  {
    && size.rows == (if e.rows > 65535 then 65535 else e.rows)
    && size.cols == (if e.cols > 65535 then 65535 else e.cols)
  }

  ghost predicate SizeFrom(size: Size, events: seq<Event>, n: nat)
    requires n <= |events|
  {
    || (size == Size(0, 0) && forall j: nat {:trigger events[j]} :: j < n ==> !ReportsSize(events, j))
    || (exists j: nat {:trigger events[j]} ::
          && j < n && ReportsSize(events, j) && CutDown(events[j], size)
          && forall m: nat {:trigger events[m]} :: j < m < n ==> !ReportsSize(events, m))
  }

  lemma SizeStep(loginHint: string, s: State, e: Event)
    requires Enabled(s, e)
    ensures var size := Apply(loginHint, s, e).f.size;
            if e.WindowChange? || (e.Pty? && !s.f.started) then CutDown(e, size) else size == s.f.size
  {
    match e
    case Pty(term, rows, cols, modes) =>
      assert Apply(loginHint, s, e).f == PtyRequested(s.f, term, ClampSize(rows, cols), modes).0;
    case Env(name, value) => assert Apply(loginHint, s, e).f == EnvRequested(s.f, name, value);
    case WindowChange(rows, cols) => assert Apply(loginHint, s, e).f == Resized(s.f, ClampSize(rows, cols)).0;
    case Begin(subsystem) => assert Apply(loginHint, s, e).f == Begun(s.f, subsystem).0;
    case SetConn => assert Apply(loginHint, s, e).f == Registered(s.f).0;
    case _ =>
  }

  lemma SizeFromOneMore(size: Size, size': Size, events: seq<Event>, n: nat)
    requires n < |events| && SizeFrom(size, events, n)
    requires if ReportsSize(events, n) then CutDown(events[n], size') else size' == size
    ensures SizeFrom(size', events, n + 1)
  {
    if !ReportsSize(events, n) && exists j: nat :: j < n && ReportsSize(events, j) {
      var j: nat :| j < n && ReportsSize(events, j) && CutDown(events[j], size)
                    && forall m: nat {:trigger events[m]} :: j < m < n ==> !ReportsSize(events, m);
      assert events[j] == events[j];
    }
  }

  /** The stored size is that of the last report that counts, each dimension at most 65535. */
  lemma {:induction false} SizeFromEvents(loginHint: string, states: seq<State>, events: seq<Event>, n: nat)
    requires Run(loginHint, states, events) && n <= |events|
    ensures SizeFrom(states[n].f.size, events, n)
  {
    if n > 0 {
      SizeFromEvents(loginHint, states, events, n - 1);
      SizeStep(loginHint, states[n - 1], events[n - 1]);
      StartedExactly(loginHint, states, events, n - 1);
      SizeFromOneMore(states[n - 1].f.size, states[n].f.size, events, n - 1);
    }
  }

  lemma StartedExactly(loginHint: string, states: seq<State>, events: seq<Event>, n: nat)
    requires Run(loginHint, states, events) && n <= |events|
    ensures states[n].f.started <==> exists j :: 0 <= j < n && events[j].Begin?
  {
    if states[n].f.started {
      var b := Winner(loginHint, states, events, n);
    } else if exists j :: 0 <= j < n && events[j].Begin? {
      var j :| 0 <= j < n && events[j].Begin?;
      StartedStays(loginHint, states[j], events[j]);
      RunIsMonotone(loginHint, states, events);
      MonotoneStays(states, j + 1, n);
    }
  }

  ghost predicate SizedAtSnap(size: Size, events: seq<Event>, j: nat) {
    j < |events| && events[j] == Snap && SizeFrom(size, events, j)
  }

  /** The size in the snapshot is the one last reported when the snapshot was taken. */
  lemma {:induction false} SnapshotSize(loginHint: string, states: seq<State>, events: seq<Event>, i: nat)
    requires Run(loginHint, states, events) && i <= |events|
    ensures var o := states[i].forwarder;
            o.Snapped? || o.Opening? || o.Connected? ==>
              exists j: nat :: j < i && SizedAtSnap(o.snapshot.size, events, j)
  {
    if i > 0 {
      var o, o' := states[i - 1].forwarder, states[i].forwarder;
      SnapshotSize(loginHint, states, events, i - 1);
      SnapshotStep(loginHint, states[i - 1], events[i - 1]);
      if (o'.Snapped? || o'.Opening? || o'.Connected?) && events[i - 1] == Snap {
        SizeFromEvents(loginHint, states, events, i - 1);
        assert SizedAtSnap(o'.snapshot.size, events, i - 1);
      }
    }
  }

  lemma SnapshotStep(loginHint: string, s: State, e: Event)
    requires Enabled(s, e)
    ensures var o, o' := s.forwarder, Apply(loginHint, s, e).forwarder;
            o'.Snapped? || o'.Opening? || o'.Connected? ==>
              if e == Snap then o'.snapshot.size == s.f.size
              else (o.Snapped? || o.Opening? || o.Connected?) && o'.snapshot == o.snapshot
  {
    if !ByForwarder(e) && e != Launch {
      LoopKeepsForwarder(loginHint, s, e);
    }
  }

  // ---------------------------------------------------------------- teardown

  lemma ConnStep(loginHint: string, s: State, e: Event)
    requires Enabled(s, e)
    ensures Apply(loginHint, s, e).f.conn <==> s.f.conn || e.SetConn?
  {
    match e
    case Pty(term, rows, cols, modes) =>
      assert PtyRequested(s.f, term, ClampSize(rows, cols), modes).0.conn == s.f.conn;
    case Env(name, value) => assert EnvRequested(s.f, name, value).conn == s.f.conn;
    case Begin(subsystem) => assert Begun(s.f, subsystem).0.conn == s.f.conn;
    case _ =>
  }

  lemma {:induction false} ConnIffSet(loginHint: string, states: seq<State>, events: seq<Event>, n: nat)
    requires Run(loginHint, states, events) && n <= |events|
    ensures states[n].f.conn <==> exists j :: 0 <= j < n && events[j] == SetConn
  {
    if n > 0 {
      ConnIffSet(loginHint, states, events, n - 1);
      ConnStep(loginHint, states[n - 1], events[n - 1]);
    }
  }

  ghost predicate KeepsSnapshot(s: State, e: Event, s': State) {
    && (e == TeardownSnapshot ==> TearingDown(s'.loop) && Saw(s'.loop) == s.f.conn)
    && (TearingDown(s.loop) ==> TearingDown(s'.loop) && Saw(s'.loop) == Saw(s.loop))
  }

  /** What teardown's snapshot saw stays what it acts on. */
  lemma SawStep(loginHint: string, s: State, e: Event)
    requires Enabled(s, e)
    ensures KeepsSnapshot(s, e, Apply(loginHint, s, e))
  {}

  /** Every snapshot of teardown is kept until teardown is over. */
  ghost predicate SnapshotsKept(states: seq<State>, events: seq<Event>)
    requires |states| == |events| + 1
  {
    forall i :: 0 <= i < |events| ==> KeepsSnapshot(states[i], events[i], states[i + 1])
  }

  lemma RunKeepsSnapshots(loginHint: string, states: seq<State>, events: seq<Event>)
    requires Run(loginHint, states, events)
    ensures SnapshotsKept(states, events)
  {
    forall i | 0 <= i < |events| ensures KeepsSnapshot(states[i], events[i], states[i + 1]) {
      SawStep(loginHint, states[i], events[i]);
    }
  }

  lemma {:induction false} KeptSnapshot(states: seq<State>, events: seq<Event>, k: nat, i: nat)
    requires |states| == |events| + 1 && SnapshotsKept(states, events)
    requires k < i <= |events| && events[k] == TeardownSnapshot
    ensures TearingDown(states[i].loop) && Saw(states[i].loop) == states[k].f.conn
    decreases i
  {
    if k < i - 1 {
      KeptSnapshot(states, events, k, i - 1);
    }
  }

  lemma SawWhatWasThere(loginHint: string, states: seq<State>, events: seq<Event>, k: nat, i: nat)
    requires Run(loginHint, states, events) && k < i <= |events| && events[k] == TeardownSnapshot
    ensures TearingDown(states[i].loop) && Saw(states[i].loop) == states[k].f.conn
  {
    RunKeepsSnapshots(loginHint, states, events);
    KeptSnapshot(states, events, k, i);
  }

  /** When teardown is over, the connection has been closed once and the session record released
      once if setConn came before teardown's snapshot, and neither has happened otherwise. */
  lemma TeardownReleasesExactly(loginHint: string, states: seq<State>, events: seq<Event>, k: nat, i: nat)
    requires Run(loginHint, states, events) && k < i <= |events|
    requires events[k] == TeardownSnapshot && states[i].loop.Ended?
    ensures states[i].closes == states[i].releases
         == if exists j :: 0 <= j < k && events[j] == SetConn then 1 else 0
  {
    Always(loginHint, states, events, i);
    ConnIffSet(loginHint, states, events, k);
    SawWhatWasThere(loginHint, states, events, k, i);
  }

  /** The session's context is cancelled by teardown and by nothing else, before teardown closes or
      waits for anything. */
  lemma {:induction false} CancelledExactly(loginHint: string, states: seq<State>, events: seq<Event>, i: nat)
    requires Run(loginHint, states, events) && i <= |events|
    ensures var l := states[i].loop;
            states[i].cancelled <==> l.Closing? || l.Awaiting? || l.Releasing? || l.Ended?
  {
    if i > 0 {
      CancelledExactly(loginHint, states, events, i - 1);
      CancelStep(loginHint, states[i - 1], events[i - 1]);
    }
  }

  ghost predicate CancelledWhenPast(cancelled: bool, l: Loop) {
    cancelled <==> l.Closing? || l.Awaiting? || l.Releasing? || l.Ended?
  }

  lemma CancelStep(loginHint: string, s: State, e: Event)
    requires Enabled(s, e) && CancelledWhenPast(s.cancelled, s.loop)
    ensures CancelledWhenPast(Apply(loginHint, s, e).cancelled, Apply(loginHint, s, e).loop)
  {}

  /** In every state all three counts are at most one. */
  lemma ReleasedAtMostOnce(loginHint: string, states: seq<State>, events: seq<Event>, i: nat)
    requires Run(loginHint, states, events) && i <= |events|
    ensures states[i].closes <= 1 && states[i].releases <= states[i].closes && states[i].doneCloses <= 1
  {
    Always(loginHint, states, events, i);
  }

  /** A connection that arrives after teardown's snapshot is never closed or released by it. */
  lemma LateConnectionIsLeftOpen(loginHint: string, states: seq<State>, events: seq<Event>, k: nat, j: nat, i: nat)
    requires Run(loginHint, states, events) && k < j < i <= |events|
    requires events[k] == TeardownSnapshot && events[j] == SetConn
    ensures states[i].f.conn && states[i].closes == 0 && states[i].releases == 0
  {
    Always(loginHint, states, events, i);
    Always(loginHint, states, events, j);
    assert Enabled(states[j], events[j]);
    SawWhatWasThere(loginHint, states, events, k, j);
    SawWhatWasThere(loginHint, states, events, k, i);
    RunIsMonotone(loginHint, states, events);
    MonotoneStays(states, k, j);
    ConnIffSet(loginHint, states, events, i);
  }

  // ---------------------------------------------------------------- window sizes

  /** The client reports a visible size. */
  predicate Reports(s: State, e: Event) {
    match e
    case Pty(_, rows, cols, _) => !s.f.started && ClampSize(rows, cols).Visible()
    case WindowChange(rows, cols) => ClampSize(rows, cols).Visible()
    case _ => false
  }

  /** At step j setConn found a hidden size although a visible one had come before, and up to step
      i nothing has made up for it. */
  ghost predicate SkippedAt(states: seq<State>, events: seq<Event>, j: nat, i: nat)
    requires j < i <= |events| < |states|
  {
    && events[j] == SetConn && states[j].newest.Some? && !states[j].f.size.Visible()
    && forall m :: j < m < i ==> events[m] != SetConn && !Reports(states[m], events[m])
  }

  lemma SkippedStep(loginHint: string, s: State, e: Event)
    requires Enabled(s, e)
    ensures Apply(loginHint, s, e).skipped <==>
              if e.SetConn? then s.newest.Some? && !s.f.size.Visible() else s.skipped && !Reports(s, e)
  {}

  ghost predicate SkipsRecorded(states: seq<State>, events: seq<Event>)
    requires |states| == |events| + 1
  {
    forall i :: 0 <= i < |events| ==>
      (states[i + 1].skipped <==>
         if events[i].SetConn? then states[i].newest.Some? && !states[i].f.size.Visible()
         else states[i].skipped && !Reports(states[i], events[i]))
  }

  lemma RunRecordsSkips(loginHint: string, states: seq<State>, events: seq<Event>)
    requires Run(loginHint, states, events)
    ensures SkipsRecorded(states, events) && !states[0].skipped
  {
    forall i | 0 <= i < |events|
      ensures states[i + 1].skipped <==>
                if events[i].SetConn? then states[i].newest.Some? && !states[i].f.size.Visible()
                else states[i].skipped && !Reports(states[i], events[i])
    {
      SkippedStep(loginHint, states[i], events[i]);
    }
  }

  lemma RecordedSkip(states: seq<State>, events: seq<Event>, i: nat)
    requires |states| == |events| + 1 && SkipsRecorded(states, events) && !states[0].skipped && i <= |events|
    ensures states[i].skipped <==> exists j: nat :: j < i && SkippedAt(states, events, j, i)
  {
    var n := |events|;
    var flags := seq(n + 1, j requires 0 <= j <= n => states[j].skipped);
    var raised := seq(n, j requires 0 <= j < n =>
      events[j] == SetConn && states[j].newest.Some? && !states[j].f.size.Visible());
    var lowered := seq(n, j requires 0 <= j < n => events[j] == SetConn || Reports(states[j], events[j]));
    Latched(flags, raised, lowered, i);
    forall j: nat | j < i ensures RaisedAt(raised, lowered, j, i) <==> SkippedAt(states, events, j, i) {
      forall m | j < m < i ensures lowered[m] <==> events[m] == SetConn || Reports(states[m], events[m]) {}
    }
  }

  /** What `skipped` records, in terms of the run. */
  lemma SkippedMeans(loginHint: string, states: seq<State>, events: seq<Event>, i: nat)
    requires Run(loginHint, states, events) && i <= |events|
    ensures states[i].skipped <==> exists j: nat :: j < i && SkippedAt(states, events, j, i)
  {
    RunRecordsSkips(loginHint, states, events);
    RecordedSkip(states, events, i);
  }

  /** With a connection registered and no delivery under way, the newest visible size has been
      sent to it, exactly unless a hidden size had replaced it when setConn looked. */
  lemma NewestSizeDeliveredExactly(loginHint: string, states: seq<State>, events: seq<Event>, i: nat)
    requires Run(loginHint, states, events) && i <= |events|
    requires states[i].f.conn && states[i].newest.Some? && !ChangePending(states[i], states[i].newest.value)
    ensures states[i].newest.value in states[i].delivered
       <==> !exists j: nat :: j < i && SkippedAt(states, events, j, i)
    ensures states[i].f.size.Visible() ==> states[i].f.size in states[i].delivered
  {
    Always(loginHint, states, events, i);
    SkippedMeans(loginHint, states, events, i);
  }

  /** The size setConn had read is sent after a newer one has been: the connection is left with the
      older size. */
  predicate Overtakes(s: State, e: Event) {
    && e == DeliverFirst && s.forwarder.Sizing? && s.forwarder.size.Visible()
    && !s.loop.Resizing? && s.newest != Some(s.forwarder.size)
  }

  /** That happened at step j, and up to step i no visible size was reported that would mend it. */
  ghost predicate OvertakenAt(states: seq<State>, events: seq<Event>, j: nat, i: nat)
    requires j < i <= |events| < |states|
  {
    && Overtakes(states[j], events[j])
    && forall m :: j < m < i ==> !Reports(states[m], events[m])
  }

  ghost function Overtaken(states: seq<State>, events: seq<Event>, i: nat): bool
    requires i <= |events| < |states|
  {
    i > 0 && (Overtakes(states[i - 1], events[i - 1])
              || (Overtaken(states, events, i - 1) && !Reports(states[i - 1], events[i - 1])))
  }

  lemma OvertakenMeans(states: seq<State>, events: seq<Event>, i: nat)
    requires |states| == |events| + 1 && i <= |events|
    ensures Overtaken(states, events, i) <==> exists j: nat :: j < i && OvertakenAt(states, events, j, i)
  {
    var n := |events|;
    var flags := seq(n + 1, j requires 0 <= j <= n => Overtaken(states, events, j));
    var raised := seq(n, j requires 0 <= j < n => Overtakes(states[j], events[j]));
    var lowered := seq(n, j requires 0 <= j < n => Reports(states[j], events[j]));
    Latched(flags, raised, lowered, i);
    forall j: nat | j < i ensures RaisedAt(raised, lowered, j, i) <==> OvertakenAt(states, events, j, i) {
      forall m | j < m < i ensures lowered[m] == Reports(states[m], events[m]) {}
    }
  }

  ghost predicate LastSentIsNewest(s: State) {
    s.delivered != [] && s.newest == Some(s.delivered[|s.delivered| - 1])
  }

  /** While nothing is on its way, the last size sent is the newest one unless it was overtaken. */
  ghost predicate InForce(s: State, overtaken: bool) {
    && (overtaken ==> s.f.conn && !s.forwarder.Sizing? && !s.loop.Resizing?)
    && (!s.loop.Resizing? && s.delivered != [] ==> (LastSentIsNewest(s) <==> !overtaken))
  }

  lemma SizeStepInForce(loginHint: string, s: State, e: Event, overtaken: bool)
    requires BegunOnce(s) && SizesAgree(s) && InForce(s, overtaken) && Enabled(s, e) && TouchesSizes(e)
    ensures InForce(Apply(loginHint, s, e), Overtakes(s, e) || (overtaken && !Reports(s, e)))
  {}

  lemma OtherStepInForce(loginHint: string, s: State, e: Event, overtaken: bool)
    requires BegunOnce(s) && SizesAgree(s) && InForce(s, overtaken) && Enabled(s, e) && !TouchesSizes(e)
    ensures InForce(Apply(loginHint, s, e), overtaken) && !Overtakes(s, e) && !Reports(s, e)
  {}

  lemma StepInForce(loginHint: string, s: State, e: Event, overtaken: bool)
    requires Inv(s, loginHint) && InForce(s, overtaken) && Enabled(s, e)
    ensures InForce(Apply(loginHint, s, e), Overtakes(s, e) || (overtaken && !Reports(s, e)))
  {
    if TouchesSizes(e) {
      SizeStepInForce(loginHint, s, e, overtaken);
    } else {
      OtherStepInForce(loginHint, s, e, overtaken);
    }
  }

  lemma {:induction false} AlwaysInForce(loginHint: string, states: seq<State>, events: seq<Event>, i: nat)
    requires Run(loginHint, states, events) && i <= |events|
    ensures InForce(states[i], Overtaken(states, events, i))
  {
    if i > 0 {
      AlwaysInForce(loginHint, states, events, i - 1);
      Always(loginHint, states, events, i - 1);
      StepInForce(loginHint, states[i - 1], events[i - 1], Overtaken(states, events, i - 1));
    }
  }

  /** With a connection and no size on its way, the last size sent is the newest visible one, exactly
      unless the size of setConn overtook it and no visible size was reported since. */
  lemma NewestSizeInForceExactly(loginHint: string, states: seq<State>, events: seq<Event>, i: nat)
    requires Run(loginHint, states, events) && i <= |events|
    requires states[i].f.conn && !states[i].forwarder.Sizing? && !states[i].loop.Resizing? && states[i].delivered != []
    ensures LastSentIsNewest(states[i]) <==> !exists j: nat :: j < i && OvertakenAt(states, events, j, i)
  {
    AlwaysInForce(loginHint, states, events, i);
    OvertakenMeans(states, events, i);
  }

  lemma Extend(loginHint: string, states: seq<State>, events: seq<Event>, e: Event)
    returns (states': seq<State>, events': seq<Event>)
    requires Run(loginHint, states, events) && Enabled(states[|events|], e)
    ensures Run(loginHint, states', events') && |events'| == |events| + 1
    ensures states'[|events'|] == Apply(loginHint, states[|events|], e)
  {
    states', events' := states + [Apply(loginHint, states[|events|], e)], events + [e];
  }

  lemma Launched(loginHint: string) returns (states: seq<State>, events: seq<Event>)
    ensures Run(loginHint, states, events)
    ensures var s := states[|events|];
            && s.forwarder == Born && s.loop == Reading && s.f.started && !s.f.conn
            && s.f.size == Size(24, 80) && s.newest == Some(Size(24, 80)) && s.delivered == []
            && s.closes == s.releases == 0
  {
    states, events := [INITIAL], [];
    states, events := Extend(loginHint, states, events, Pty("xterm", 24, 80, []));
    states, events := Extend(loginHint, states, events, Begin(""));
    states, events := Extend(loginHint, states, events, Launch);
  }

  /** A channel whose forwarder has registered its connection but not yet sized it. */
  lemma AboutToSize(loginHint: string) returns (states: seq<State>, events: seq<Event>)
    ensures Run(loginHint, states, events)
    ensures var s := states[|events|];
            s.forwarder == Sizing(Size(24, 80)) && s.loop == Reading && s.f.conn && s.delivered == []
  {
    states, events := Launched(loginHint);
    states, events := Extend(loginHint, states, events, Snap);
    states, events := Extend(loginHint, states, events, ReadHint);
    states, events := Extend(loginHint, states, events, OpenSucceeds);
    states, events := Extend(loginHint, states, events, SetConn);
  }

  /** Delivered is not the same as in force: a resize that overtakes setConn's own leaves the
      connection at the older size. */
  lemma OlderSizeCanWin(loginHint: string) returns (states: seq<State>, events: seq<Event>)
    ensures Run(loginHint, states, events)
    ensures var s := states[|events|];
            && s.forwarder == Pumping && s.loop == Reading
            && s.f.size == Size(50, 100) && s.delivered == [Size(50, 100), Size(24, 80)]
  {
    states, events := AboutToSize(loginHint);
    states, events := Extend(loginHint, states, events, WindowChange(50, 100));
    states, events := Extend(loginHint, states, events, DeliverChange);
    states, events := Extend(loginHint, states, events, DeliverFirst);
  }

  lemma HiddenWhileOpening(loginHint: string) returns (states: seq<State>, events: seq<Event>)
    ensures Run(loginHint, states, events)
    ensures var s := states[|events|];
            && s.forwarder.Connected? && s.loop == Reading && s.f.size == Size(0, 0)
            && s.newest == Some(Size(24, 80)) && s.delivered == []
  {
    states, events := Launched(loginHint);
    states, events := Extend(loginHint, states, events, WindowChange(0, 0));
    states, events := Extend(loginHint, states, events, Snap);
    states, events := Extend(loginHint, states, events, ReadHint);
    states, events := Extend(loginHint, states, events, OpenSucceeds);
  }

  /** A visible size came first, a hidden one is stored when setConn looks: nothing is ever sent. */
  lemma HiddenSizeSkips(loginHint: string) returns (states: seq<State>, events: seq<Event>)
    ensures Run(loginHint, states, events)
    ensures var s := states[|events|];
            && s.forwarder == Pumping && s.loop == Reading && s.f.conn
            && s.newest == Some(Size(24, 80)) && s.delivered == [] && s.skipped
  {
    states, events := HiddenWhileOpening(loginHint);
    states, events := Extend(loginHint, states, events, SetConn);
    states, events := Extend(loginHint, states, events, DeliverFirst);
  }

  lemma HungUpWhileOpening(loginHint: string) returns (states: seq<State>, events: seq<Event>)
    ensures Run(loginHint, states, events)
    ensures var s := states[|events|];
            && s.forwarder.Connected? && s.loop == Cancelling(false, true)
            && s.f.started && !s.f.conn && s.closes == s.releases == 0
  {
    states, events := Launched(loginHint);
    states, events := Extend(loginHint, states, events, Snap);
    states, events := Extend(loginHint, states, events, ReadHint);
    states, events := Extend(loginHint, states, events, OpenSucceeds);
    states, events := Extend(loginHint, states, events, HangUp);
    states, events := Extend(loginHint, states, events, TeardownSnapshot);
  }

  /** The client hangs up just before setConn: teardown runs to its end, and the connection and the
      session record stay behind. */
  lemma LateConnectionLeaks(loginHint: string) returns (states: seq<State>, events: seq<Event>)
    ensures Run(loginHint, states, events)
    ensures var s := states[|events|];
            s.loop.Ended? && s.forwarder == Gone && s.f.conn && s.closes == s.releases == 0
  {
    states, events := HungUpWhileOpening(loginHint);
    states, events := Extend(loginHint, states, events, SetConn);
    states, events := Extend(loginHint, states, events, DeliverFirst);
    states, events := Extend(loginHint, states, events, PumpEnds);
    states, events := Extend(loginHint, states, events, CloseDone);
    states, events := TeardownFinishes(loginHint, states, events);
  }

  lemma TeardownFinishes(loginHint: string, states: seq<State>, events: seq<Event>)
    returns (states': seq<State>, events': seq<Event>)
    requires Run(loginHint, states, events) && states[|events|].loop == Cancelling(false, true)
    ensures Run(loginHint, states', events')
    ensures var s, s' := states[|events|], states'[|events'|];
            && s'.loop == Ended(false) && s'.forwarder == s.forwarder && s'.f == s.f
            && s'.closes == s.closes && s'.releases == s.releases
  {
    states', events' := Extend(loginHint, states, events, TeardownCancels);
    states', events' := Extend(loginHint, states', events', TeardownCloses);
    states', events' := Extend(loginHint, states', events', TeardownWaits);
    states', events' := Extend(loginHint, states', events', TeardownReleases);
  }
}
