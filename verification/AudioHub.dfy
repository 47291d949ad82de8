/**
 The audio hub of the Go web app (audio.go): the scanner serves one RTSP session, which all callers share. `startMu`
 covers a whole Acquire, Release or ForceStop, `mu` only short sections that never block, each one atomic step here.
 AcquireExisting and the packet counter take `mu` alone and may run between any two steps of another call.
 */
module AudioHub {
  import opened Options
  import opened Runs

  // ---------------------------------------------------------------- the sections under `mu`

  /** The fields the hub's decisions read; `rtsp` names a client by the call that created it. */
  datatype Hub = Hub(running: bool, starting: bool, owners: set<string>, rtsp: Option<nat>, packets: nat)

  const FRESH := Hub(false, false, {}, None, 0)

  datatype Entry = Join | Busy | Begin

  function Enter(h: Hub, owner: string): (Hub, Entry) {
    if h.running then (h.(owners := h.owners + {owner}), Join)
    else if h.starting then (h, Busy)
    else (h.(starting := true, owners := h.owners + {owner}, packets := 0), Begin)
  }

  function Install(h: Hub, client: nat): Hub { h.(rtsp := Some(client)) }

  function Undo(h: Hub, owner: string): Hub { h.(owners := h.owners - {owner}, rtsp := None) }

  function Fail(h: Hub): Hub { h.(running := false, starting := false) }

  function Commit(h: Hub): Hub { h.(running := true, starting := false) }

  function EnterExisting(h: Hub, owner: string): (Hub, bool) {
    if !h.running || h.packets == 0 then (h, false) else (h.(owners := h.owners + {owner}), true)
  }

  function StopBegin(h: Hub): (Hub, bool) {
    if !h.running && !h.starting then (h, false) else (h.(running := false, starting := false), true)
  }

  function StopEnd(h: Hub): Hub { h.(rtsp := None) }

  // ---------------------------------------------------------------- calls in progress

  datatype Outcome = Playing | Joined | Conflict | Failed | Refused | Left

  /** Where a call stands: the name says what it does next. */
  datatype Pc =
    | AcquireWait(owner: string)      // startMu.Lock
    | AcquireEnter(owner: string)     // first section
    | AcquireDial(owner: string)      // find the host and the route, bind the RTP socket
    | AcquireNoDial                   // setFailure, no client yet
    | AcquireConnect(owner: string)   // client.Start up to the SETUP reply
    | AcquirePlay(owner: string)      // client.Start after a Session id was learned
    | AcquireUndo(owner: string)      // Start failed: forget owner and client
    | AcquireFail                     // setFailure
    | AcquireCommit(owner: string)    // Start succeeded: publish
    | AcquireListen(owner: string)    // wait up to 5 s for a packet, startMu still held
    | ExistingEnter(owner: string)
    | ReleaseWait(owner: string)
    | ReleaseEnter(owner: string)
    | ForceWait
    | ForceEnter
    | Stop                            // stopSession, first section
    | Teardown(client: Option<nat>)   // stopSession, TEARDOWN and close
    | Clear                           // stopSession, last section
    | Done(outcome: Outcome)

  datatype Call = Acquire(owner: string) | AcquireExisting(owner: string) | Release(owner: string) | ForceStop

  /** `sessions`: the clients that learned a Session id and have not attempted TEARDOWN since. `scanner`: the
      clients whose session is open at the scanner, whether they know of it or not. It serves one, and while it has
      one it refuses every further connection. */
  datatype System = System(hub: Hub, startMu: Option<nat>, calls: map<nat, Pc>, sessions: set<nat>, scanner: set<nat>)

  const BOOT := System(FRESH, None, map[], {}, {})

  /** How the network or the operating system answers. `Leaks`: the request fails for the client and leaves a
      session at the scanner that the hub takes for gone: a SETUP that was executed and whose reply was lost or
      refused, or a TEARDOWN that never arrived. */
  datatype Net = Ok | Fails | Leaks

  function FirstPc(c: Call): Pc {
    match c
    case Acquire(o) => AcquireWait(o)
    case AcquireExisting(o) => ExistingEnter(o)
    case Release(o) => ReleaseWait(o)
    case ForceStop => ForceWait
  }

  function Goto(s: System, t: nat, pc: Pc): System { s.(calls := s.calls[t := pc]) }

  function Return(s: System, t: nat, outcome: Outcome): System {
    s.(startMu := None, calls := s.calls[t := Done(outcome)])
  }

  function Lock(s: System, t: nat, pc: Pc): Option<System> {
    if s.startMu.Some? then None else Some(Goto(s.(startMu := Some(t)), t, pc))
  }

  /** The next step of call `t`. None: blocked. */
  function Advance(s: System, t: nat, net: Net): Option<System>
    requires t in s.calls
  {
    match s.calls[t]
    case AcquireWait(o) => Lock(s, t, AcquireEnter(o))
    case AcquireEnter(o) =>
      (match Enter(s.hub, o)
       case (h, Join) => Some(Return(s.(hub := h), t, Joined))
       case (h, Busy) => Some(Return(s.(hub := h), t, Conflict))
       case (h, Begin) => Some(Goto(s.(hub := h), t, AcquireDial(o))))
    case AcquireDial(o) =>
      if net.Ok? then Some(Goto(s.(hub := Install(s.hub, t)), t, AcquireConnect(o)))
      else Some(Goto(s, t, AcquireNoDial))
    case AcquireNoDial => Some(Return(s.(hub := Fail(s.hub)), t, Failed))
    case AcquireConnect(o) =>
      if net.Fails? || s.scanner != {} then Some(Goto(s, t, AcquireUndo(o)))   // a scanner with a session refuses
      else if net.Ok? then Some(Goto(s.(sessions := s.sessions + {t}, scanner := {t}), t, AcquirePlay(o)))
      else Some(Goto(s.(scanner := {t}), t, AcquireUndo(o)))
    case AcquirePlay(o) =>
      if net.Ok? then Some(Goto(s, t, AcquireCommit(o)))
      else Some(Goto(Torn(s, {t}, net), t, AcquireUndo(o)))   // Start sends TEARDOWN itself
    case AcquireUndo(o) => Some(Goto(s.(hub := Undo(s.hub, o)), t, AcquireFail))
    case AcquireFail => Some(Return(s.(hub := Fail(s.hub)), t, Failed))
    case AcquireCommit(o) => Some(Goto(s.(hub := Commit(s.hub)), t, AcquireListen(o)))
    case AcquireListen(o) => Some(Return(s, t, Playing))
    case ExistingEnter(o) =>
      var (h, granted) := EnterExisting(s.hub, o);
      Some(Goto(s.(hub := h), t, Done(if granted then Joined else Refused)))
    case ReleaseWait(o) => Lock(s, t, ReleaseEnter(o))
    case ReleaseEnter(o) =>
      var h := s.hub.(owners := s.hub.owners - {o});
      if h.owners == {} then Some(Goto(s.(hub := h), t, Stop)) else Some(Return(s.(hub := h), t, Left))
    case ForceWait => Lock(s, t, ForceEnter)
    case ForceEnter => Some(Goto(s.(hub := s.hub.(owners := {})), t, Stop))
    case Stop =>
      var (h, stopping) := StopBegin(s.hub);
      if stopping then Some(Goto(s.(hub := h), t, Teardown(s.hub.rtsp))) else Some(Return(s.(hub := h), t, Left))
    case Teardown(c) => Some(Goto(Torn(s, Client(c), net), t, Clear))
    case Clear => Some(Return(s.(hub := StopEnd(s.hub)), t, Left))
    case Done(_) => None
  }

  function Client(c: Option<nat>): set<nat> { if c.Some? then {c.value} else {} }

  /** A TEARDOWN was attempted; unless it never arrived the scanner has closed the session. */
  function Torn(s: System, c: set<nat>, net: Net): System {
    s.(sessions := s.sessions - c, scanner := if net.Leaks? then s.scanner else s.scanner - c)
  }

  // ---------------------------------------------------------------- interleavings

  /** A new call, one step of a call, or a packet counted by a receive loop (also one left over from an
      earlier session: stopSession waits for its loop only 1.5 s). */
  datatype Step = Begins(t: nat, call: Call) | Goes(t: nat, net: Net) | Packet

  function Apply(s: System, step: Step): Option<System> {
    match step
    case Begins(t, c) => if t in s.calls then None else Some(Goto(s, t, FirstPc(c)))
    case Goes(t, net) => if t in s.calls then Advance(s, t, net) else None
    case Packet => Some(s.(hub := s.hub.(packets := s.hub.packets + 1)))
  }

  ghost predicate Reachable(s: System) { Reaches(Apply, BOOT, s) }

  // ---------------------------------------------------------------- the invariant

  /** Not starting; running exactly with a client, and then with that client's session. */
  predicate Settled(h: Hub, sessions: set<nat>) {
    !h.starting && (h.running <==> h.rtsp.Some?) && sessions == Client(h.rtsp)
  }

  /** What the hub promises its callers while no start or stop is under way. */
  predicate Quiet(h: Hub, sessions: set<nat>) { Settled(h, sessions) && (h.running ==> h.owners != {}) }

  predicate Holds(pc: Pc) {
    !(pc.AcquireWait? || pc.ExistingEnter? || pc.ReleaseWait? || pc.ForceWait? || pc.Done?)
  }

  /** What is known of hub and sessions while call `t` holds startMu at `pc`. */
  predicate Midway(h: Hub, sessions: set<nat>, t: nat, pc: Pc) {
    match pc
    case AcquireEnter(_) => Quiet(h, sessions)
    case AcquireDial(o) => h.starting && !h.running && h.rtsp.None? && sessions == {} && o in h.owners
    case AcquireNoDial => h.starting && !h.running && h.rtsp.None? && sessions == {}
    case AcquireConnect(o) => h.starting && !h.running && h.rtsp == Some(t) && sessions == {} && o in h.owners
    case AcquirePlay(o) => h.starting && !h.running && h.rtsp == Some(t) && sessions == {t} && o in h.owners
    case AcquireUndo(_) => h.starting && !h.running && sessions == {}
    case AcquireFail => h.starting && !h.running && h.rtsp.None? && sessions == {}
    case AcquireCommit(o) => h.starting && !h.running && h.rtsp == Some(t) && sessions == {t} && o in h.owners
    case AcquireListen(o) => Quiet(h, sessions) && h.running && o in h.owners
    case ReleaseEnter(_) => Quiet(h, sessions)
    case ForceEnter => Quiet(h, sessions)
    case Stop => Settled(h, sessions)
    case Teardown(c) => !h.starting && !h.running && sessions == Client(c)
    case Clear => !h.starting && !h.running && sessions == {}
    case _ => false
  }

  ghost predicate Inv(s: System) {
    && (forall t :: t in s.calls && Holds(s.calls[t]) ==> s.startMu == Some(t))
    && (s.startMu.None? ==> Quiet(s.hub, s.sessions))
    && (s.startMu.Some? ==> s.startMu.value in s.calls
                            && Midway(s.hub, s.sessions, s.startMu.value, s.calls[s.startMu.value]))
    && (forall t :: t in s.calls ==> s.calls[t] != Done(Conflict))
  }

  lemma OutsiderKeepsInv(s: System, t: nat, net: Net)
    requires Inv(s) && t in s.calls && !Holds(s.calls[t]) && Advance(s, t, net).Some?
    ensures Inv(Advance(s, t, net).value)
  {
    match s.calls[t]
    case AcquireWait(_) =>
    case ExistingEnter(_) =>
      if s.startMu.Some? { assert s.startMu.value != t; }
    case ReleaseWait(_) =>
    case ForceWait =>
  }

  /** The call holding startMu leaves hub and sessions as its next place promises. */
  ghost predicate Promised(s: System, t: nat, s': System) {
    && t in s'.calls && s'.calls == s.calls[t := s'.calls[t]] && s'.calls[t] != Done(Conflict)
    && (Holds(s'.calls[t]) ==> s'.startMu == Some(t) && Midway(s'.hub, s'.sessions, t, s'.calls[t]))
    && (!Holds(s'.calls[t]) ==> s'.startMu.None? && Quiet(s'.hub, s'.sessions))
  }

  predicate Stopping(pc: Pc) {
    pc.ReleaseEnter? || pc.ForceEnter? || pc.Stop? || pc.Teardown? || pc.Clear?
  }

  lemma StoppingStep(s: System, t: nat, net: Net)
    requires s.startMu == Some(t) && t in s.calls && Stopping(s.calls[t])
    requires Midway(s.hub, s.sessions, t, s.calls[t])
    ensures Advance(s, t, net).Some? && Promised(s, t, Advance(s, t, net).value)
  {
    match s.calls[t]
    case Stop =>
    case Teardown(c) =>
    case _ =>
  }

  lemma StartingStep(s: System, t: nat, net: Net)
    requires s.startMu == Some(t) && t in s.calls && Holds(s.calls[t]) && !Stopping(s.calls[t])
    requires Midway(s.hub, s.sessions, t, s.calls[t])
    ensures Advance(s, t, net).Some? && Promised(s, t, Advance(s, t, net).value)
  {
    match s.calls[t]
    case AcquireConnect(_) =>
    case AcquirePlay(_) =>
    case _ =>
  }

  lemma HolderStep(s: System, t: nat, net: Net)
    requires s.startMu == Some(t) && t in s.calls && Holds(s.calls[t])
    requires Midway(s.hub, s.sessions, t, s.calls[t])
    ensures Advance(s, t, net).Some? && Promised(s, t, Advance(s, t, net).value)
  {
    if Stopping(s.calls[t]) { StoppingStep(s, t, net); } else { StartingStep(s, t, net); }
  }

  lemma ApplyKeepsInv(s: System, step: Step)
    requires Inv(s) && Apply(s, step).Some?
    ensures Inv(Apply(s, step).value)
  {
    match step
    case Begins(t, c) =>
    case Packet =>
    case Goes(t, net) => if Holds(s.calls[t]) { HolderStep(s, t, net); } else { OutsiderKeepsInv(s, t, net); }
  }

  lemma ReachableInv(s: System)
    requires Reachable(s)
    ensures Inv(s)
  {
    forall s, step | Inv(s) && Apply(s, step).Some? ensures Inv(Apply(s, step).value) { ApplyKeepsInv(s, step); }
    Invariant(Apply, Inv, BOOT, s);
  }

  // ---------------------------------------------------------------- results over every interleaving

  /** Whenever startMu is free the flags, the client, the session and the owners agree. */
  lemma QuietWhenUnlocked(s: System)
    requires Reachable(s) && s.startMu.None?
    ensures !s.hub.starting
    ensures s.hub.running <==> (s.hub.rtsp.Some? && s.sessions == {s.hub.rtsp.value})
    ensures !s.hub.running <==> (s.hub.rtsp.None? && s.sessions == {})
    ensures s.hub.running ==> s.hub.owners != {}
  {
    ReachableInv(s);
  }

  /** The hub never holds two sessions: at any moment of any run at most one client has an id it has not tried to
      tear down. What is open at the scanner is another matter, see ScannerHoldsHubsAndLeaked. */
  lemma AtMostOneSession(s: System, a: nat, b: nat)
    requires Reachable(s) && a in s.sessions && b in s.sessions
    ensures a == b
  {
    ReachableInv(s);
  }

  /** Acquire's "start already in progress" answer is unreachable. */
  lemma NeverConflict(s: System, t: nat)
    requires Reachable(s) && t in s.calls
    ensures s.calls[t] != Done(Conflict)
  {
    ReachableInv(s);
  }

  /** At the point where a Release takes effect, it stops a running session exactly when it removes the
      last owner; a name that owns nothing changes nothing. */
  lemma ReleaseStopsOnlyAfterLastOwner(s: System, t: nat, net: Net)
    requires Reachable(s) && t in s.calls && s.calls[t].ReleaseEnter? && s.hub.running
    ensures var s' := Advance(s, t, net).value; var o := s.calls[t].owner;
            && s'.sessions == s.sessions && s'.hub.running
            && (s'.calls[t] == Stop <==> s.hub.owners == {o})
            && (s'.calls[t] == Done(Left) <==> s.hub.owners != {o})
            && (o !in s.hub.owners ==> s'.hub == s.hub && s'.calls[t] == Done(Left))
  {
    ReachableInv(s);
    var o := s.calls[t].owner;
    assert s.hub.owners - {o} == {} <==> s.hub.owners <= {o};
    assert s.hub.owners != {};
    if o !in s.hub.owners { assert s.hub.owners - {o} == s.hub.owners; }
    if s.hub.owners <= {o} { var x :| x in s.hub.owners; assert s.hub.owners == {o}; }
  }

  /** A stop that was begun leaves no session, whatever other calls did meanwhile. */
  lemma StopEndsTheSession(s: System, t: nat)
    requires Reachable(s) && t in s.calls && s.calls[t] == Clear
    ensures s.sessions == {} && !s.hub.running && !s.hub.starting
    ensures var s' := Advance(s, t, Ok).value;
            s'.calls[t] == Done(Left) && s'.sessions == {} && s'.hub.rtsp.None? && s'.startMu.None?
  {
    ReachableInv(s);
  }

  // ---------------------------------------------------------------- one caller at a time

  datatype StartResult = Streams | NoSession | LostSession

  /** What a start can come to: nothing while the scanner has a session. */
  function Possible(s: System, start: StartResult): StartResult { if s.scanner == {} then start else NoSession }

  /** Acquire from start to end with nothing in between: the next hub and the answer. */
  function AcquireAlone(h: Hub, owner: string, client: nat, dialled: bool, start: StartResult): (Hub, Outcome) {
    match Enter(h, owner)
    case (h1, Join) => (h1, Joined)
    case (h1, Busy) => (h1, Conflict)
    case (h1, Begin) =>
      if !dialled then (Fail(h1), Failed)
      else if start.Streams? then (Commit(Install(h1, client)), Playing)
      else (Fail(Undo(Install(h1, client), owner)), Failed)
  }

  function StopAlone(h: Hub): Hub {
    var (h1, stopping) := StopBegin(h);
    if stopping then StopEnd(h1) else h1
  }

  function ReleaseAlone(h: Hub, owner: string): Hub {
    var h1 := h.(owners := h.owners - {owner});
    if h1.owners == {} then StopAlone(h1) else h1
  }

  function ForceStopAlone(h: Hub): Hub { StopAlone(h.(owners := {})) }

  lemma Go(s: System, t: nat, net: Net) returns (s': System)
    requires Reachable(s) && t in s.calls && Advance(s, t, net).Some?
    ensures Reachable(s') && s' == Advance(s, t, net).value
  {
    s' := ReachesNext(Apply, BOOT, s, Goes(t, net));
  }

  lemma Enrol(s: System, t: nat, call: Call) returns (s': System)
    requires Reachable(s) && t !in s.calls
    ensures Reachable(s') && s' == Goto(s, t, FirstPc(call))
  {
    s' := ReachesNext(Apply, BOOT, s, Begins(t, call));
  }

  lemma AcquireBegun(s: System, t: nat, owner: string) returns (s': System)
    requires Reachable(s) && s.startMu.None? && t !in s.calls
    ensures Reachable(s')
    ensures var (h, entry) := Enter(s.hub, owner);
            s' == if entry == Join then s.(hub := h, calls := s.calls[t := Done(Joined)])
                  else s.(hub := h, startMu := Some(t), calls := s.calls[t := AcquireDial(owner)])
  {
    ReachableInv(s);
    s' := Enrol(s, t, Acquire(owner));
    s' := Go(s', t, Ok);
    assert s' == s.(startMu := Some(t), calls := s.calls[t := AcquireEnter(owner)]);
    s' := Go(s', t, Ok);
  }

  /** An undisturbed Acquire is a run of the step model, and ends as AcquireAlone says. */
  lemma AcquireUndisturbed(s: System, t: nat, owner: string, dialled: bool, start: StartResult) returns (s': System)
    requires Reachable(s) && s.startMu.None? && t !in s.calls
    ensures Reachable(s') && s'.startMu.None?
    ensures var (h, outcome) := AcquireAlone(s.hub, owner, t, dialled, Possible(s, start));
            && s'.hub == h && s'.calls == s.calls[t := Done(outcome)]
            && s'.sessions == (if outcome == Playing then s.sessions + {t} else s.sessions)
            && s'.scanner == (if outcome == Playing then {t} else s.scanner)
  {
    var (h, entry) := Enter(s.hub, owner);
    var outcome := AcquireAlone(s.hub, owner, t, dialled, Possible(s, start)).1;
    ReachableInv(s);
    s' := AcquireBegun(s, t, owner);
    if entry == Begin {
      s' := StartUndisturbed(s', t, dialled, start);
      assert s'.calls == s.calls[t := Done(outcome)];
    }
  }

  lemma ConnectUndisturbed(s: System, t: nat, start: StartResult) returns (s': System)
    requires Reachable(s) && t in s.calls && s.calls[t].AcquireConnect?
    ensures Reachable(s') && s'.hub == s.hub && s'.startMu == s.startMu
    ensures var o := s.calls[t].owner;
            s'.calls == s.calls[t := if Possible(s, start).Streams? then AcquireCommit(o) else AcquireUndo(o)]
    ensures Possible(s, start).Streams? ==> s'.sessions == s.sessions + {t} && s'.scanner == {t}
    ensures !Possible(s, start).Streams? ==> s'.sessions == s.sessions && s'.scanner == s.scanner
  {
    ReachableInv(s);
    var o := s.calls[t].owner;
    if Possible(s, start).NoSession? {
      s' := Go(s, t, Fails);
    } else {
      s' := Go(s, t, Ok);
      assert s' == s.(calls := s.calls[t := AcquirePlay(o)], sessions := s.sessions + {t}, scanner := {t});
      s' := Go(s', t, if start.Streams? then Ok else Fails);
    }
    assert s'.calls == s.calls[t := s'.calls[t]];
  }

  /** The same from the point where Acquire has decided to open a session. */
  lemma StartUndisturbed(s: System, t: nat, dialled: bool, start: StartResult) returns (s': System)
    requires Reachable(s) && t in s.calls && s.calls[t].AcquireDial?
    ensures Reachable(s') && s'.startMu.None?
    ensures var outcome := if dialled && Possible(s, start).Streams? then Playing else Failed;
            && s'.calls == s.calls[t := Done(outcome)]
            && s'.sessions == (if outcome == Playing then s.sessions + {t} else s.sessions)
            && s'.scanner == (if outcome == Playing then {t} else s.scanner)
    ensures s'.hub == if !dialled then Fail(s.hub)
                      else if Possible(s, start).Streams? then Commit(Install(s.hub, t))
                      else Fail(Undo(Install(s.hub, t), s.calls[t].owner))
  {
    var o := s.calls[t].owner;
    s' := Go(s, t, if dialled then Ok else Fails);
    if !dialled {
      assert s'.calls == s.calls[t := AcquireNoDial];
      s' := Go(s', t, Ok);
    } else {
      assert s' == s.(hub := Install(s.hub, t), calls := s.calls[t := AcquireConnect(o)]);
      s' := ConnectUndisturbed(s', t, start);
      s' := FinishStart(s', t);
      assert s'.calls == s.calls[t := s'.calls[t]];
    }
  }

  lemma FinishStart(s: System, t: nat) returns (s': System)
    requires Reachable(s) && t in s.calls && (s.calls[t].AcquireCommit? || s.calls[t].AcquireUndo?)
    ensures Reachable(s') && s'.startMu.None? && s'.sessions == s.sessions && s'.scanner == s.scanner
    ensures s.calls[t].AcquireCommit? ==> s'.hub == Commit(s.hub) && s'.calls == s.calls[t := Done(Playing)]
    ensures s.calls[t].AcquireUndo? ==>
              s'.hub == Fail(Undo(s.hub, s.calls[t].owner)) && s'.calls == s.calls[t := Done(Failed)]
  {
    s' := Go(s, t, Ok);
    s' := Go(s', t, Ok);
  }

  lemma ReleaseEntered(s: System, t: nat, owner: string) returns (s': System)
    requires Reachable(s) && s.startMu.None? && t !in s.calls
    ensures Reachable(s')
    ensures var h := s.hub.(owners := s.hub.owners - {owner});
            s' == if h.owners == {} then s.(hub := h, startMu := Some(t), calls := s.calls[t := Stop])
                  else s.(hub := h, calls := s.calls[t := Done(Left)])
  {
    s' := Enrol(s, t, Release(owner));
    s' := Go(s', t, Ok);
    assert s' == s.(startMu := Some(t), calls := s.calls[t := ReleaseEnter(owner)]);
    s' := Go(s', t, Ok);
  }

  lemma ReleaseUndisturbed(s: System, t: nat, owner: string) returns (s': System)
    requires Reachable(s) && s.startMu.None? && t !in s.calls
    ensures Reachable(s') && s'.startMu.None? && s'.hub == ReleaseAlone(s.hub, owner)
    ensures s'.calls == s.calls[t := Done(Left)]
    ensures s'.sessions == (if s'.hub.running then s.sessions else {})
  {
    ReachableInv(s);
    s' := ReleaseEntered(s, t, owner);
    if s'.hub.owners == {} {
      s' := StopUndisturbed(s', t);
      assert s'.calls == s.calls[t := Done(Left)];
    } else {
      assert s.hub.owners != {};
    }
  }

  lemma ForceStopUndisturbed(s: System, t: nat) returns (s': System)
    requires Reachable(s) && s.startMu.None? && t !in s.calls
    ensures Reachable(s') && s'.startMu.None? && s'.hub == ForceStopAlone(s.hub) && s'.sessions == {}
    ensures s'.calls == s.calls[t := Done(Left)]
  {
    s' := Enrol(s, t, ForceStop);
    s' := Go(s', t, Ok);
    assert s' == s.(startMu := Some(t), calls := s.calls[t := ForceEnter]);
    s' := Go(s', t, Ok);
    assert s' == s.(hub := s.hub.(owners := {}), startMu := Some(t), calls := s.calls[t := Stop]);
    s' := StopUndisturbed(s', t);
    assert s'.calls == s.calls[t := Done(Left)];
  }

  /** AcquireExisting is one section, so nothing can disturb it, not even a stop or start under way. */
  lemma ExistingIsAtomic(s: System, t: nat, owner: string) returns (s': System)
    requires Reachable(s) && t !in s.calls
    ensures Reachable(s') && s'.startMu == s.startMu && s'.sessions == s.sessions
    ensures var (h, granted) := EnterExisting(s.hub, owner);
            s'.hub == h && s'.calls == s.calls[t := Done(if granted then Joined else Refused)]
  {
    s' := Enrol(s, t, AcquireExisting(owner));
    s' := Go(s', t, Ok);
  }

  // ---------------------------------------------------------------- when a recorder is let in

  predicate Enters(s: System, step: Step, c: nat) {
    step.Goes? && step.t == c && c in s.calls && s.calls[c].AcquireEnter?
  }

  /** On the run from `s` a packet is counted after call `c` has taken its first section; `entered`: it has before. */
  predicate PacketCame(s: System, steps: seq<Step>, c: nat, entered: bool)
    decreases |steps|
  {
    && steps != [] && Apply(s, steps[0]).Some?
    && ((entered && steps[0].Packet?)
        || PacketCame(Apply(s, steps[0]).value, steps[1..], c, entered || Enters(s, steps[0], c)))
  }

  /** The call that opened the session of a running hub, or is about to. */
  function Opener(s: System): Option<nat> {
    if s.hub.running then s.hub.rtsp else if s.hub.starting then s.startMu else None
  }

  predicate Begun(pc: Pc) { !pc.AcquireWait? && !pc.AcquireEnter? }

  /** Once call `c` has entered, the packets counted for its session are those since. */
  ghost predicate Tracks(s: System, c: nat, entered: bool, came: bool) {
    && Inv(s) && (entered ==> c in s.calls && Begun(s.calls[c])) && (came ==> entered)
    && (Opener(s) == Some(c) ==> entered && (s.hub.packets > 0 <==> came))
  }

  lemma OpenerStep(s: System, t: nat, net: Net, c: nat)
    requires Inv(s) && t in s.calls && Advance(s, t, net).Some?
    ensures var s' := Advance(s, t, net).value;
            && t in s'.calls && s'.calls == s.calls[t := s'.calls[t]]
            && (Begun(s.calls[t]) || s.calls[t].AcquireEnter? ==> Begun(s'.calls[t]))
            && (Opener(s') == Some(c) ==>
                  (Opener(s) == Some(c) && s'.hub.packets == s.hub.packets)
                  || (t == c && s.calls[t].AcquireEnter? && s'.hub.packets == 0))
  {
    if Holds(s.calls[t]) { assert s.startMu == Some(t); }
  }

  lemma TracksStep(s: System, step: Step, c: nat, entered: bool, came: bool)
    requires Tracks(s, c, entered, came) && Apply(s, step).Some?
    ensures Tracks(Apply(s, step).value, c, entered || Enters(s, step, c), came || (entered && step.Packet?))
  {
    ApplyKeepsInv(s, step);
    if step.Goes? { OpenerStep(s, step.t, step.net, c); }
  }

  lemma {:induction false} TracksRun(s: System, steps: seq<Step>, c: nat, entered: bool, came: bool)
    requires Tracks(s, c, entered, came) && Run(Apply, s, steps).Some?
    ensures var s' := Run(Apply, s, steps).value;
            Opener(s') == Some(c) ==> (s'.hub.packets > 0 <==> came || PacketCame(s, steps, c, entered))
    decreases |steps|
  {
    if steps != [] {
      TracksStep(s, steps[0], c, entered, came);
      TracksRun(Apply(s, steps[0]).value, steps[1..], c, entered || Enters(s, steps[0], c),
                came || (entered && steps[0].Packet?));
    }
  }

  lemma ExistingStep(s: System, t: nat)
    requires t in s.calls && s.calls[t].ExistingEnter?
    ensures var s' := Apply(s, Goes(t, Ok));
            && s'.Some? && t in s'.value.calls
            && (s'.value.calls[t] == Done(Joined) <==> s.hub.running && s.hub.packets > 0)
            && (s'.value.calls[t] != Done(Joined) ==> s'.value == s.(calls := s.calls[t := Done(Refused)]))
  {
  }

  lemma PacketsSince(steps: seq<Step>, s: System)
    requires Run(Apply, BOOT, steps) == Some(s) && s.hub.running
    ensures s.hub.rtsp.Some? && (s.hub.packets > 0 <==> PacketCame(BOOT, steps, s.hub.rtsp.value, false))
  {
    LedgerOfRun(BOOT, steps);
    RunningHasSession(s);
    TracksRun(BOOT, steps, s.hub.rtsp.value, false, false);
  }

  /** In every run: an AcquireExisting is granted if and only if the hub runs and a packet has been counted since the
      Acquire that opened the running session took its first section; refused, it leaves the hub as it was. */
  lemma ExistingGrantedIffPacketCame(steps: seq<Step>, s: System, t: nat)
    requires Run(Apply, BOOT, steps) == Some(s) && t in s.calls && s.calls[t].ExistingEnter?
    ensures s.hub.running ==> s.hub.rtsp.Some?
    ensures var s' := Apply(s, Goes(t, Ok));
            && s'.Some? && t in s'.value.calls
            && (s'.value.calls[t] == Done(Joined)
                <==> s.hub.running && PacketCame(BOOT, steps, s.hub.rtsp.value, false))
            && (s'.value.calls[t] != Done(Joined) ==> s'.value == s.(calls := s.calls[t := Done(Refused)]))
  {
    ExistingStep(s, t);
    if s.hub.running { PacketsSince(steps, s); }
  }

  lemma StopUndisturbed(s: System, t: nat) returns (s': System)
    requires Reachable(s) && t in s.calls && s.calls[t] == Stop
    ensures Reachable(s') && s'.startMu.None? && s'.sessions == {}
    ensures s'.hub == StopAlone(s.hub) && s'.calls == s.calls[t := Done(Left)]
  {
    ReachableInv(s);
    s' := Go(s, t, Ok);
    if s.hub.running {
      assert s' == s.(hub := StopBegin(s.hub).0, calls := s.calls[t := Teardown(s.hub.rtsp)]);
      s' := Go(s', t, Ok);
      assert s'.hub == StopBegin(s.hub).0 && s'.calls == s.calls[t := Clear] && s'.sessions == {};
      s' := Go(s', t, Ok);
    }
  }

  // ---------------------------------------------------------------- the hub object, one call at a time

  class AudioHub {
    var running: bool
    var starting: bool
    var owners: set<string>
    var rtsp: Option<nat>
    var packets: nat

    ghost function State(): Hub
      reads this
    {
      Hub(running, starting, owners, rtsp, packets)
    }

    constructor ()
      ensures State() == FRESH
    {
      running, starting, owners, rtsp, packets := false, false, {}, None, 0;
    }

    method SetFailure()
      modifies this
      ensures State() == Fail(old(State())) && !running && !starting
    {
      running := false;
      starting := false;
    }

    method Acquire(owner: string, client: nat, dialled: bool, start: StartResult) returns (outcome: Outcome)
      modifies this
      ensures (State(), outcome) == AcquireAlone(old(State()), owner, client, dialled, start)
      // what a caller of an idle hub finds afterwards
      ensures !old(running) && !old(starting) ==>
                && (outcome == Playing <==> dialled && start.Streams?)
                && running == (outcome == Playing) && !starting
                && owners == (if dialled && !start.Streams? then old(owners) - {owner} else old(owners) + {owner})
                && packets == 0
      ensures old(running) ==> outcome == Joined && owners == old(owners) + {owner} && packets == old(packets)
    {
      if running {
        owners := owners + {owner};
        return Joined;
      }
      if starting {
        return Conflict;
      }
      starting := true;
      owners := owners + {owner};
      packets := 0;
      if !dialled {
        SetFailure();
        return Failed;
      }
      rtsp := Some(client);
      if !start.Streams? {
        owners := owners - {owner};
        rtsp := None;
        SetFailure();
        return Failed;
      }
      running := true;
      starting := false;
      return Playing;
    }

    method AcquireExisting(owner: string) returns (ok: bool)
      modifies this
      ensures (State(), ok) == EnterExisting(old(State()), owner)
      // only while it plays and a packet has been counted; a refusal leaves the owners alone
      ensures ok <==> old(running) && old(packets) > 0
      ensures owners == if ok then old(owners) + {owner} else old(owners)
      ensures running == old(running) && starting == old(starting) && rtsp == old(rtsp) && packets == old(packets)
    {
      if !running || packets == 0 {
        return false;
      }
      owners := owners + {owner};
      return true;
    }

    method Release(owner: string)
      modifies this
      ensures State() == ReleaseAlone(old(State()), owner)
      ensures old(owners) - {owner} == {} ==> !running
    {
      owners := owners - {owner};
      if owners == {} {
        StopSession();
      }
    }

    method ForceStop()
      modifies this
      ensures State() == ForceStopAlone(old(State()))
      ensures !running && owners == {}
    {
      owners := {};
      StopSession();
    }

    method StopSession()
      modifies this
      ensures State() == StopAlone(old(State()))
      ensures !running && !starting && owners == old(owners)
    {
      if !running && !starting {
        return;
      }
      running := false;
      starting := false;
      rtsp := None;
    }
  }

  // ---------------------------------------------------------------- the scanner's side

  /** The client's SETUP has been answered or given up. */
  predicate Past(pc: Pc) {
    pc.AcquirePlay? || pc.AcquireUndo? || pc.AcquireFail? || pc.AcquireCommit? || pc.AcquireListen? || pc.Done?
  }

  ghost predicate ScannerInv(s: System) {
    && s.sessions <= s.scanner && (forall a, b :: a in s.scanner && b in s.scanner ==> a == b)
    && forall c :: c in s.scanner ==> c in s.calls && Past(s.calls[c])
  }

  /** The session a step leaves behind at the scanner. */
  function LeakedBy(s: System, step: Step): set<nat> {
    if !step.Goes? || step.t !in s.calls || !step.net.Leaks? then {}
    else
      match s.calls[step.t]
      case AcquireConnect(_) => if s.scanner == {} then {step.t} else {}
      case AcquirePlay(_) => {step.t}
      case Teardown(c) => Client(c)
      case _ => {}
  }

  /** How a step of a call moves the two sets. */
  lemma SetsMove(s: System, t: nat, net: Net)
    requires t in s.calls && Advance(s, t, net).Some? && s.sessions <= s.scanner
    requires s.calls[t].AcquireConnect? ==> t !in s.scanner
    requires s.calls[t].AcquirePlay? ==> t in s.sessions
    requires s.calls[t].Teardown? ==> s.sessions == Client(s.calls[t].client)
    ensures var s' := Advance(s, t, net).value;
            && s'.sessions <= s'.scanner <= s.scanner + {t}
            && s'.scanner - s'.sessions == (s.scanner - s.sessions) + LeakedBy(s, Goes(t, net))
            && LeakedBy(s, Goes(t, net)) !! (s.scanner - s.sessions)
            && (t in s'.scanner ==> t in s.scanner || s.calls[t].AcquireConnect?)
            && (s'.scanner <= s.scanner || s.scanner == {})
  {
    match s.calls[t]
    case AcquireConnect(_) =>
    case AcquirePlay(_) =>
    case Teardown(c) =>
    case _ =>
  }

  /** A call only ever moves on, and is past its SETUP after it. */
  lemma PastStays(s: System, t: nat, net: Net)
    requires t in s.calls && Advance(s, t, net).Some?
    ensures var s' := Advance(s, t, net).value;
            && t in s'.calls && s'.calls == s.calls[t := s'.calls[t]]
            && (Past(s.calls[t]) || s.calls[t].AcquireConnect? ==> Past(s'.calls[t]))
  {
  }

  lemma CallSets(s: System, t: nat)
    requires Inv(s) && ScannerInv(s) && t in s.calls
    ensures s.calls[t].AcquireConnect? ==> t !in s.scanner
    ensures s.calls[t].AcquirePlay? ==> t in s.sessions
    ensures s.calls[t].Teardown? ==> s.sessions == Client(s.calls[t].client)
  {
    if Holds(s.calls[t]) { assert s.startMu == Some(t); }
  }

  lemma LeakStep(s: System, step: Step)
    requires Inv(s) && ScannerInv(s) && Apply(s, step).Some?
    ensures var s' := Apply(s, step).value;
            && ScannerInv(s') && s'.scanner - s'.sessions == (s.scanner - s.sessions) + LeakedBy(s, step)
            && LeakedBy(s, step) !! (s.scanner - s.sessions)
  {
    if step.Goes? {
      CallSets(s, step.t);
      SetsMove(s, step.t, step.net);
      PastStays(s, step.t, step.net);
    }
  }

  /** Every session left behind in the run of `steps` from s on. */
  function LeakedIn(s: System, steps: seq<Step>): set<nat>
    decreases |steps|
  {
    if steps == [] || Apply(s, steps[0]).None? then {}
    else LeakedBy(s, steps[0]) + LeakedIn(Apply(s, steps[0]).value, steps[1..])
  }

  lemma {:induction false} LedgerOfRun(s: System, steps: seq<Step>)
    requires Inv(s) && ScannerInv(s) && Run(Apply, s, steps).Some?
    ensures var s' := Run(Apply, s, steps).value;
            Inv(s') && ScannerInv(s') && s'.scanner - s'.sessions == (s.scanner - s.sessions) + LeakedIn(s, steps)
    decreases |steps|
  {
    if steps != [] {
      LeakStep(s, steps[0]);
      ApplyKeepsInv(s, steps[0]);
      LedgerOfRun(Apply(s, steps[0]).value, steps[1..]);
    }
  }

  /** In every interleaving the sessions open at the scanner are the one the hub knows and exactly those that a
      lost or refused SETUP reply or a lost TEARDOWN has left behind; none of these is ever closed again. */
  lemma ScannerHoldsHubsAndLeaked(steps: seq<Step>, s: System)
    requires Run(Apply, BOOT, steps) == Some(s)
    ensures s.scanner == s.sessions + LeakedIn(BOOT, steps) && s.sessions !! LeakedIn(BOOT, steps)
  {
    LedgerOfRun(BOOT, steps);
  }

  /** The hub runs only with nothing left behind, and its session is then all the scanner has; idle, the scanner has
      what was left behind. */
  lemma OneAtScanner(steps: seq<Step>, s: System)
    requires Run(Apply, BOOT, steps) == Some(s)
    ensures forall a, b :: a in s.scanner && b in s.scanner ==> a == b
    ensures s.hub.running ==> s.scanner == Client(s.hub.rtsp) && LeakedIn(BOOT, steps) == {}
    ensures s.startMu.None? && !s.hub.running ==> s.scanner == LeakedIn(BOOT, steps)
  {
    LedgerOfRun(BOOT, steps);
    if s.hub.running { RunningHasSession(s); }
  }

  lemma RunningHasSession(s: System)
    requires Inv(s) && s.hub.running
    ensures s.hub.rtsp.Some? && s.sessions == {s.hub.rtsp.value}
  {
  }

  /** A call that had not been told yes in `s0` has been told so in `s`. */
  ghost predicate Hears(s0: System, s: System) {
    exists t :: t in s.calls && Granted(s.calls[t]) && !(t in s0.calls && Granted(s0.calls[t]))
  }

  predicate Granted(pc: Pc) { pc == Done(Playing) || pc == Done(Joined) }

  /** The hub is idle, and the scanner has a session that it does not know of. */
  ghost predicate LockedOut(s0: System, s: System) {
    Inv(s) && s.scanner == s0.scanner && s.scanner != {} && s.sessions == {} && !s.hub.running && !Hears(s0, s)
  }

  lemma LockedOutStep(s0: System, s: System, step: Step)
    requires LockedOut(s0, s) && Apply(s, step).Some?
    ensures LockedOut(s0, Apply(s, step).value)
  {
    ApplyKeepsInv(s, step);
    NothingHeard(s0, s, step);
    if step.Goes? { LockedOutCall(s, step.t, step.net); }
  }

  lemma NothingHeard(s0: System, s: System, step: Step)
    requires LockedOut(s0, s) && Apply(s, step).Some?
    ensures !Hears(s0, Apply(s, step).value)
  {
    var s' := Apply(s, step).value;
    if step.Goes? {
      LockedOutCall(s, step.t, step.net);
      PastStays(s, step.t, step.net);
    }
    forall t | t in s'.calls && Granted(s'.calls[t]) ensures t in s0.calls && Granted(s0.calls[t]) {
      assert t in s.calls && Granted(s.calls[t]);
    }
  }

  lemma LockedOutCall(s: System, t: nat, net: Net)
    requires Inv(s) && s.scanner != {} && s.sessions == {} && !s.hub.running
    requires t in s.calls && Advance(s, t, net).Some?
    ensures var s' := Advance(s, t, net).value;
            && s'.scanner == s.scanner && s'.sessions == {} && !s'.hub.running
            && t in s'.calls && !Granted(s'.calls[t])
  {
    if Holds(s.calls[t]) { assert s.startMu == Some(t); }
  }

  lemma {:induction false} LockedOutRun(s0: System, s: System, steps: seq<Step>)
    requires LockedOut(s0, s) && Run(Apply, s, steps).Some?
    ensures LockedOut(s0, Run(Apply, s, steps).value)
    decreases |steps|
  {
    if steps != [] {
      LockedOutStep(s0, s, steps[0]);
      LockedOutRun(s0, Apply(s, steps[0]).value, steps[1..]);
    }
  }

  lemma {:induction false} Above(keys: set<nat>) returns (b: nat)
    ensures forall k :: k in keys ==> k < b
    decreases |keys|
  {
    if keys == {} {
      b := 0;
    } else {
      var k :| k in keys;
      b := Above(keys - {k});
      assert forall j :: j in keys ==> j == k || j in keys - {k};
      if b <= k { b := k + 1; }
    }
  }

  lemma Next(s0: System, s: System, step: Step) returns (s': System)
    requires Reaches(Apply, s0, s) && Apply(s, step).Some?
    ensures Reaches(Apply, s0, s') && s' == Apply(s, step).value
  {
    s' := ReachesNext(Apply, s0, s, step);
  }

  lemma ConnectsFrom(s: System, t: nat, owner: string) returns (s': System)
    requires Inv(s) && s.startMu.None? && !s.hub.running && t !in s.calls
    ensures Reaches(Apply, s, s')
    ensures s' == s.(hub := Install(Enter(s.hub, owner).0, t), startMu := Some(t),
                     calls := s.calls[t := AcquireConnect(owner)])
  {
    ReachesBoot(Apply, s);
    s' := Next(s, s, Begins(t, Acquire(owner)));
    s' := Next(s, s', Goes(t, Ok));
    assert s' == s.(startMu := Some(t), calls := s.calls[t := AcquireEnter(owner)]);
    s' := Next(s, s', Goes(t, Ok));
    assert s' == s.(hub := Enter(s.hub, owner).0, startMu := Some(t), calls := s.calls[t := AcquireDial(owner)]);
    s' := Next(s, s', Goes(t, Ok));
  }

  lemma PlaysFrom(s: System, t: nat, owner: string) returns (s': System)
    requires Inv(s) && s.startMu.None? && !s.hub.running && t !in s.calls && s.scanner == {}
    ensures Reaches(Apply, s, s') && t in s'.calls && s'.calls[t] == Done(Playing)
  {
    s' := ConnectsFrom(s, t, owner);
    s' := Next(s, s', Goes(t, Ok));
    assert t in s'.calls && s'.calls[t] == AcquirePlay(owner);
    s' := Next(s, s', Goes(t, Ok));
    s' := Next(s, s', Goes(t, Ok));
    assert t in s'.calls && s'.calls[t] == AcquireListen(owner);
    s' := Next(s, s', Goes(t, Ok));
  }

  /** From an idle hub some continuation gives a caller the audio again if and only if nothing was left behind. */
  lemma PlaysAgainIffNothingLeaked(steps: seq<Step>, s: System)
    requires Run(Apply, BOOT, steps) == Some(s) && s.startMu.None? && !s.hub.running
    ensures (exists s' :: Reaches(Apply, s, s') && Hears(s, s')) <==> LeakedIn(BOOT, steps) == {}
  {
    LedgerOfRun(BOOT, steps);
    OneAtScanner(steps, s);
    if s.scanner == {} {
      var t := Above(s.calls.Keys);
      var s' := PlaysFrom(s, t, "web");
      assert Hears(s, s');
    } else {
      forall s' | Reaches(Apply, s, s') ensures !Hears(s, s') {
        var more :| Run(Apply, s, more) == Some(s');
        LockedOutRun(s, s, more);
      }
    }
  }

  /** It happens: one SETUP reply is lost, and no caller ever gets the audio. */
  lemma LostReplyLocksOut(owner: string) returns (s: System)
    ensures Reachable(s) && s.startMu.None? && !s.hub.running && s.scanner == {1}
    ensures forall s' :: Reaches(Apply, s, s') ==> !Hears(s, s') && !s'.hub.running && s'.scanner == {1}
  {
    ReachesBoot(Apply, BOOT);
    s := LostReply(BOOT, 1, owner);
    ReachableInv(s);
    forall s' | Reaches(Apply, s, s') ensures !Hears(s, s') && !s'.hub.running && s'.scanner == {1} {
      var more :| Run(Apply, s, more) == Some(s');
      LockedOutRun(s, s, more);
    }
  }

  /** A start whose SETUP is executed and whose SETUP reply is lost: the hub is idle, the scanner is not. */
  lemma LostReply(s: System, t: nat, owner: string) returns (s': System)
    requires Reachable(s) && s.startMu.None? && t !in s.calls && !s.hub.running && s.scanner == {}
    ensures Reachable(s') && s'.startMu.None? && !s'.hub.running && s'.calls == s.calls[t := Done(Failed)]
    ensures s'.sessions == {} && s'.scanner == {t}
  {
    ReachableInv(s);
    s' := Enrol(s, t, Acquire(owner));
    s' := Go(s', t, Ok);
    s' := Go(s', t, Ok);
    assert s' == s.(hub := Enter(s.hub, owner).0, startMu := Some(t), calls := s.calls[t := AcquireDial(owner)]);
    s' := Go(s', t, Ok);
    s' := Go(s', t, Leaks);
    assert s'.calls == s.calls[t := AcquireUndo(owner)] && s'.scanner == {t} && s'.sessions == {};
    s' := FinishStart(s', t);
    assert s'.calls == s.calls[t := Done(Failed)];
  }

  // ---------------------------------------------------------------- AcquireExisting against a stop

  /** The step is a Release of `owner`, or a ForceStop, taking effect. */
  predicate TakesAway(s: System, step: Step, owner: string) {
    step.Goes? && step.t in s.calls && (s.calls[step.t] == ReleaseEnter(owner) || s.calls[step.t] == ForceEnter)
  }

  /** No step of the run takes `owner` away. */
  predicate Spares(s: System, steps: seq<Step>, owner: string)
    decreases |steps|
  {
    steps == [] || (!TakesAway(s, steps[0], owner)
                    && (Apply(s, steps[0]).Some? ==> Spares(Apply(s, steps[0]).value, steps[1..], owner)))
  }

  predicate StopDecided(s: System) {
    s.startMu.Some? && s.startMu.value in s.calls && (s.calls[s.startMu.value] == Stop)
  }

  /** `owner` owns the running session of client `c`, and no stop has been decided. */
  ghost predicate Enjoys(s: System, owner: string, c: nat) {
    && Inv(s) && s.hub.running && s.hub.rtsp == Some(c) && c in s.sessions && owner in s.hub.owners && !StopDecided(s)
  }

  lemma EnjoysStep(s: System, step: Step, owner: string, c: nat)
    requires Enjoys(s, owner, c) && Apply(s, step).Some? && !TakesAway(s, step, owner)
    ensures Enjoys(Apply(s, step).value, owner, c)
  {
    ApplyKeepsInv(s, step);
  }

  lemma {:induction false} EnjoysRun(s: System, steps: seq<Step>, owner: string, c: nat)
    requires Enjoys(s, owner, c) && Run(Apply, s, steps).Some? && Spares(s, steps, owner)
    ensures Enjoys(Run(Apply, s, steps).value, owner, c)
    decreases |steps|
  {
    if steps != [] {
      EnjoysStep(s, steps[0], owner, c);
      EnjoysRun(Apply(s, steps[0]).value, steps[1..], owner, c);
    }
  }

  /** Some run from s on that never takes `owner` away ends the session of client `c`. */
  ghost predicate Endable(s: System, owner: string, c: nat) {
    exists steps :: Run(Apply, s, steps).Some? && Spares(s, steps, owner) && c !in Run(Apply, s, steps).value.sessions
  }

  /** An AcquireExisting that is granted: without a Release of its own name or a ForceStop the session it was given
      can end if and only if a stop was already decided when it was granted. */
  lemma GrantedSessionEndsIffStopDecided(s: System, t: nat)
    requires Reachable(s) && t in s.calls && s.calls[t].ExistingEnter? && EnterExisting(s.hub, s.calls[t].owner).1
    ensures s.hub.rtsp.Some? && s.hub.rtsp.value in s.sessions
    ensures Endable(Advance(s, t, Ok).value, s.calls[t].owner, s.hub.rtsp.value) <==> StopDecided(s)
  {
    ReachableInv(s);
    var owner, s1 := s.calls[t].owner, Advance(s, t, Ok).value;
    assert Inv(s1) by { ApplyKeepsInv(s, Goes(t, Ok)); }
    RunningHasSession(s);
    var c := s.hub.rtsp.value;
    if StopDecided(s) {
      StopEnds(s1, owner, c);
    } else {
      assert Enjoys(s1, owner, c);
      forall steps | Run(Apply, s1, steps).Some? && Spares(s1, steps, owner)
        ensures c in Run(Apply, s1, steps).value.sessions
      {
        EnjoysRun(s1, steps, owner, c);
      }
    }
  }

  lemma StopEnds(s: System, owner: string, c: nat)
    requires Inv(s) && StopDecided(s) && s.hub.running && s.hub.rtsp == Some(c)
    ensures Endable(s, owner, c)
  {
    var u := s.startMu.value;
    var steps := [Goes(u, Ok), Goes(u, Ok)];
    var s1 := Apply(s, steps[0]).value;
    var s2 := Apply(s1, steps[1]).value;
    assert s1.calls[u] == Teardown(Some(c)) && c !in s2.sessions;
    assert steps[1..] == [Goes(u, Ok)] && steps[1..][1..] == [];
    assert Run(Apply, s2, []) == Some(s2) && Run(Apply, s1, steps[1..]) == Some(s2);
    assert Spares(s1, steps[1..], owner);
    assert Run(Apply, s, steps) == Some(s2) && Spares(s, steps, owner);
  }

  /** The stop of call `u` is on its way to the session of client `c`, or that session is gone for good. */
  ghost predicate Doomed(s: System, u: nat, c: nat) {
    && Inv(s) && u in s.calls && c in s.calls && Past(s.calls[c])
    && ((s.calls[u] == Stop && s.hub.running && s.hub.rtsp == Some(c))
        || s.calls[u] == Teardown(Some(c)) || c !in s.sessions)
  }

  /** While a decided stop has not moved, no step of another call changes what it will tear down. */
  lemma StopWaits(s: System, step: Step, u: nat)
    requires Inv(s) && u in s.calls && (s.calls[u] == Stop || s.calls[u].Teardown?) && Apply(s, step).Some?
    requires !(step.Goes? && step.t == u)
    ensures var s' := Apply(s, step).value;
            s'.hub.running == s.hub.running && s'.hub.rtsp == s.hub.rtsp && u in s'.calls && s'.calls[u] == s.calls[u]
  {
    assert s.startMu == Some(u);
  }

  lemma NotReopened(s: System, step: Step, c: nat)
    requires c in s.calls && Past(s.calls[c]) && Apply(s, step).Some?
    ensures var s' := Apply(s, step).value;
            c in s'.calls && Past(s'.calls[c]) && (c !in s.sessions ==> c !in s'.sessions)
  {
    if step.Goes? { PastStays(s, step.t, step.net); }
  }

  lemma DoomedStep(s: System, step: Step, u: nat, c: nat)
    requires Doomed(s, u, c) && Apply(s, step).Some?
    ensures Doomed(Apply(s, step).value, u, c)
  {
    ApplyKeepsInv(s, step);
    NotReopened(s, step, c);
    if step.Goes? { PastStays(s, step.t, step.net); }
    if c in s.sessions && !(step.Goes? && step.t == u) { StopWaits(s, step, u); }
  }

  lemma {:induction false} DoomedRun(s: System, steps: seq<Step>, u: nat, c: nat)
    requires Doomed(s, u, c) && Run(Apply, s, steps).Some?
    ensures Doomed(Run(Apply, s, steps).value, u, c)
    decreases |steps|
  {
    if steps != [] {
      DoomedStep(s, steps[0], u, c);
      DoomedRun(Apply(s, steps[0]).value, steps[1..], u, c);
    }
  }

  lemma ReachableScannerInv(s: System)
    requires Reachable(s)
    ensures ScannerInv(s)
  {
    var steps :| Run(Apply, BOOT, steps) == Some(s);
    LedgerOfRun(BOOT, steps);
  }

  /** A stop once decided is final: whatever else runs, AcquireExisting included, when its call has returned the
      session is gone. */
  lemma StopIsFinal(s: System, steps: seq<Step>)
    requires Reachable(s) && StopDecided(s) && s.hub.running && Run(Apply, s, steps).Some?
    ensures s.hub.rtsp.Some?
    ensures var s' := Run(Apply, s, steps).value; var u := s.startMu.value;
            u in s'.calls && (s'.calls[u].Done? ==> s.hub.rtsp.value !in s'.sessions)
  {
    ReachableInv(s);
    ReachableScannerInv(s);
    RunningHasSession(s);
    DoomedRun(s, steps, s.startMu.value, s.hub.rtsp.value);
  }

  /** The step is a Release of the last owner, or a ForceStop, taking effect. */
  predicate Decides(s: System, step: Step) {
    && step.Goes? && step.t in s.calls
    && (s.calls[step.t] == ForceEnter
        || (s.calls[step.t].ReleaseEnter? && s.hub.owners - {s.calls[step.t].owner} == {}))
  }

  /** The session of client `c` runs, and no stop has been decided. */
  ghost predicate Plays(s: System, c: nat) {
    && Inv(s) && s.hub.running && s.hub.rtsp == Some(c) && c in s.sessions && !StopDecided(s)
    && c in s.calls && Past(s.calls[c])
  }

  /** What a step does to a running hub. */
  lemma RunningStep(s: System, step: Step)
    requires Inv(s) && s.hub.running && !StopDecided(s) && Apply(s, step).Some?
    ensures var s' := Apply(s, step).value;
            && s'.hub.running && s'.hub.rtsp == s.hub.rtsp && s'.sessions == s.sessions
            && (Decides(s, step) ==> step.t in s'.calls && s'.calls[step.t] == Stop)
            && (!Decides(s, step) ==> !StopDecided(s'))
  {
    if step.Goes? && Holds(s.calls[step.t]) { assert s.startMu == Some(step.t); }
  }

  lemma PlaysStep(s: System, step: Step, c: nat)
    requires Plays(s, c) && Apply(s, step).Some?
    ensures if Decides(s, step) then Doomed(Apply(s, step).value, step.t, c) else Plays(Apply(s, step).value, c)
  {
    ApplyKeepsInv(s, step);
    NotReopened(s, step, c);
    RunningStep(s, step);
  }

  // ---------------------------------------------------------------- owner names as such

  /** The hub by itself keeps the name of an Acquire that failed before its socket was bound, and with it the
      session after the last listener, if Acquire is called with more than one name. The program calls it with
      one only, and then this cannot happen: see AudioListeners. */
  lemma StaleNameOutlivesLastListener() returns (s: System)
    ensures Reachable(s) && s.startMu.None? && s.hub.running && s.sessions == {2}
    ensures s.calls == map[1 := Done(Failed), 2 := Done(Playing), 3 := Done(Left)]
  {
    ReachesBoot(Apply, BOOT);
    s := AcquireUndisturbed(BOOT, 1, "a", false, Streams);
    s := AcquireUndisturbed(s, 2, "b", true, Streams);
    s := ReleaseUndisturbed(s, 3, "b");
  }

  /** Between the two sections of a Release that removed the last owner, AcquireExisting still says yes. */
  lemma StopWindow(web: string, record: string) returns (s: System)
    ensures Reachable(s) && s.startMu == Some(2) && s.sessions == {1}
    ensures s.hub == Hub(true, false, {}, Some(1), 1)
    ensures s.calls == map[1 := Done(Playing), 2 := Stop, 3 := ExistingEnter(record)]
  {
    ReachesBoot(Apply, BOOT);
    s := AcquireUndisturbed(BOOT, 1, web, true, Streams);
    assert s.hub == Hub(true, false, {web}, Some(1), 0);
    s := ReachesNext(Apply, BOOT, s, Packet);
    s := Enrol(s, 3, AcquireExisting(record));
    s := Enrol(s, 2, Release(web));
    s := EnterRelease(s, 2);
  }

  lemma EnterRelease(s: System, t: nat) returns (s': System)
    requires Reachable(s) && s.startMu.None? && t in s.calls && s.calls[t].ReleaseWait?
    requires s.hub.owners == {s.calls[t].owner}
    ensures Reachable(s') && s' == s.(hub := s.hub.(owners := {}), startMu := Some(t), calls := s.calls[t := Stop])
  {
    var o := s.calls[t].owner;
    s' := Go(s, t, Ok);
    assert s' == s.(startMu := Some(t), calls := s.calls[t := ReleaseEnter(o)]);
    s' := Go(s', t, Ok);
  }

  /** A recorder granted the session in that window loses it at once: it was told yes, nobody released for
      it, and the session is gone while its name stays in the owner set. */
  lemma SharedWhileStopping() returns (s: System)
    ensures Reachable(s) && s.startMu.None? && !s.hub.running && s.sessions == {}
    ensures s.calls == map[1 := Done(Playing), 2 := Done(Left), 3 := Done(Joined)] && s.hub.owners == {"record"}
  {
    s := StopWindow("web", "record");
    s := Go(s, 3, Ok);
    assert s.hub == Hub(true, false, {"record"}, Some(1), 1);
    s := StopUndisturbed(s, 2);
  }
}
