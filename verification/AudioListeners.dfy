/**
 Who listens, and whose leaving ends the session (audio.go, handlers.go:887-912). The hub knows its owners by name
 only, and the program uses two names: every browser starts and stops as "web", the recorder shares and stops as
 "record". This module runs the hub's step model with these callers and keeps beside it, call by call, who was told
 that the audio is on and has not left.
 */
module AudioListeners {
  import opened H = AudioHub
  import opened Options
  import opened Runs

  const WEB := "web"
  const RECORD := "record"

  /** `browsers`, `recorders`: the calls that were told yes and whose own Release has not taken effect; `gone`: the
      browsers among them that have left without one. `heldWeb`, `heldRecord`: those of them whose name nobody has
      released since. `leaving`: the Releases made for one of them. */
  datatype House = House(
    s: System, browsers: set<nat>, recorders: set<nat>, gone: set<nat>, heldWeb: set<nat>, heldRecord: set<nat>,
    leaving: map<nat, nat>)

  const OPENING := House(BOOT, {}, {}, {}, {}, {}, map[])

  function Told(h: House): set<nat> { h.browsers + h.recorders }

  function Listeners(h: House): set<nat> { (h.browsers - h.gone) + h.recorders }

  /** Listen: a browser starts. Share: the recorder starts. Leave: call `t` releases what call `g` was granted.
      Disconnect: browser `g` closes its page or loses its connection; StreamWAV drops its subscription and nothing
      else. Denied: browser `g` stops playing and its stop is refused, because another client holds the lease. Stray: a
      Release by someone who was granted nothing, or has gone: Recorder.Stop without a file, a stop from another
      page. */
  datatype Act =
    | Listen(t: nat) | Share(t: nat) | Leave(t: nat, g: nat) | Disconnect(g: nat) | Denied(g: nat)
    | Stray(t: nat, web: bool) | Shutdown(t: nat) | Moves(t: nat, net: Net) | Heard

  function Name(web: bool): string { if web then WEB else RECORD }

  function HubStep(h: House, act: Act): Option<Step> {
    match act
    case Listen(t) => Some(Begins(t, Acquire(WEB)))
    case Share(t) => Some(Begins(t, AcquireExisting(RECORD)))
    case Leave(t, g) => if g in Listeners(h) then Some(Begins(t, Release(Name(g in h.browsers)))) else None
    case Disconnect(_) => None
    case Denied(_) => None
    case Stray(t, web) => Some(Begins(t, Release(Name(web))))
    case Shutdown(t) => Some(Begins(t, ForceStop))
    case Moves(t, net) => Some(Goes(t, net))
    case Heard => Some(Packet)
  }

  function Apply(h: House, act: Act): Option<House> {
    if act.Disconnect? || act.Denied? then
      if act.g in h.browsers && act.g !in h.gone then Some(h.(gone := h.gone + {act.g})) else None
    else if HubStep(h, act).None? || H.Apply(h.s, HubStep(h, act).value).None? then None
    else
      var s' := H.Apply(h.s, HubStep(h, act).value).value;
      if act.Leave? then Some(h.(s := s', leaving := h.leaving[act.t := act.g]))
      else if act.Moves? then Some(Moved(h.(s := s'), act.t, h.s.calls[act.t]))
      else Some(h.(s := s'))
  }

  predicate Granting(pc: Pc) { pc == Done(Playing) || pc == Done(Joined) }

  /** Call `t` has moved from `pc`: it was granted the audio, or its Release or ForceStop has taken effect. */
  function Moved(h: House, t: nat, pc: Pc): House
    requires t in h.s.calls
  {
    match pc
    case ReleaseEnter(o) =>
      var mine := if t in h.leaving then {h.leaving[t]} else {};
      var left := h.(browsers := h.browsers - mine, recorders := h.recorders - mine);
      if o == WEB then left.(heldWeb := {}, heldRecord := h.heldRecord - mine)
      else left.(heldRecord := {}, heldWeb := h.heldWeb - mine)
    case ForceEnter => h.(heldWeb := {}, heldRecord := {})
    case AcquireEnter(_) => if Granting(h.s.calls[t]) then Welcomed(h, t) else h
    case AcquireListen(_) => if Granting(h.s.calls[t]) then Welcomed(h, t) else h
    case ExistingEnter(_) =>
      if Granting(h.s.calls[t]) then h.(recorders := h.recorders + {t}, heldRecord := h.heldRecord + {t}) else h
    case _ => h
  }

  function Welcomed(h: House, t: nat): House { h.(browsers := h.browsers + {t}, heldWeb := h.heldWeb + {t}) }

  ghost predicate Reachable(h: House) { Reaches(Apply, OPENING, h) }

  // ---------------------------------------------------------------- the invariant

  /** Browsers acquire as "web", the recorder shares as "record", nobody releases another name. */
  predicate Proper(pc: Pc) {
    match pc
    case AcquireWait(o) => o == WEB
    case AcquireEnter(o) => o == WEB
    case AcquireDial(o) => o == WEB
    case AcquireConnect(o) => o == WEB
    case AcquirePlay(o) => o == WEB
    case AcquireUndo(o) => o == WEB
    case AcquireCommit(o) => o == WEB
    case AcquireListen(o) => o == WEB
    case ExistingEnter(o) => o == RECORD
    case ReleaseWait(o) => o == WEB || o == RECORD
    case ReleaseEnter(o) => o == WEB || o == RECORD
    case _ => true
  }

  ghost predicate Names(s: System) { forall t :: t in s.calls ==> Proper(s.calls[t]) }

  predicate Announcing(s: System) {
    s.startMu.Some? && s.startMu.value in s.calls && s.calls[s.startMu.value].AcquireListen?
  }

  /** The owner set says who is held: of the browsers while the hub runs, of the recorder always. */
  predicate Books(s: System, web: set<nat>, record: set<nat>) {
    && s.hub.owners <= {WEB, RECORD}
    && (RECORD in s.hub.owners <==> record != {})
    && (web != {} ==> WEB in s.hub.owners && s.hub.running)
    && (s.hub.running && WEB in s.hub.owners && !Announcing(s) ==> web != {})
    && (StopDecided(s) ==> WEB !in s.hub.owners)
  }

  /** A Release made for a listener is made in that listener's name, and calls are granted once only. */
  ghost predicate Members(h: House) {
    && h.heldWeb <= h.browsers && h.heldRecord <= h.recorders && h.browsers !! h.recorders
    && (forall g :: g in Told(h) ==> g in h.s.calls && h.s.calls[g].Done?)
    && (forall t :: t in h.leaving ==> t in h.s.calls && LeavesOwn(h, t))
  }

  ghost predicate LeavesOwn(h: House, t: nat)
    requires t in h.leaving && t in h.s.calls
  {
    var g := h.leaving[t];
    && g in h.s.calls && h.s.calls[g].Done?
    && (g in h.browsers && (h.s.calls[t].ReleaseWait? || h.s.calls[t].ReleaseEnter?) ==> h.s.calls[t].owner == WEB)
    && (g in h.recorders && (h.s.calls[t].ReleaseWait? || h.s.calls[t].ReleaseEnter?) ==> h.s.calls[t].owner == RECORD)
  }

  ghost predicate HouseInv(h: House) { Inv(h.s) && Names(h.s) && Books(h.s, h.heldWeb, h.heldRecord) && Members(h) }

  lemma ProperStays(s: System, t: nat, net: Net)
    requires t in s.calls && Advance(s, t, net).Some? && Proper(s.calls[t])
    ensures t in Advance(s, t, net).value.calls && Proper(Advance(s, t, net).value.calls[t])
  {
  }

  lemma NamesStep(h: House, act: Act)
    requires Names(h.s) && Apply(h, act).Some?
    ensures Names(Apply(h, act).value.s)
  {
    if act.Moves? {
      ProperStays(h.s, act.t, act.net);
      PastStays(h.s, act.t, act.net);
    }
  }

  lemma EnterMembers(h: House, act: Act)
    requires Members(h) && Apply(h, act).Some? && !act.Moves?
    ensures Members(Apply(h, act).value)
  {
    var h' := Apply(h, act).value;
    forall t | t in h'.leaving ensures t in h'.s.calls && LeavesOwn(h', t) {
      if t in h.leaving && !(act.Leave? && t == act.t) { assert LeavesOwn(h, t); }
    }
  }

  /** A call's own listener changes: nobody is listed twice, and only calls that have returned are. */
  lemma OwnMembers(h: House, t: nat, net: Net)
    requires Members(h) && Apply(h, Moves(t, net)).Some?
    ensures var h' := Apply(h, Moves(t, net)).value;
            && t in h'.s.calls && h'.s.calls == h.s.calls[t := h'.s.calls[t]] && h'.leaving == h.leaving
            && t !in Told(h) && Told(h') <= Told(h) + {t} && (t in Told(h') ==> h'.s.calls[t].Done?)
            && h'.heldWeb <= h'.browsers && h'.heldRecord <= h'.recorders && h'.browsers !! h'.recorders
            && h'.browsers <= h.browsers + {t} && h'.recorders <= h.recorders + {t}
            && h'.gone == h.gone
            && (h'.s.calls[t].ReleaseWait? || h'.s.calls[t].ReleaseEnter? ==>
                  h.s.calls[t].ReleaseWait? && h'.s.calls[t].owner == h.s.calls[t].owner)
  {
    PastStays(h.s, t, net);
  }

  lemma MoveMembers(h: House, t: nat, net: Net)
    requires Members(h) && Apply(h, Moves(t, net)).Some?
    ensures Members(Apply(h, Moves(t, net)).value)
  {
    var h' := Apply(h, Moves(t, net)).value;
    OwnMembers(h, t, net);
    forall u | u in h'.leaving ensures u in h'.s.calls && LeavesOwn(h', u) {
      assert LeavesOwn(h, u);
      assert h.leaving[u] != t;
    }
  }

  lemma MembersStep(h: House, act: Act)
    requires Members(h) && Apply(h, act).Some?
    ensures Members(Apply(h, act).value)
  {
    if act.Moves? { MoveMembers(h, act.t, act.net); } else { EnterMembers(h, act); }
  }

  /** The Release of a listener takes nobody of the other name with it. */
  lemma MineIsNamed(h: House, t: nat)
    requires Members(h) && t in h.s.calls && h.s.calls[t].ReleaseEnter? && t in h.leaving
    ensures h.s.calls[t].owner == WEB ==> h.leaving[t] !in h.heldRecord
    ensures h.s.calls[t].owner == RECORD ==> h.leaving[t] !in h.heldWeb
  {
    assert LeavesOwn(h, t);
  }

  lemma ReleaseBooks(h: House, t: nat, net: Net)
    requires HouseInv(h) && t in h.s.calls && h.s.calls[t].ReleaseEnter?
    ensures var h' := Apply(h, Moves(t, net)).value; Books(h'.s, h'.heldWeb, h'.heldRecord)
  {
    if t in h.leaving { MineIsNamed(h, t); }
    assert Proper(h.s.calls[t]);
  }

  lemma HolderBooks(h: House, t: nat, net: Net)
    requires HouseInv(h) && Apply(h, Moves(t, net)).Some? && Holds(h.s.calls[t]) && !h.s.calls[t].ReleaseEnter?
    ensures var h' := Apply(h, Moves(t, net)).value; Books(h'.s, h'.heldWeb, h'.heldRecord)
  {
    assert h.s.startMu == Some(t) && Proper(h.s.calls[t]);
    HolderStep(h.s, t, net);
  }

  lemma OutsiderBooks(h: House, t: nat, net: Net)
    requires HouseInv(h) && Apply(h, Moves(t, net)).Some? && !Holds(h.s.calls[t])
    ensures var h' := Apply(h, Moves(t, net)).value; Books(h'.s, h'.heldWeb, h'.heldRecord)
  {
    assert Proper(h.s.calls[t]);
    if h.s.startMu.Some? { assert h.s.startMu.value in h.s.calls; }
  }

  lemma HouseStep(h: House, act: Act)
    requires HouseInv(h) && Apply(h, act).Some?
    ensures HouseInv(Apply(h, act).value)
  {
    if HubStep(h, act).Some? { ApplyKeepsInv(h.s, HubStep(h, act).value); }
    NamesStep(h, act);
    MembersStep(h, act);
    if act.Moves? {
      if h.s.calls[act.t].ReleaseEnter? { ReleaseBooks(h, act.t, act.net); }
      else if Holds(h.s.calls[act.t]) { HolderBooks(h, act.t, act.net); }
      else { OutsiderBooks(h, act.t, act.net); }
    }
  }

  lemma ReachableHouse(h: House)
    requires Reachable(h)
    ensures HouseInv(h)
  {
    forall h, act | HouseInv(h) && Apply(h, act).Some? ensures HouseInv(Apply(h, act).value) { HouseStep(h, act); }
    Invariant(Apply, HouseInv, OPENING, h);
  }

  // ---------------------------------------------------------------- results over every interleaving

  /** While no start or stop is under way and the hub runs, the owner set is exactly the names of those held: no stale
      name is ever among them. Idle, only recorders can still be held, and exactly then "record" is an owner. */
  lemma OwnersAreHeld(h: House)
    requires Reachable(h) && h.s.startMu.None?
    ensures h.s.hub.running ==> (WEB in h.s.hub.owners <==> h.heldWeb != {})
    ensures !h.s.hub.running ==> h.heldWeb == {}
    ensures RECORD in h.s.hub.owners <==> h.heldRecord != {}
    ensures h.s.hub.owners <= {WEB, RECORD}
  {
    ReachableHouse(h);
  }

  /** A Release taking effect ends the running session if and only if nobody is held under the other name. How many
      others listen under the same name makes no difference. */
  lemma ReleaseEndsIffOtherNameFree(h: House, t: nat, net: Net)
    requires Reachable(h) && t in h.s.calls && h.s.calls[t].ReleaseEnter? && h.s.hub.running
    ensures Advance(h.s, t, net).Some?
    ensures Advance(h.s, t, net).value.calls[t] == Stop <==> OthersFree(h, h.s.calls[t].owner)
  {
    ReachableHouse(h);
    FreeIffLast(h, t);
  }

  /** Nobody is held under the other name. */
  predicate OthersFree(h: House, o: string) { if o == WEB then h.heldRecord == {} else h.heldWeb == {} }

  lemma FreeIffLast(h: House, t: nat)
    requires HouseInv(h) && t in h.s.calls && h.s.calls[t].ReleaseEnter? && h.s.hub.running
    ensures h.s.hub.owners - {h.s.calls[t].owner} == {} <==> OthersFree(h, h.s.calls[t].owner)
  {
    assert h.s.startMu == Some(t) && Proper(h.s.calls[t]);
    assert WEB != RECORD;
    var o := h.s.hub.owners;
    assert WEB in o - {RECORD} <==> WEB in o;
    assert RECORD in o - {WEB} <==> RECORD in o;
  }

  /** The Release made for the last listener ends the session if and only if no browser that has gone is still held
      under another name: a recorder that stops does not end it for them. */
  lemma LastReleaseEndsIffNoneGone(h: House, t: nat, net: Net)
    requires Reachable(h) && t in h.s.calls && h.s.calls[t].ReleaseEnter? && h.s.hub.running
    requires t in h.leaving && Listeners(h) == {h.leaving[t]}
    ensures Advance(h.s, t, net).Some?
    ensures Advance(h.s, t, net).value.calls[t] == Stop
            <==> (h.s.calls[t].owner == RECORD ==> h.heldWeb * h.gone == {})
  {
    ReachableHouse(h);
    ReleaseEndsIffOtherNameFree(h, t, net);
    assert LeavesOwn(h, t) && Proper(h.s.calls[t]);
    assert h.recorders <= {h.leaving[t]} && h.browsers - h.gone <= {h.leaving[t]};
    if h.s.calls[t].owner == RECORD {
      assert h.leaving[t] !in h.browsers;
      assert h.heldWeb * h.gone == h.heldWeb;
    }
  }

  // ---------------------------------------------------------------- when the session ends

  /** The act takes effect as a ForceStop, or as a Release while nobody is held under the other name. */
  predicate Ends(h: House, act: Act) {
    && act.Moves? && act.t in h.s.calls
    && (h.s.calls[act.t] == ForceEnter || (h.s.calls[act.t].ReleaseEnter? && OthersFree(h, h.s.calls[act.t].owner)))
  }

  predicate EndsIn(h: House, acts: seq<Act>)
    decreases |acts|
  {
    acts != [] && (Ends(h, acts[0]) || (Apply(h, acts[0]).Some? && EndsIn(Apply(h, acts[0]).value, acts[1..])))
  }

  lemma PlaysAct(h: House, act: Act, c: nat)
    requires HouseInv(h) && Plays(h.s, c) && Apply(h, act).Some?
    ensures if Ends(h, act) then Doomed(Apply(h, act).value.s, act.t, c) else Plays(Apply(h, act).value.s, c)
  {
    HubPart(h, act);
    if HubStep(h, act).Some? { PlaysStep(h.s, HubStep(h, act).value, c); }
    EndsIffDecides(h, act);
  }

  lemma EndsIffDecides(h: House, act: Act)
    requires HouseInv(h) && h.s.hub.running && Apply(h, act).Some?
    ensures Ends(h, act) <==> HubStep(h, act).Some? && Decides(h.s, HubStep(h, act).value)
  {
    if act.Moves? && h.s.calls[act.t].ReleaseEnter? { FreeIffLast(h, act.t); }
  }

  lemma DoomedAct(h: House, act: Act, u: nat, c: nat)
    requires Doomed(h.s, u, c) && Apply(h, act).Some?
    ensures Doomed(Apply(h, act).value.s, u, c)
  {
    HubPart(h, act);
    if HubStep(h, act).Some? { DoomedStep(h.s, HubStep(h, act).value, u, c); }
  }

  lemma HubPart(h: House, act: Act)
    requires Apply(h, act).Some?
    ensures if HubStep(h, act).None? then Apply(h, act).value.s == h.s
            else H.Apply(h.s, HubStep(h, act).value) == Some(Apply(h, act).value.s)
  {
  }

  lemma {:induction false} DoomedActs(h: House, acts: seq<Act>, u: nat, c: nat)
    requires Doomed(h.s, u, c) && Run(Apply, h, acts).Some?
    ensures Doomed(Run(Apply, h, acts).value.s, u, c)
    decreases |acts|
  {
    if acts != [] {
      DoomedAct(h, acts[0], u, c);
      DoomedActs(Apply(h, acts[0]).value, acts[1..], u, c);
    }
  }

  lemma {:induction false} PlaysActs(h: House, acts: seq<Act>, c: nat)
    requires HouseInv(h) && Plays(h.s, c) && Run(Apply, h, acts).Some?
    ensures var h' := Run(Apply, h, acts).value;
            if EndsIn(h, acts) then exists u :: Doomed(h'.s, u, c) else Plays(h'.s, c)
    decreases |acts|
  {
    if acts != [] {
      PlaysAct(h, acts[0], c);
      HouseStep(h, acts[0]);
      var next := Apply(h, acts[0]).value;
      if Ends(h, acts[0]) { DoomedActs(next, acts[1..], acts[0].t, c); } else { PlaysActs(next, acts[1..], c); }
    }
  }

  /** From any reachable state in which the hub runs and no start or stop is under way, over any run to another: the
      session is over if and only if a ForceStop took effect, or a Release while nobody was held under the other name.
      Who still listens does not matter: when the last listener has disconnected, it goes on until that happens. */
  lemma SessionEndsIff(h: House, acts: seq<Act>)
    requires Reachable(h) && h.s.startMu.None? && h.s.hub.running
    requires Run(Apply, h, acts).Some? && Run(Apply, h, acts).value.s.startMu.None?
    ensures var s' := Run(Apply, h, acts).value.s; var c := h.s.hub.rtsp;
            && c.Some? && c.value in h.s.sessions && (c.value !in s'.sessions <==> EndsIn(h, acts))
            && (!EndsIn(h, acts) ==> s'.hub.running && s'.hub.rtsp == c)
  {
    ReachableHouse(h);
    RunningHasSession(h.s);
    HubReachable(h);
    ReachableScannerInv(h.s);
    PlaysActs(h, acts, h.s.hub.rtsp.value);
  }

  /** The hub's part of a reachable house is a reachable state of the hub. */
  lemma HubReachable(h: House)
    requires Reachable(h)
    ensures H.Reachable(h.s)
  {
    ReachesBoot(H.Apply, BOOT);
    forall h: House, act: Act | H.Reachable(h.s) && Apply(h, act).Some? ensures H.Reachable(Apply(h, act).value.s) {
      HubPart(h, act);
      if HubStep(h, act).Some? { var s' := ReachesNext(H.Apply, BOOT, h.s, HubStep(h, act).value); }
    }
    Invariant(Apply, (h: House) => H.Reachable(h.s), OPENING, h);
  }

  /** But not only with the last: it is taken from another listener `x` who is still held if and only if every
      listener held has the name that is released, `x` among them. */
  lemma TakenFromOthersIffSameName(h: House, t: nat, net: Net, x: nat)
    requires Reachable(h) && t in h.s.calls && h.s.calls[t].ReleaseEnter? && h.s.hub.running
    requires t in h.leaving && x != h.leaving[t] && x in h.heldWeb + h.heldRecord
    ensures Advance(h.s, t, net).Some?
    ensures Advance(h.s, t, net).value.calls[t] == Stop
            <==> h.heldWeb + h.heldRecord <= (if h.s.calls[t].owner == WEB then h.browsers else h.recorders)
  {
    ReachableHouse(h);
    ReleaseEndsIffOtherNameFree(h, t, net);
    assert Proper(h.s.calls[t]);
    if h.heldRecord != {} { var y :| y in h.heldRecord; assert y in h.heldWeb + h.heldRecord && y !in h.browsers; }
    if h.heldWeb != {} { var y :| y in h.heldWeb; assert y in h.heldWeb + h.heldRecord && y !in h.recorders; }
  }

  // ---------------------------------------------------------------- two browsers

  lemma Do(h: House, act: Act) returns (h': House)
    requires Reachable(h) && Apply(h, act).Some?
    ensures Reachable(h') && h' == Apply(h, act).value
  {
    h' := ReachesNext(Apply, OPENING, h, act);
  }

  const ON := Hub(true, false, {WEB}, Some(1), 0)

  lemma FirstWaits() returns (h: House)
    ensures Reachable(h)
    ensures h == OPENING.(s := BOOT.(startMu := Some(1), calls := map[1 := AcquireEnter(WEB)]))
  {
    ReachesBoot(Apply, OPENING);
    h := Do(OPENING, Listen(1));
    assert h.s == BOOT.(calls := map[1 := AcquireWait(WEB)]);
    h := Do(h, Moves(1, Ok));
  }

  lemma FirstConnects() returns (h: House)
    ensures Reachable(h)
    ensures h.s == System(Hub(false, true, {WEB}, Some(1), 0), Some(1), map[1 := AcquireConnect(WEB)], {}, {})
    ensures h == OPENING.(s := h.s)
  {
    h := FirstWaits();
    h := Do(h, Moves(1, Ok));
    assert h.s == System(Hub(false, true, {WEB}, None, 0), Some(1), map[1 := AcquireDial(WEB)], {}, {});
    h := Do(h, Moves(1, Ok));
  }

  lemma FirstCommits() returns (h: House)
    ensures Reachable(h)
    ensures h == House(System(ON, Some(1), map[1 := AcquireListen(WEB)], {1}, {1}), {}, {}, {}, {}, {}, map[])
  {
    h := FirstConnects();
    h := Do(h, Moves(1, Ok));
    h := Do(h, Moves(1, Ok));
    assert h.s == System(Hub(false, true, {WEB}, Some(1), 0), Some(1), map[1 := AcquireCommit(WEB)], {1}, {1});
    h := Do(h, Moves(1, Ok));
  }

  lemma FirstListens() returns (h: House)
    ensures Reachable(h)
    ensures h == House(System(ON, None, map[1 := Done(Playing)], {1}, {1}), {1}, {}, {}, {1}, {}, map[])
  {
    h := FirstCommits();
    h := Do(h, Moves(1, Ok));
  }

  /** It happens: the only listener disconnects, and the session goes on with nobody listening. */
  lemma SessionOutlivesLastListener() returns (h: House)
    ensures Reachable(h) && h.s.startMu.None? && h.s.hub.running && h.s.sessions == h.s.scanner == {1}
    ensures Listeners(h) == {} && h.heldWeb == {1}
  {
    h := FirstListens();
    h := Do(h, Disconnect(1));
  }

  lemma SecondJoins() returns (h: House)
    ensures Reachable(h)
    ensures h == House(System(ON, None, AFTER, {1}, {1}), {1, 2}, {}, {}, {1, 2}, {}, map[])
  {
    h := FirstListens();
    h := Do(h, Listen(2));
    h := Do(h, Moves(2, Ok));
    assert h.s == System(ON, Some(2), map[1 := Done(Playing), 2 := AcquireEnter(WEB)], {1}, {1});
    h := Do(h, Moves(2, Ok));
  }

  const AFTER := map[1 := Done(Playing), 2 := Done(Joined)]

  lemma FirstReleases() returns (h: House)
    ensures Reachable(h)
    ensures h.s == System(ON, Some(3), AFTER[3 := ReleaseEnter(WEB)], {1}, {1})
    ensures h == House(h.s, {1, 2}, {}, {}, {1, 2}, {}, map[3 := 1])
  {
    h := SecondJoins();
    h := Do(h, Leave(3, 1));
    h := Do(h, Moves(3, Ok));
  }

  lemma FirstLeaves() returns (h: House)
    ensures Reachable(h)
    ensures h == House(System(ON.(owners := {}), Some(3), AFTER[3 := Stop], {1}, {1}), {2}, {}, {}, {}, {}, map[3 := 1])
  {
    h := FirstReleases();
    h := Do(h, Moves(3, Ok));
  }

  const OFF := Hub(false, false, {}, Some(1), 0)

  lemma StopBegun() returns (h: House)
    ensures Reachable(h)
    ensures h == House(System(OFF, Some(3), AFTER[3 := Teardown(Some(1))], {1}, {1}), {2}, {}, {}, {}, {}, map[3 := 1])
  {
    h := FirstLeaves();
    h := Do(h, Moves(3, Ok));
  }

  lemma StopTornDown() returns (h: House)
    ensures Reachable(h)
    ensures h == House(System(OFF, Some(3), AFTER[3 := Clear], {}, {}), {2}, {}, {}, {}, {}, map[3 := 1])
  {
    h := StopBegun();
    h := Do(h, Moves(3, Ok));
  }

  /** It happens: two browsers listen, one stops, and the session is over for the other. */
  lemma OneBrowserEndsItForBoth() returns (h: House)
    ensures Reachable(h) && h.s.startMu.None? && !h.s.hub.running && h.s.sessions == {} && Listeners(h) == {2}
  {
    h := StopTornDown();
    h := Do(h, Moves(3, Ok));
  }
}
