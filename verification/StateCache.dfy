/**
 The scanner-state cache of the Go web app (main.go readState and setHost, handlers.go invalidateState).

 A reader holds `stateMu` from its cache test to its return, GSI exchange included. A control handler
 exchanges its write under `commandMu` alone and only then invalidates under `stateMu`. setHost changes the
 host under `mu`, saves the configuration with no lock held, and only then clears under `stateMu`.
 */
module StateCache {
  import opened Options
  import opened Runs

  /** What one GSI exchange learned: the writes the scanner had executed by then (`epoch`), and which host
      setting labels the reply (`named`) and which one was asked (`target`), both by version. */
  datatype Snapshot = Snapshot(epoch: nat, named: nat, target: nat)

  /** `at` is None after invalidation: the source's zero time. */
  datatype Cache = Cache(snap: Snapshot, at: Option<nat>)

  const NO_SNAPSHOT := Snapshot(0, 0, 0)

  predicate Hit(c: Cache, force: bool, clock: nat, ttl: nat) {
    !force && c.at.Some? && clock - c.at.value < ttl
  }

  datatype Pc =
    | ReadLock(force: bool)                     // stateMu.Lock
    | ReadTest(force: bool)                     // configSnapshot, cache test
    | ReadAddress(named: nat)                   // command: currentHost
    | ReadQueue(named: nat, target: nat)        // commandMu.Lock
    | ReadExchange(named: nat, target: nat)     // GSI request and reply
    | ReadStore(snap: Snapshot)                 // stateCache, stateAt, return
    | WriteQueue(more: nat, invalidates: bool)     // commandMu.Lock
    | WriteExchange(more: nat, invalidates: bool)  // a control command
    | Invalidate(epoch: nat)                    // invalidateState
    | HostSet(host: string)                     // cfg.Host under mu
    | HostSave(version: nat)                    // saveJSON
    | HostClear(version: nat)                   // empty the cache under stateMu
    | Done

  datatype Event =
    | Served(snap: Snapshot)        // readState hands out a snapshot
    | WriteDone(epoch: nat)         // a handler has written and invalidated
    | WriteKept(epoch: nat)         // a handler has written, and invalidates nothing
    | WriteUnknown                  // a write got no acknowledgement; no further one, and no invalidation
    | HostDone(version: nat)        // setHost returned nil
    | HostFailed(version: nat)      // setHost returned saveJSON's error

  /** `ttl`: the configured cache time. `hosts` lists every host setting so far; the last one is current. `epoch`
      counts executed writes. */
  datatype System = System(
    ttl: nat, hosts: seq<string>, cache: Cache, stateMu: Option<nat>, commandMu: Option<nat>,
    epoch: nat, clock: nat, calls: map<nat, Pc>, log: seq<Event>)

  function Boot(ttl: nat, host: string): System {
    System(ttl, [host], Cache(NO_SNAPSHOT, None), None, None, 0, 0, map[], [])
  }

  function Version(s: System): int { |s.hosts| - 1 }

  /** Write: a control handler with one write and `more` further ones, as pressKeys has for a sequence of keys; some
      handlers invalidate afterwards and some do not. */
  datatype Call = ReadState(force: bool) | Write(more: nat, invalidates: bool) | SetHost(host: string)

  function FirstPc(c: Call): Pc {
    match c
    case ReadState(f) => ReadLock(f)
    case Write(more, invalidates) => WriteQueue(more, invalidates)
    case SetHost(h) => HostSet(h)
  }

  /** How the network answers: the scanner did the command and said so, did it and the reply was lost, or
      never got it. For HostSave only Replied means success. */
  datatype Answer = Replied | ReplyLost | NotDone

  function Goto(s: System, t: nat, pc: Pc): System { s.(calls := s.calls[t := pc]) }

  function Say(s: System, e: Event): System { s.(log := s.log + [e]) }

  predicate Reading(pc: Pc) {
    pc.ReadLock? || pc.ReadTest? || pc.ReadAddress? || pc.ReadQueue? || pc.ReadExchange? || pc.ReadStore?
  }

  /** The next step of a readState. None: blocked on a lock. */
  function AdvanceRead(s: System, t: nat, pc: Pc, answer: Answer): Option<System>
    requires Reading(pc) && s.hosts != []
  {
    match pc
    case ReadLock(f) =>
      if s.stateMu.Some? then None else Some(Goto(s.(stateMu := Some(t)), t, ReadTest(f)))
    case ReadTest(f) =>
      if Hit(s.cache, f, s.clock, s.ttl) then Some(Goto(Say(s.(stateMu := None), Served(s.cache.snap)), t, Done))
      else if s.hosts[|s.hosts|-1] == "" then Some(Goto(s.(stateMu := None), t, Done))
      else Some(Goto(s, t, ReadAddress(Version(s))))
    case ReadAddress(l) =>
      if s.hosts[|s.hosts|-1] == "" then Some(Goto(s.(stateMu := None), t, Done))
      else Some(Goto(s, t, ReadQueue(l, Version(s))))
    case ReadQueue(l, g) =>
      if s.commandMu.Some? then None else Some(Goto(s.(commandMu := Some(t)), t, ReadExchange(l, g)))
    case ReadExchange(l, g) =>
      if answer.Replied? then Some(Goto(s.(commandMu := None), t, ReadStore(Snapshot(s.epoch, l, g))))
      else Some(Goto(s.(commandMu := None, stateMu := None), t, Done))
    case ReadStore(snap) =>
      Some(Goto(Say(s.(stateMu := None, cache := Cache(snap, Some(s.clock))), Served(snap)), t, Done))
  }

  /** The next step of a control handler or of setHost. */
  function AdvanceWrite(s: System, t: nat, pc: Pc, answer: Answer): Option<System>
    requires !Reading(pc)
  {
    match pc
    case WriteQueue(more, invalidates) =>
      if s.commandMu.Some? then None else Some(Goto(s.(commandMu := Some(t)), t, WriteExchange(more, invalidates)))
    case WriteExchange(more, invalidates) =>
      var s1 := s.(commandMu := None, epoch := if answer.NotDone? then s.epoch else s.epoch + 1);
      if !answer.Replied? then Some(Goto(Say(s1, WriteUnknown), t, Done))
      else if more > 0 then Some(Goto(s1, t, WriteQueue(more - 1, invalidates)))
      else if invalidates then Some(Goto(s1, t, Invalidate(s1.epoch)))
      else Some(Goto(Say(s1, WriteKept(s1.epoch)), t, Done))
    case Invalidate(e) =>
      if s.stateMu.Some? then None else Some(Goto(Say(s.(cache := s.cache.(at := None)), WriteDone(e)), t, Done))
    case HostSet(h) => Some(Goto(s.(hosts := s.hosts + [h]), t, HostSave(|s.hosts|)))
    case HostSave(v) =>
      if answer.Replied? then Some(Goto(s, t, HostClear(v))) else Some(Goto(Say(s, HostFailed(v)), t, Done))
    case HostClear(v) =>
      if s.stateMu.Some? then None else Some(Goto(Say(s.(cache := Cache(NO_SNAPSHOT, None)), HostDone(v)), t, Done))
    case Done => None
  }

  function Advance(s: System, t: nat, answer: Answer): Option<System>
    requires t in s.calls && s.hosts != []
  {
    if Reading(s.calls[t]) then AdvanceRead(s, t, s.calls[t], answer) else AdvanceWrite(s, t, s.calls[t], answer)
  }

  datatype Step = Begins(t: nat, call: Call) | Goes(t: nat, answer: Answer) | Tick

  function Apply(s: System, step: Step): Option<System> {
    match step
    case Begins(t, c) => if t in s.calls then None else Some(Goto(s, t, FirstPc(c)))
    case Goes(t, a) => if t in s.calls && s.hosts != [] then Advance(s, t, a) else None
    case Tick => Some(s.(clock := s.clock + 1))
  }

  ghost predicate Reachable(s: System) {
    exists host :: From(s, host)
  }

  ghost predicate From(s: System, host: string) { Reaches(Apply, Boot(s.ttl, host), s) }

  // ---------------------------------------------------------------- the invariant

  predicate HoldsState(pc: Pc) {
    pc.ReadTest? || pc.ReadAddress? || pc.ReadQueue? || pc.ReadExchange? || pc.ReadStore?
  }

  predicate HoldsCommand(pc: Pc) { pc.ReadExchange? || pc.WriteExchange? }

  /** Snapshot `x` is no older than anything that log `log` says is over. */
  ghost predicate Fresh(x: Snapshot, log: seq<Event>) {
    forall e :: e in log ==>
      && (e.WriteDone? ==> e.epoch <= x.epoch)
      && (e.HostDone? ==> e.version <= x.named && e.version <= x.target)
  }

  ghost predicate HostFresh(v: nat, log: seq<Event>) {
    forall e :: e in log && e.HostDone? ==> e.version <= v
  }

  ghost predicate CallInv(s: System, pc: Pc) {
    match pc
    case ReadAddress(l) => HostFresh(l, s.log) && l <= Version(s)
    case ReadQueue(l, g) => HostFresh(l, s.log) && HostFresh(g, s.log) && l <= g <= Version(s)
    case ReadExchange(l, g) => HostFresh(l, s.log) && HostFresh(g, s.log) && l <= g <= Version(s)
    case ReadStore(x) => Fresh(x, s.log) && x.named <= x.target <= Version(s) && x.epoch <= s.epoch
    case Invalidate(e) => e <= s.epoch
    case HostSave(v) => v <= Version(s)
    case HostClear(v) => v <= Version(s)
    case _ => true
  }

  ghost predicate Inv(s: System) {
    && s.hosts != []
    && (forall t :: t in s.calls && HoldsState(s.calls[t]) ==> s.stateMu == Some(t))
    && (forall t :: t in s.calls && HoldsCommand(s.calls[t]) ==> s.commandMu == Some(t))
    && (forall t :: t in s.calls ==> CallInv(s, s.calls[t]))
    && (s.cache.at.Some? ==> Fresh(s.cache.snap, s.log)) && s.cache.snap.epoch <= s.epoch
    && Fresh(Snapshot(s.epoch, Version(s), Version(s)), s.log)
  }

  /** Every snapshot handed out is no older than what was over before it. */
  ghost predicate NeverStale(log: seq<Event>) {
    forall i :: 0 <= i < |log| && log[i].Served? ==> Fresh(log[i].snap, log[..i])
  }

  lemma FreshAfter(x: Snapshot, log: seq<Event>, e: Event)
    requires Fresh(x, log)
    requires e.WriteDone? ==> e.epoch <= x.epoch
    requires e.HostDone? ==> e.version <= x.named && e.version <= x.target
    ensures Fresh(x, log + [e])
  {
    forall f | f in log + [e]
      ensures (f.WriteDone? ==> f.epoch <= x.epoch) && (f.HostDone? ==> f.version <= x.named && f.version <= x.target)
    {
      assert f in log || f == e;
    }
  }

  /** `s2` has executed at least what `s1` had and reports nothing more as finished. */
  ghost predicate Extends(s1: System, s2: System) {
    && s1.epoch <= s2.epoch && |s1.hosts| <= |s2.hosts|
    && forall e :: e in s2.log && (e.WriteDone? || e.HostDone?) ==> e in s1.log
  }

  lemma CallInvExtends(s1: System, s2: System, pc: Pc)
    requires CallInv(s1, pc) && s1.epoch <= s2.epoch && |s1.hosts| <= |s2.hosts|
    requires Extends(s1, s2) || !HoldsState(pc)
    ensures CallInv(s2, pc)
  {
  }

  /** How a step of call `t` moves the system: it reports a finished write or host only while no reader is inside. */
  ghost predicate OwnMove(s: System, t: nat, s': System) {
    && s'.hosts != [] && t in s'.calls && s'.calls == s.calls[t := s'.calls[t]] && s'.ttl == s.ttl
    && s.epoch <= s'.epoch && |s.hosts| <= |s'.hosts|
    && (Extends(s, s') || (s.stateMu.None? && !HoldsState(s'.calls[t])))
  }

  /** What the call itself knows after it, and what is in the cache. */
  ghost predicate OwnFresh(t: nat, s': System) {
    && s'.hosts != [] && t in s'.calls && CallInv(s', s'.calls[t])
    && (s'.cache.at.Some? ==> Fresh(s'.cache.snap, s'.log)) && s'.cache.snap.epoch <= s'.epoch
    && Fresh(Snapshot(s'.epoch, Version(s'), Version(s')), s'.log)
  }

  lemma ReadMove(s: System, t: nat, answer: Answer)
    requires s.hosts != [] && t in s.calls && Reading(s.calls[t]) && Advance(s, t, answer).Some?
    ensures OwnMove(s, t, Advance(s, t, answer).value)
  {
  }

  lemma WriteMove(s: System, t: nat, answer: Answer)
    requires s.hosts != [] && t in s.calls && !Reading(s.calls[t]) && Advance(s, t, answer).Some?
    ensures OwnMove(s, t, Advance(s, t, answer).value)
  {
  }

  lemma FreshLater(x: Snapshot, y: Snapshot, log: seq<Event>)
    requires Fresh(x, log) && x.epoch <= y.epoch && x.named <= y.named && x.target <= y.target
    ensures Fresh(y, log)
  {
  }

  function Newest(s: System): Snapshot
    requires s.hosts != []
  {
    Snapshot(s.epoch, Version(s), Version(s))
  }

  lemma NewestHost(s: System)
    requires Inv(s)
    ensures HostFresh(Version(s), s.log)
  {
  }

  lemma TestedFresh(s: System, t: nat, answer: Answer)
    requires Inv(s) && t in s.calls && s.calls[t].ReadTest? && Advance(s, t, answer).Some?
    ensures OwnFresh(t, Advance(s, t, answer).value)
  {
    NewestHost(s);
    if Hit(s.cache, s.calls[t].force, s.clock, s.ttl) {
      FreshAfter(Newest(s), s.log, Served(s.cache.snap));
      FreshAfter(s.cache.snap, s.log, Served(s.cache.snap));
    }
  }

  lemma AskingFresh(s: System, t: nat, answer: Answer)
    requires Inv(s) && t in s.calls && (s.calls[t].ReadLock? || s.calls[t].ReadAddress? || s.calls[t].ReadQueue?)
    requires Advance(s, t, answer).Some?
    ensures OwnFresh(t, Advance(s, t, answer).value)
  {
    NewestHost(s);
    assert CallInv(s, s.calls[t]);
  }

  lemma AnsweredFresh(s: System, t: nat, answer: Answer)
    requires Inv(s) && t in s.calls && (s.calls[t].ReadExchange? || s.calls[t].ReadStore?)
    requires Advance(s, t, answer).Some?
    ensures OwnFresh(t, Advance(s, t, answer).value)
  {
    assert CallInv(s, s.calls[t]);
    match s.calls[t]
    case ReadStore(x) =>
      FreshAfter(x, s.log, Served(x));
      FreshAfter(Newest(s), s.log, Served(x));
    case _ =>
  }

  lemma ExchangedFresh(s: System, t: nat, answer: Answer)
    requires Inv(s) && t in s.calls && s.calls[t].WriteExchange? && Advance(s, t, answer).Some?
    ensures OwnFresh(t, Advance(s, t, answer).value)
  {
    var epoch := if answer.NotDone? then s.epoch else s.epoch + 1;
    var e := if answer.Replied? then WriteKept(epoch) else WriteUnknown;
    FreshLater(Newest(s), Newest(s).(epoch := epoch), s.log);
    FreshAfter(Newest(s).(epoch := epoch), s.log, e);
    if s.cache.at.Some? { FreshAfter(s.cache.snap, s.log, e); }
  }

  lemma ClearedFresh(s: System, t: nat, answer: Answer)
    requires Inv(s) && t in s.calls && (s.calls[t].Invalidate? || s.calls[t].HostClear?)
    requires Advance(s, t, answer).Some?
    ensures OwnFresh(t, Advance(s, t, answer).value)
  {
    assert CallInv(s, s.calls[t]);
    match s.calls[t]
    case Invalidate(e) => FreshAfter(Newest(s), s.log, WriteDone(e));
    case HostClear(v) => FreshAfter(Newest(s), s.log, HostDone(v));
  }

  lemma SettingFresh(s: System, t: nat, answer: Answer)
    requires Inv(s) && t in s.calls && (s.calls[t].WriteQueue? || s.calls[t].HostSet? || s.calls[t].HostSave?)
    requires Advance(s, t, answer).Some?
    ensures OwnFresh(t, Advance(s, t, answer).value)
  {
    assert CallInv(s, s.calls[t]);
    match s.calls[t]
    case HostSet(_) => FreshLater(Newest(s), Snapshot(s.epoch, |s.hosts|, |s.hosts|), s.log);
    case HostSave(v) =>
      FreshAfter(Newest(s), s.log, HostFailed(v));
      if s.cache.at.Some? { FreshAfter(s.cache.snap, s.log, HostFailed(v)); }
    case _ =>
  }

  lemma CallStep(s: System, t: nat, answer: Answer)
    requires Inv(s) && t in s.calls && Advance(s, t, answer).Some?
    ensures OwnMove(s, t, Advance(s, t, answer).value) && OwnFresh(t, Advance(s, t, answer).value)
  {
    if Reading(s.calls[t]) {
      ReadMove(s, t, answer);
      match s.calls[t]
      case ReadTest(_) => TestedFresh(s, t, answer);
      case ReadExchange(_, _) => AnsweredFresh(s, t, answer);
      case ReadStore(_) => AnsweredFresh(s, t, answer);
      case _ => AskingFresh(s, t, answer);
    } else {
      WriteMove(s, t, answer);
      match s.calls[t]
      case WriteExchange(_, _) => ExchangedFresh(s, t, answer);
      case Invalidate(_) => ClearedFresh(s, t, answer);
      case HostClear(_) => ClearedFresh(s, t, answer);
      case _ => SettingFresh(s, t, answer);
    }
  }

  /** How a step moves the two locks. */
  lemma LockStep(s: System, t: nat, answer: Answer)
    requires t in s.calls && s.hosts != [] && Advance(s, t, answer).Some?
    requires HoldsState(s.calls[t]) ==> s.stateMu == Some(t)
    requires HoldsCommand(s.calls[t]) ==> s.commandMu == Some(t)
    ensures var s' := Advance(s, t, answer).value;
            && t in s'.calls
            && (HoldsState(s'.calls[t]) ==> s'.stateMu == Some(t))
            && (HoldsCommand(s'.calls[t]) ==> s'.commandMu == Some(t))
            && (s'.stateMu == s.stateMu || s.stateMu.None? || s.stateMu == Some(t))
            && (s'.commandMu == s.commandMu || s.commandMu.None? || s.commandMu == Some(t))
  {
  }

  lemma StepKeepsInv(s: System, t: nat, answer: Answer)
    requires Inv(s) && t in s.calls && Advance(s, t, answer).Some?
    ensures Inv(Advance(s, t, answer).value)
  {
    var s' := Advance(s, t, answer).value;
    CallStep(s, t, answer);
    LockStep(s, t, answer);
    forall u | u in s'.calls
      ensures CallInv(s', s'.calls[u])
      ensures HoldsState(s'.calls[u]) ==> s'.stateMu == Some(u)
      ensures HoldsCommand(s'.calls[u]) ==> s'.commandMu == Some(u)
    {
      if u != t { CallInvExtends(s, s', s.calls[u]); }
    }
  }

  lemma ApplyKeeps(s: System, step: Step)
    requires Inv(s) && NeverStale(s.log) && Apply(s, step).Some?
    ensures var s' := Apply(s, step).value; Inv(s') && NeverStale(s'.log)
  {
    var s' := Apply(s, step).value;
    match step
    case Goes(t, a) =>
      StepKeepsInv(s, t, a);
      LogStep(s, t, a);
    case Begins(t, c) =>
      forall u | u in s'.calls ensures CallInv(s', s'.calls[u]) {
        if u != t { CallInvExtends(s, s', s.calls[u]); }
      }
    case Tick =>
      forall u | u in s'.calls ensures CallInv(s', s'.calls[u]) { CallInvExtends(s, s', s.calls[u]); }
  }

  lemma LogStep(s: System, t: nat, answer: Answer)
    requires Inv(s) && NeverStale(s.log) && t in s.calls && Advance(s, t, answer).Some?
    ensures NeverStale(Advance(s, t, answer).value.log)
  {
    var log := Advance(s, t, answer).value.log;
    if log != s.log {
      var n := |s.log|;
      assert log == s.log + [log[n]] && (log[n].Served? ==> Fresh(log[n].snap, s.log));
      forall i | 0 <= i < |log| && log[i].Served? ensures Fresh(log[i].snap, log[..i]) {
        assert log[..i] == s.log[..i];
        if i == n { assert s.log[..n] == s.log; }
      }
    }
  }

  /** The two results every reachable state has, with the accounting of host settings below. */
  ghost predicate Good(s: System) { Inv(s) && NeverStale(s.log) && AllAccounted(s) }

  lemma ReachableGood(s: System)
    requires Reachable(s)
    ensures Good(s)
  {
    forall s, step | Good(s) && Apply(s, step).Some? ensures Good(Apply(s, step).value) {
      ApplyKeeps(s, step);
      AccountedApply(s, step);
    }
    var host :| From(s, host);
    Invariant(Apply, Good, Boot(s.ttl, host), s);
  }

  // ---------------------------------------------------------------- results over every interleaving

  /** After a handler has written and invalidated, no snapshot from before that write is handed out. */
  lemma NoSnapshotOlderThanCompletedWrite(s: System, i: nat, j: nat)
    requires Reachable(s) && i < j < |s.log| && s.log[i].WriteDone? && s.log[j].Served?
    ensures s.log[i].epoch <= s.log[j].snap.epoch
  {
    ReachableGood(s);
    assert s.log[..j][i] == s.log[i];
  }

  /** After setHost has returned nil, no snapshot named after an earlier host or fetched from one is. */
  lemma NoSnapshotOfReplacedHost(s: System, i: nat, j: nat)
    requires Reachable(s) && i < j < |s.log| && s.log[i].HostDone? && s.log[j].Served?
    ensures s.log[i].version <= s.log[j].snap.named && s.log[i].version <= s.log[j].snap.target
  {
    ReachableGood(s);
    assert s.log[..j][i] == s.log[i];
  }

  /** The scanner's protocol has no transaction ids; at most one exchange of App.command is ever in flight. */
  lemma OneExchangeAtATime(s: System, t: nat, u: nat)
    requires Reachable(s) && t in s.calls && u in s.calls
    requires HoldsCommand(s.calls[t]) && HoldsCommand(s.calls[u])
    ensures t == u
  {
    ReachableGood(s);
  }

  // ---------------------------------------------------------------- a forced read

  /** Of a step of the run, the snapshot that call `t` hands out. */
  function ServedTo(s: System, steps: seq<Step>, t: nat): Option<Snapshot>
    decreases |steps|
  {
    if steps == [] || Apply(s, steps[0]).None? then None
    else
      var s' := Apply(s, steps[0]).value;
      if steps[0].Goes? && steps[0].t == t && |s'.log| > |s.log| && s'.log[|s'.log|-1].Served?
      then Some(s'.log[|s'.log|-1].snap)
      else ServedTo(s', steps[1..], t)
  }

  predicate NotBefore(x: Snapshot, floor: Snapshot) {
    x.epoch >= floor.epoch && x.named >= floor.named && x.target >= floor.target
  }

  /** A forced read at `pc` has learned nothing from before `floor`, and will not read the cache. */
  predicate AsksSince(pc: Pc, floor: Snapshot) {
    match pc
    case ReadTest(force) => force
    case ReadAddress(l) => l >= floor.named
    case ReadQueue(l, g) => l >= floor.named && g >= floor.target
    case ReadExchange(l, g) => l >= floor.named && g >= floor.target
    case ReadStore(x) => NotBefore(x, floor)
    case Done => true
    case _ => false
  }

  lemma ForcedStep(s: System, t: nat, floor: Snapshot, answer: Answer)
    requires s.hosts != [] && t in s.calls && AsksSince(s.calls[t], floor) && NotBefore(Newest(s), floor)
    requires Advance(s, t, answer).Some?
    ensures var s' := Advance(s, t, answer).value;
            && t in s'.calls && AsksSince(s'.calls[t], floor)
            && (s'.log == s.log || (|s'.log| == |s.log| + 1 && s'.log[|s.log|].Served?
                                    && NotBefore(s'.log[|s.log|].snap, floor)))
  {
  }

  lemma OtherStep(s: System, step: Step, t: nat)
    requires s.hosts != [] && t in s.calls && !(step.Goes? && step.t == t) && Apply(s, step).Some?
    ensures t in Apply(s, step).value.calls && Apply(s, step).value.calls[t] == s.calls[t]
  {
  }

  lemma NewestGrows(s: System, step: Step)
    requires s.hosts != [] && Apply(s, step).Some?
    ensures Apply(s, step).value.hosts != [] && NotBefore(Newest(Apply(s, step).value), Newest(s))
  {
    if step.Goes? {
      if Reading(s.calls[step.t]) { ReadMove(s, step.t, step.answer); } else { WriteMove(s, step.t, step.answer); }
    }
  }

  lemma {:induction false} ForcedRun(s: System, steps: seq<Step>, t: nat, floor: Snapshot)
    requires s.hosts != [] && t in s.calls && AsksSince(s.calls[t], floor) && NotBefore(Newest(s), floor)
    requires Run(Apply, s, steps).Some?
    ensures ServedTo(s, steps, t).Some? ==> NotBefore(ServedTo(s, steps, t).value, floor)
    decreases |steps|
  {
    if steps != [] {
      var s' := Apply(s, steps[0]).value;
      NewestGrows(s, steps[0]);
      if steps[0].Goes? && steps[0].t == t {
        ForcedStep(s, t, floor, steps[0].answer);
      } else {
        OtherStep(s, steps[0], t);
      }
      ForcedRun(s', steps[1..], t, floor);
    }
  }

  /** In every interleaving: what a forced read hands out was asked of the scanner after the read took stateMu, so it
      shows every write executed and every host set by then, whatever is in the cache. */
  lemma ForcedReadAsksAnew(s: System, t: nat, steps: seq<Step>)
    requires Reachable(s) && t in s.calls && s.calls[t] == ReadTest(true) && Run(Apply, s, steps).Some?
    ensures var served := ServedTo(s, steps, t);
            served.Some? ==> s.epoch <= served.value.epoch
                             && Version(s) <= served.value.named && Version(s) <= served.value.target
  {
    ReachableGood(s);
    ForcedRun(s, steps, t, Newest(s));
  }

  // ---------------------------------------------------------------- no scanner selected

  predicate IsSet(hosts: seq<string>, v: nat) { v < |hosts| && hosts[v] != "" }

  predicate FromSet(hosts: seq<string>, x: Snapshot) { IsSet(hosts, x.named) && IsSet(hosts, x.target) }

  predicate AsksSet(hosts: seq<string>, pc: Pc) {
    match pc
    case ReadAddress(l) => IsSet(hosts, l)
    case ReadQueue(l, g) => IsSet(hosts, l) && IsSet(hosts, g)
    case ReadExchange(l, g) => IsSet(hosts, l) && IsSet(hosts, g)
    case ReadStore(x) => FromSet(hosts, x)
    case _ => true
  }

  ghost predicate HostsSet(s: System) {
    && s.hosts != [] && (forall t :: t in s.calls ==> AsksSet(s.hosts, s.calls[t]))
    && (s.cache.at.Some? ==> FromSet(s.hosts, s.cache.snap))
    && forall i :: 0 <= i < |s.log| && s.log[i].Served? ==> FromSet(s.hosts, s.log[i].snap)
  }

  /** What a step of call `t` adds is from a host that is set. */
  ghost predicate AddsSet(s: System, t: nat, s': System) {
    && s.hosts <= s'.hosts && t in s'.calls && s'.calls == s.calls[t := s'.calls[t]]
    && AsksSet(s'.hosts, s'.calls[t]) && (s'.cache.at.Some? ==> FromSet(s'.hosts, s'.cache.snap))
    && (s'.log == s.log || (|s'.log| == |s.log| + 1 && s.log <= s'.log
                            && (s'.log[|s.log|].Served? ==> FromSet(s'.hosts, s'.log[|s.log|].snap))))
  }

  lemma ReadAddsSet(s: System, t: nat, answer: Answer)
    requires HostsSet(s) && t in s.calls && Reading(s.calls[t]) && Advance(s, t, answer).Some?
    ensures AddsSet(s, t, Advance(s, t, answer).value)
  {
    assert AsksSet(s.hosts, s.calls[t]);
  }

  lemma WriteAddsSet(s: System, t: nat, answer: Answer)
    requires HostsSet(s) && t in s.calls && !Reading(s.calls[t]) && Advance(s, t, answer).Some?
    ensures AddsSet(s, t, Advance(s, t, answer).value)
  {
    WriteMove(s, t, answer);
    WriteServesNothing(s, t, answer);
  }

  lemma WriteServesNothing(s: System, t: nat, answer: Answer)
    requires s.hosts != [] && t in s.calls && !Reading(s.calls[t]) && Advance(s, t, answer).Some?
    ensures var s' := Advance(s, t, answer).value;
            && s.hosts <= s'.hosts && t in s'.calls && !Reading(s'.calls[t])
            && (s'.cache.at.Some? ==> s'.cache == s.cache)
            && (s'.log == s.log || (|s'.log| == |s.log| + 1 && s.log <= s'.log && !s'.log[|s.log|].Served?))
  {
  }

  lemma HostsSetKept(s: System, step: Step)
    requires HostsSet(s) && Apply(s, step).Some?
    ensures HostsSet(Apply(s, step).value)
  {
    if step.Goes? {
      if Reading(s.calls[step.t]) { ReadAddsSet(s, step.t, step.answer); }
      else { WriteAddsSet(s, step.t, step.answer); }
    }
  }

  /** Without a scanner selected none is asked: every snapshot handed out was named after, and fetched from, a host
      setting that is not empty. */
  lemma NoSnapshotWithoutHost(s: System, i: nat)
    requires Reachable(s) && i < |s.log| && s.log[i].Served?
    ensures IsSet(s.hosts, s.log[i].snap.named) && IsSet(s.hosts, s.log[i].snap.target)
  {
    forall s, step | HostsSet(s) && Apply(s, step).Some? ensures HostsSet(Apply(s, step).value) {
      HostsSetKept(s, step);
    }
    var host :| From(s, host);
    Invariant(Apply, HostsSet, Boot(s.ttl, host), s);
  }

  // ---------------------------------------------------------------- nothing pending, nothing failed

  /** A host setting is finished, given up, or still on its way through setHost. */
  ghost predicate Accounted(s: System, v: nat) {
    || HostDone(v) in s.log
    || HostFailed(v) in s.log
    || exists t :: t in s.calls && (s.calls[t] == HostSave(v) || s.calls[t] == HostClear(v))
  }

  ghost predicate AllAccounted(s: System) {
    && s.hosts != []
    && (forall v: nat :: 0 < v < |s.hosts| ==> Accounted(s, v))
    && s.cache.snap.named <= s.cache.snap.target < |s.hosts|
  }

  /** setHost's places and the log, as far as setting `v` is concerned. */
  lemma HostStep(s: System, t: nat, answer: Answer, v: nat)
    requires t in s.calls && s.hosts != [] && Advance(s, t, answer).Some?
    ensures var s' := Advance(s, t, answer).value;
            && t in s'.calls && s'.calls == s.calls[t := s'.calls[t]] && s.log <= s'.log
            && (s.calls[t] == HostSave(v) ==> s'.calls[t] == HostClear(v) || s'.log == s.log + [HostFailed(v)])
            && (s.calls[t] == HostClear(v) ==> s'.log == s.log + [HostDone(v)])
            && (s'.hosts == s.hosts || (|s'.hosts| == |s.hosts| + 1 && s'.calls[t] == HostSave(|s.hosts|)))
  {
  }

  lemma AccountedStep(s: System, t: nat, answer: Answer, v: nat)
    requires t in s.calls && s.hosts != [] && Advance(s, t, answer).Some?
    requires 0 < v < |s.hosts| ==> Accounted(s, v)
    requires 0 < v < |Advance(s, t, answer).value.hosts|
    ensures Accounted(Advance(s, t, answer).value, v)
  {
    var s' := Advance(s, t, answer).value;
    HostStep(s, t, answer, v);
    assert forall e :: e in s.log ==> e in s'.log;
    if v < |s.hosts| && HostDone(v) !in s.log && HostFailed(v) !in s.log {
      var u :| u in s.calls && (s.calls[u] == HostSave(v) || s.calls[u] == HostClear(v));
      if u != t { assert s'.calls[u] == s.calls[u]; }
      else if HostDone(v) !in s'.log && HostFailed(v) !in s'.log { assert s'.calls[t] == HostClear(v); }
    } else if v == |s.hosts| {
      assert s'.calls[t] == HostSave(v);
    }
  }

  lemma AccountedApply(s: System, step: Step)
    requires Inv(s) && AllAccounted(s) && Apply(s, step).Some?
    ensures AllAccounted(Apply(s, step).value)
  {
    var s' := Apply(s, step).value;
    forall v: nat | 0 < v < |s'.hosts| ensures Accounted(s', v) {
      match step
      case Goes(t, a) => AccountedStep(s, t, a, v);
      case Begins(t, _) =>
        assert forall u :: u in s.calls ==> u in s'.calls && s'.calls[u] == s.calls[u];
        assert Accounted(s, v);
      case Tick => assert Accounted(s, v);
    }
    if step.Goes? { assert CallInv(s, s.calls[step.t]); }
  }

  /** With no setHost under way and none failed, a valid cache entry belongs to the current host, in name
      and in substance. (While one is under way the two can differ: the reply is named before it is asked.) */
  lemma SettledCacheIsCurrent(s: System)
    requires Reachable(s) && s.cache.at.Some?
    requires forall t :: t in s.calls ==> !s.calls[t].HostSave? && !s.calls[t].HostClear?
    requires forall e :: e in s.log ==> !e.HostFailed?
    ensures s.cache.snap.named == s.cache.snap.target == Version(s)
  {
    ReachableGood(s);
    if Version(s) > 0 { assert Accounted(s, Version(s)); }
  }

  // ---------------------------------------------------------------- the App object, one call at a time

  /** The part of App the cache uses. `version` numbers the host settings. */
  class App {
    var host: string
    var version: nat
    var stateCache: Snapshot
    var stateAt: Option<nat>

    constructor (host: string)
      ensures this.host == host && version == 0 && stateCache == NO_SNAPSHOT && stateAt == None
    {
      this.host, version, stateCache, stateAt := host, 0, NO_SNAPSHOT, None;
    }

    /** `gsi`: how many writes the scanner had executed when it answered, or None for no answer; `later`: the clock
        when the answer is stored. */
    method ReadState(force: bool, clock: nat, ttl: nat, gsi: Option<nat>, later: nat) returns (r: Option<Snapshot>)
      modifies this`stateCache, this`stateAt
      // a forced read asks the scanner, whatever the cache holds
      ensures force && host != "" && gsi.Some? ==> r == Some(Snapshot(gsi.value, version, version))
      ensures force && (host == "" || gsi.None?) ==> r == None
      ensures !force && old(stateAt).Some? && clock - old(stateAt).value < ttl ==> r == Some(old(stateCache))
      ensures Hit(Cache(old(stateCache), old(stateAt)), force, clock, ttl) ==>
                r == Some(old(stateCache)) && stateCache == old(stateCache) && stateAt == old(stateAt)
      ensures !Hit(Cache(old(stateCache), old(stateAt)), force, clock, ttl) && host != "" && gsi.Some? ==>
                r == Some(Snapshot(gsi.value, version, version)) && stateCache == r.value && stateAt == Some(later)
      ensures !Hit(Cache(old(stateCache), old(stateAt)), force, clock, ttl) && (host == "" || gsi.None?) ==>
                r == None && stateCache == old(stateCache) && stateAt == old(stateAt)
    {
      if !force && stateAt.Some? && clock - stateAt.value < ttl {
        return Some(stateCache);
      }
      if host == "" || gsi.None? {
        return None;
      }
      stateCache := Snapshot(gsi.value, version, version);
      stateAt := Some(later);
      return Some(stateCache);
    }

    method InvalidateState()
      modifies this`stateAt
      ensures stateAt == None
    {
      stateAt := None;
    }

    method SetHost(newHost: string, saved: bool) returns (ok: bool)
      modifies this
      ensures ok == saved && host == newHost && version == old(version) + 1
      ensures saved ==> stateCache == NO_SNAPSHOT && stateAt == None
      ensures !saved ==> stateCache == old(stateCache) && stateAt == old(stateAt)
    {
      host := newHost;
      version := version + 1;
      if !saved {
        return false;
      }
      stateCache := NO_SNAPSHOT;
      stateAt := None;
      return true;
    }

    /** A control handler: it writes until a write is not acknowledged, and only behind the last acknowledgement it
        invalidates, if it does at all. */
    method Control(acknowledged: seq<bool>, invalidates: bool) returns (ok: bool)
      modifies this`stateAt
      ensures ok == forall k :: 0 <= k < |acknowledged| ==> acknowledged[k]
      ensures stateAt == if ok && invalidates then None else old(stateAt)
    {
      for i := 0 to |acknowledged|
        invariant forall k :: 0 <= k < i ==> acknowledged[k]
        invariant stateAt == old(stateAt)
      {
        if !acknowledged[i] {
          return false;
        }
      }
      if invalidates {
        InvalidateState();
      }
      return true;
    }
  }

  // ---------------------------------------------------------------- where the guarantee ends

  lemma Go(s: System, step: Step) returns (s': System)
    requires Reachable(s) && Apply(s, step).Some?
    ensures Reachable(s') && s' == Apply(s, step).value
  {
    var host :| From(s, host);
    s' := ReachesNext(Apply, Boot(s.ttl, host), s, step);
    assert From(s', host);
  }

  /** An undisturbed unforced readState with a valid cache entry hands that entry out. */
  lemma ReadHit(s: System, t: nat) returns (s': System)
    requires Reachable(s) && s.stateMu.None? && t !in s.calls && Hit(s.cache, false, s.clock, s.ttl)
    ensures Reachable(s') && s' == s.(calls := s.calls[t := Done], log := s.log + [Served(s.cache.snap)])
  {
    assert s.hosts != [] by { ReachableGood(s); }
    s' := ReadLocked(s, t, false);
    s' := Go(s', Goes(t, Replied));
  }

  /** An undisturbed readState without a hit stores and hands out exactly what the scanner answered, and without
      an answer leaves the cache alone. */
  lemma ReadMiss(s: System, t: nat, force: bool, answer: Answer) returns (s': System)
    requires Reachable(s) && s.stateMu.None? && s.commandMu.None? && t !in s.calls
    requires s.hosts != [] && s.hosts[|s.hosts|-1] != "" && !Hit(s.cache, force, s.clock, s.ttl)
    ensures Reachable(s') && s'.calls == s.calls[t := Done] && s'.stateMu.None? && s'.commandMu.None?
    ensures var snap := Snapshot(s.epoch, Version(s), Version(s));
            && s'.cache == (if answer.Replied? then Cache(snap, Some(s.clock)) else s.cache)
            && s'.log == s.log + (if answer.Replied? then [Served(snap)] else [])
  {
    s' := ReadQueued(s, t, force);
    s' := ExchangeUndisturbed(s', t, answer);
    assert s'.calls == s.calls[t := Done];
  }

  lemma ReadQueued(s: System, t: nat, force: bool) returns (s': System)
    requires Reachable(s) && s.stateMu.None? && t !in s.calls
    requires s.hosts != [] && s.hosts[|s.hosts|-1] != "" && !Hit(s.cache, force, s.clock, s.ttl)
    ensures Reachable(s')
    ensures s' == s.(stateMu := Some(t), calls := s.calls[t := ReadQueue(Version(s), Version(s))])
  {
    s' := ReadLocked(s, t, force);
    s' := Go(s', Goes(t, Replied));
    s' := Go(s', Goes(t, Replied));
  }

  lemma ReadLocked(s: System, t: nat, force: bool) returns (s': System)
    requires Reachable(s) && s.stateMu.None? && t !in s.calls && s.hosts != []
    ensures Reachable(s') && s' == s.(stateMu := Some(t), calls := s.calls[t := ReadTest(force)])
  {
    s' := Go(s, Begins(t, ReadState(force)));
    s' := Go(s', Goes(t, Replied));
  }

  lemma ExchangeUndisturbed(s: System, t: nat, answer: Answer) returns (s': System)
    requires Reachable(s) && s.hosts != [] && s.commandMu.None? && t in s.calls && s.calls[t].ReadQueue?
    ensures Reachable(s') && s'.calls == s.calls[t := Done] && s'.stateMu.None? && s'.commandMu.None?
    ensures var snap := Snapshot(s.epoch, s.calls[t].named, s.calls[t].target);
            && s'.cache == (if answer.Replied? then Cache(snap, Some(s.clock)) else s.cache)
            && s'.log == s.log + (if answer.Replied? then [Served(snap)] else [])
  {
    s' := Go(s, Goes(t, Replied));
    s' := Go(s', Goes(t, answer));
    if answer.Replied? { s' := Go(s', Goes(t, Replied)); }
    assert s'.calls == s.calls[t := Done];
  }

  /** After an undisturbed setHost the old entry is still served exactly when the save failed. */
  lemma OldHostServedIffSaveFailed(s: System, t: nat, host: string, saved: bool) returns (s': System)
    requires Reachable(s) && s.stateMu.None? && t !in s.calls && Hit(s.cache, false, s.clock, s.ttl)
    ensures Reachable(s') && s'.calls == s.calls[t := Done]
    ensures s'.log == s.log + [if saved then HostDone(|s.hosts|) else HostFailed(|s.hosts|)]
    ensures Hit(s'.cache, false, s'.clock, s'.ttl) <==> !saved
    ensures !saved ==> s'.cache == s.cache && s'.cache.snap.named < Version(s')
  {
    assert s.hosts != [] && s.cache.snap.named < |s.hosts| by { ReachableGood(s); }
    s' := SetUndisturbed(s, t, host);
    s' := SaveUndisturbed(s', t, saved);
    assert s'.calls == s.calls[t := Done];
  }

  lemma SetUndisturbed(s: System, t: nat, host: string) returns (s': System)
    requires Reachable(s) && s.hosts != [] && t !in s.calls
    ensures Reachable(s') && s' == s.(hosts := s.hosts + [host], calls := s.calls[t := HostSave(|s.hosts|)])
  {
    s' := Go(s, Begins(t, SetHost(host)));
    s' := Go(s', Goes(t, Replied));
  }

  lemma SaveUndisturbed(s: System, t: nat, saved: bool) returns (s': System)
    requires Reachable(s) && s.hosts != [] && t in s.calls && s.calls[t].HostSave? && s.stateMu.None?
    ensures Reachable(s')
    ensures s' == s.(calls := s.calls[t := Done],
                     cache := if saved then Cache(NO_SNAPSHOT, None) else s.cache,
                     log := s.log + [if saved then HostDone(s.calls[t].version) else HostFailed(s.calls[t].version)])
  {
    if !saved {
      s' := Go(s, Goes(t, NotDone));
    } else {
      s' := Go(s, Goes(t, Replied));
      s' := Go(s', Goes(t, Replied));
      assert s'.calls == s.calls[t := Done];
    }
  }

  // ---------------------------------------------------------------- an entry from before a write

  /** Only call `t` moves, and time passes. */
  predicate Alone(steps: seq<Step>, t: nat) {
    forall i :: 0 <= i < |steps| ==> steps[i].Tick? || (steps[i].Goes? && steps[i].t == t)
  }

  /** On the way a write of call `t` gets no acknowledgement. */
  predicate FailsIn(s: System, steps: seq<Step>, t: nat)
    decreases |steps|
  {
    && steps != [] && Apply(s, steps[0]).Some?
    && ((steps[0].Goes? && t in s.calls && s.calls[t].WriteExchange? && !steps[0].answer.Replied?)
        || FailsIn(Apply(s, steps[0]).value, steps[1..], t))
  }

  predicate Writing(pc: Pc) { pc.WriteQueue? || pc.WriteExchange? }

  /** What a handler leaves when it returns, started in `s` by a call that has or has not an invalidation. */
  ghost predicate Returned(s: System, invalidates: bool, failed: bool, s': System) {
    && s'.ttl == s.ttl && s.clock <= s'.clock && s.epoch <= s'.epoch && (!failed ==> s.epoch < s'.epoch)
    && s'.cache == (if invalidates && !failed then s.cache.(at := None) else s.cache)
    && s'.log == s.log + [if failed then WriteUnknown
                          else if invalidates then WriteDone(s'.epoch) else WriteKept(s'.epoch)]
  }

  lemma {:induction false} TimePasses(s: System, steps: seq<Step>, t: nat)
    requires t in s.calls && s.calls[t] == Done && Alone(steps, t) && Run(Apply, s, steps).Some?
    ensures s.clock <= Run(Apply, s, steps).value.clock
    ensures Run(Apply, s, steps).value == s.(clock := Run(Apply, s, steps).value.clock)
    ensures !FailsIn(s, steps, t)
    decreases |steps|
  {
    if steps != [] { TimePasses(Apply(s, steps[0]).value, steps[1..], t); }
  }

  lemma {:induction false} InvalidateReturns(s: System, t: nat, steps: seq<Step>)
    requires s.hosts != [] && t in s.calls && s.calls[t].Invalidate? && s.calls[t].epoch == s.epoch
    requires Alone(steps, t) && Run(Apply, s, steps).Some?
    requires t in Run(Apply, s, steps).value.calls && Run(Apply, s, steps).value.calls[t] == Done
    ensures var s' := Run(Apply, s, steps).value;
            && s'.ttl == s.ttl && s.clock <= s'.clock && s'.epoch == s.epoch && s'.cache == s.cache.(at := None)
            && s'.log == s.log + [WriteDone(s'.epoch)]
    ensures !FailsIn(s, steps, t)
    decreases |steps|
  {
    var s1 := Apply(s, steps[0]).value;
    if steps[0].Tick? { InvalidateReturns(s1, t, steps[1..]); } else { TimePasses(s1, steps[1..], t); }
  }

  lemma {:induction false} HandlerReturns(s: System, t: nat, steps: seq<Step>)
    requires s.hosts != [] && t in s.calls && Writing(s.calls[t])
    requires Alone(steps, t) && Run(Apply, s, steps).Some?
    requires t in Run(Apply, s, steps).value.calls && Run(Apply, s, steps).value.calls[t] == Done
    ensures Returned(s, s.calls[t].invalidates, FailsIn(s, steps, t), Run(Apply, s, steps).value)
    decreases |steps|
  {
    var s1 := Apply(s, steps[0]).value;
    if steps[0].Tick? || Writing(s1.calls[t]) {
      HandlerReturns(s1, t, steps[1..]);
    } else if s1.calls[t] == Done {
      TimePasses(s1, steps[1..], t);
    } else {
      InvalidateReturns(s1, t, steps[1..]);
    }
  }

  /** A control handler that nothing but time disturbs: an entry from before it is still served when it returns if and
      only if the entry is still young enough then, and the handler has no invalidation or one of its writes got no
      acknowledgement. */
  lemma OldStateServedIff(s: System, t: nat, more: nat, invalidates: bool, steps: seq<Step>)
    requires Reachable(s) && t !in s.calls && Alone(steps, t)
    requires var s1 := Goto(s, t, WriteQueue(more, invalidates)); Run(Apply, s1, steps).Some?
    requires var s' := Run(Apply, Goto(s, t, WriteQueue(more, invalidates)), steps).value;
             t in s'.calls && s'.calls[t] == Done
    ensures var s1 := Goto(s, t, WriteQueue(more, invalidates)); var s' := Run(Apply, s1, steps).value;
            && (Hit(s'.cache, false, s'.clock, s'.ttl)
                <==> Hit(s.cache, false, s'.clock, s.ttl) && (!invalidates || FailsIn(s1, steps, t)))
            && (Hit(s'.cache, false, s'.clock, s'.ttl) ==> s'.cache == s.cache)
            && (s.epoch < s'.epoch ==> s.cache.snap.epoch < s'.epoch)
  {
    ReachableGood(s);
    HandlerReturns(Goto(s, t, WriteQueue(more, invalidates)), t, steps);
  }

  // ---------------------------------------------------------------- handlers after which it is served

  lemma {:induction false} Wait(s: System, n: nat) returns (s': System)
    requires Reachable(s)
    ensures Reachable(s') && s' == s.(clock := s.clock + n)
  {
    s' := s;
    if n > 0 {
      s' := Wait(s, n - 1);
      s' := Go(s', Tick);
    }
  }

  lemma WriteSent(s: System, t: nat, more: nat, invalidates: bool) returns (s': System)
    requires Reachable(s) && s.commandMu.None? && t !in s.calls
    ensures Reachable(s') && s.hosts != []
    ensures s' == s.(commandMu := Some(t), calls := s.calls[t := WriteExchange(more, invalidates)])
  {
    ReachableGood(s);
    s' := Go(s, Begins(t, Write(more, invalidates)));
    s' := Go(s', Goes(t, Replied));
  }

  /** FQK, SVC, DTM, AST and APR: the write is acknowledged, nothing is invalidated, and the entry from before it is
      served. */
  lemma KeptWriteServesOld(s: System, t: nat) returns (s': System)
    requires Reachable(s) && s.commandMu.None? && t !in s.calls && Hit(s.cache, false, s.clock, s.ttl)
    ensures Reachable(s') && s'.calls == s.calls[t := Done] && s'.log == s.log + [WriteKept(s.epoch + 1)]
    ensures Hit(s'.cache, false, s'.clock, s'.ttl) && s'.cache == s.cache && s'.cache.snap.epoch < s'.epoch
  {
    ReachableGood(s);
    s' := WriteSent(s, t, 0, false);
    s' := Go(s', Goes(t, Replied));
    assert s'.calls == s.calls[t := Done];
  }

  lemma FirstKeySent(s: System, t: nat) returns (s': System)
    requires Reachable(s) && s.commandMu.None? && t !in s.calls
    ensures Reachable(s') && s.hosts != []
    ensures s' == s.(epoch := s.epoch + 1, calls := s.calls[t := WriteQueue(0, true)])
  {
    s' := WriteSent(s, t, 1, true);
    s' := Go(s', Goes(t, Replied));
  }

  lemma SecondKeyLost(s: System, t: nat) returns (s': System)
    requires Reachable(s) && s.hosts != [] && s.commandMu.None? && t in s.calls && s.calls[t] == WriteQueue(0, true)
    ensures Reachable(s') && s' == s.(calls := s.calls[t := Done], log := s.log + [WriteUnknown])
  {
    s' := Go(s, Goes(t, Replied));
    s' := Go(s', Goes(t, NotDone));
  }

  /** Two keys: the first is acknowledged and the second never arrives. */
  lemma SecondKeyLostServesOld(s: System, t: nat) returns (s': System)
    requires Reachable(s) && s.commandMu.None? && t !in s.calls && Hit(s.cache, false, s.clock, s.ttl)
    ensures Reachable(s') && s'.calls == s.calls[t := Done] && s'.log == s.log + [WriteUnknown]
    ensures Hit(s'.cache, false, s'.clock, s'.ttl) && s'.cache == s.cache && s'.cache.snap.epoch < s'.epoch
  {
    ReachableGood(s);
    s' := FirstKeySent(s, t);
    s' := SecondKeyLost(s', t);
    assert s'.calls == s.calls[t := Done];
  }

  /** One write, executed, whose acknowledgement is lost: that is noticed when the time for the reply is over, and the
      entry from before the write is served then if and only if it outlasts that time. */
  lemma LostAckServesOldIffItLasts(s: System, t: nat, timeout: nat) returns (s': System)
    requires Reachable(s) && s.commandMu.None? && t !in s.calls && Hit(s.cache, false, s.clock, s.ttl)
    ensures Reachable(s') && s'.calls == s.calls[t := Done] && s'.log == s.log + [WriteUnknown]
    ensures s'.cache == s.cache && s'.cache.snap.epoch < s'.epoch
    ensures Hit(s'.cache, false, s'.clock, s'.ttl) <==> s.clock + timeout - s.cache.at.value < s.ttl
  {
    ReachableGood(s);
    s' := WriteSent(s, t, 0, true);
    s' := Wait(s', timeout);
    s' := Go(s', Goes(t, ReplyLost));
    assert s'.calls == s.calls[t := Done];
  }
}
