/** The operator lease of the Go web app (main.go requireControl, handlers.go apiLeaseAcquire and apiLeaseRelease). */
module OperatorLease {
  import opened Options
  import opened Runs

  // Every request samples the clock first and takes `leaseMu` later, so requests reach the lease in another order than
  // their samples. The control-token check is left out: it decides before the lease.

  // ---------------------------------------------------------------- one decision under leaseMu

  /** `owner` "" is no owner. Times are seconds; zero time is 0. */
  datatype Lease = Lease(owner: string, expires: int)

  /** requireControl: takes over only strictly after the expiry, then renews for whoever is the owner. */
  function ControlDecision(l: Lease, id: string, now: int, ttl: int): (Lease, bool) {
    var l1 := if l.owner == "" || now > l.expires then Lease(id, now + ttl) else l;
    if l1.owner != id then (l1, false) else (l1.(expires := now + ttl), true)
  }

  /** apiLeaseAcquire: refuses another client only strictly before the expiry. */
  function AcquireDecision(l: Lease, id: string, now: int, ttl: int): (Lease, bool) {
    if l.owner != "" && l.owner != id && now < l.expires then (l, false) else (Lease(id, now + ttl), true)
  }

  function ReleaseDecision(l: Lease, id: string): (Lease, bool) {
    if l.owner == id then (Lease("", 0), true) else (l, false)
  }

  /** The two grant paths disagree at one instant only: the expiry itself. */
  lemma PathsDifferOnlyAtExpiry(l: Lease, id: string, now: int, ttl: int)
    requires id != ""
    ensures ControlDecision(l, id, now, ttl) != AcquireDecision(l, id, now, ttl)
            <==> l.owner != "" && l.owner != id && now == l.expires
    ensures ControlDecision(l, id, now, ttl).1 ==> AcquireDecision(l, id, now, ttl).1
  {
  }

  // ---------------------------------------------------------------- requests as interleaved steps

  datatype Path = ByControl | ByAcquire

  datatype Pc = Waiting(path: Path, id: string, now: int) | Finished

  datatype Event = Granted(id: string, now: int) | Denied(id: string, now: int) | Released(id: string)

  /** `ttl`: the configured lease time. `requests`: those that have sampled the clock. `log`: decisions in the
      order of the lock. */
  datatype System = System(ttl: int, lease: Lease, clock: int, requests: map<nat, Pc>, log: seq<Event>)

  function Boot(ttl: int): System { System(ttl, Lease("", 0), 0, map[], []) }

  /** Time passes; a request samples the clock; a request takes leaseMu and is decided; a release. */
  datatype Step = Wait(seconds: nat) | Sample(r: nat, path: Path, id: string) | Decide(r: nat) | Release(id: string)

  /** Ids the handlers let through to the lease: requireControl refuses only the empty id,
      apiLeaseAcquire every id shorter than 8 bytes. */
  predicate Admitted(path: Path, id: string) {
    if path.ByControl? then id != "" else |id| >= 8
  }

  function Decision(l: Lease, path: Path, id: string, now: int, ttl: int): (Lease, bool) {
    if path.ByControl? then ControlDecision(l, id, now, ttl) else AcquireDecision(l, id, now, ttl)
  }

  function Apply(s: System, step: Step): Option<System> {
    match step
    case Wait(d) => Some(s.(clock := s.clock + d))
    case Sample(r, p, id) =>
      if r in s.requests || !Admitted(p, id) then None
      else Some(s.(requests := s.requests[r := Waiting(p, id, s.clock)]))
    case Decide(r) =>
      if r !in s.requests || s.requests[r].Finished? then None
      else
        var Waiting(p, id, now) := s.requests[r];
        var (l, ok) := Decision(s.lease, p, id, now, s.ttl);
        Some(s.(lease := l, requests := s.requests[r := Finished],
                log := s.log + [if ok then Granted(id, now) else Denied(id, now)]))
    case Release(id) =>
      var (l, ok) := ReleaseDecision(s.lease, id);
      Some(s.(lease := l, log := if ok && id != "" then s.log + [Released(id)] else s.log))
  }

  ghost predicate Reachable(s: System) { Reaches(Apply, Boot(s.ttl), s) }

  // ---------------------------------------------------------------- what the log says by itself

  /** The last grant since the last release: who holds the lease and when that request had sampled the clock. */
  function Holder(log: seq<Event>): (h: Option<Event>)
    ensures h.Some? ==> h.value.Granted? && h.value in log
  {
    if log == [] then None
    else match log[|log|-1]
      case Granted(_, _) => Some(log[|log|-1])
      case Released(_) => None
      case Denied(_, _) => Holder(log[..|log|-1])
  }

  /** Event `e` after `log` respects the lease: a grant to another client than the holder comes only at or
      past the holder's last granted expiry, and only the holder releases. */
  predicate Lawful(log: seq<Event>, e: Event, ttl: int) {
    match (e, Holder(log))
    case (Granted(id, now), Some(h)) => id == h.id || now >= h.now + ttl
    case (Released(id), Some(h)) => id == h.id
    case (Released(_), None) => false
    case (Denied(id, now), Some(h)) => id != h.id && now <= h.now + ttl
    case (Denied(_, _), None) => false
    case (Granted(_, _), None) => true
  }

  /** Every event of the log respects the lease as the log before it says it was. */
  predicate AllLawful(log: seq<Event>, ttl: int) {
    log == [] || (AllLawful(log[..|log|-1], ttl) && Lawful(log[..|log|-1], log[|log|-1], ttl))
  }

  ghost predicate Inv(s: System) {
    && (forall r :: r in s.requests && s.requests[r].Waiting? ==>
          s.requests[r].id != "" && s.requests[r].now <= s.clock)
    && (match Holder(s.log)
        case None => s.lease.owner == ""
        case Some(h) => h.id != "" && s.lease == Lease(h.id, h.now + s.ttl))
    && AllLawful(s.log, s.ttl)
    && (forall i :: 0 <= i < |s.log| && s.log[i].Granted? ==> s.log[i].now <= s.clock)
  }

  lemma LawfulAppend(log: seq<Event>, e: Event, ttl: int)
    requires AllLawful(log, ttl) && Lawful(log, e, ttl)
    ensures AllLawful(log + [e], ttl)
    ensures Holder(log + [e]) == if e.Granted? then Some(e) else if e.Released? then None else Holder(log)
  {
    assert (log + [e])[..|log|] == log;
  }

  lemma {:induction false} LawfulAt(log: seq<Event>, ttl: int, i: nat)
    requires AllLawful(log, ttl) && i < |log|
    ensures Lawful(log[..i], log[i], ttl)
  {
    if i < |log| - 1 {
      LawfulAt(log[..|log|-1], ttl, i);
      assert log[..|log|-1][..i] == log[..i];
    }
  }

  /** One decision is lawful after the log so far, and leaves lease and log in agreement. */
  lemma DecisionLawful(log: seq<Event>, l: Lease, path: Path, id: string, now: int, ttl: int)
    requires id != ""
    requires match Holder(log) case None => l.owner == "" case Some(h) => h.id != "" && l == Lease(h.id, h.now + ttl)
    ensures var (l', ok) := Decision(l, path, id, now, ttl);
            && Lawful(log, if ok then Granted(id, now) else Denied(id, now), ttl)
            && (if ok then l' == Lease(id, now + ttl) else l' == l)
  {
  }

  lemma ApplyKeepsInv(s: System, step: Step)
    requires Inv(s) && Apply(s, step).Some?
    ensures Inv(Apply(s, step).value)
  {
    match step
    case Decide(r) =>
      var Waiting(p, id, now) := s.requests[r];
      DecisionLawful(s.log, s.lease, p, id, now, s.ttl);
      LawfulAppend(s.log, if Decision(s.lease, p, id, now, s.ttl).1 then Granted(id, now) else Denied(id, now), s.ttl);
    case Release(id) => if ReleaseDecision(s.lease, id).1 && id != "" { LawfulAppend(s.log, Released(id), s.ttl); }
    case _ =>
  }

  lemma ReachableInv(s: System)
    requires Reachable(s)
    ensures Inv(s)
  {
    forall s, step | Inv(s) && Apply(s, step).Some? ensures Inv(Apply(s, step).value) { ApplyKeepsInv(s, step); }
    Invariant(Apply, Inv, Boot(s.ttl), s);
  }

  // ---------------------------------------------------------------- results over every interleaving

  /** Every grant, by either path, goes to the holder, to a free lease, or to a request whose sampled time is
      at or past the holder's last granted expiry. */
  lemma GrantsRespectTheHolder(s: System, i: nat)
    requires Reachable(s) && i < |s.log| && s.log[i].Granted?
    ensures var h := Holder(s.log[..i]);
            h.Some? && h.value.id != s.log[i].id ==> s.log[i].now >= h.value.now + s.ttl
  {
    ReachableInv(s);
    LawfulAt(s.log, s.ttl, i);
  }

  /** The other half: a request is refused only while another client holds the lease, and never with a
      sample past that client's expiry. */
  lemma RefusedOnlyWhileHeld(s: System, i: nat)
    requires Reachable(s) && i < |s.log| && s.log[i].Denied?
    ensures var h := Holder(s.log[..i]);
            h.Some? && h.value.id != s.log[i].id && s.log[i].now <= h.value.now + s.ttl
  {
    ReachableInv(s);
    LawfulAt(s.log, s.ttl, i);
  }

  // ---------------------------------------------------------------- earlier promises

  /** No grant since `i` was given up by its owner before `j`. */
  predicate Unreleased(log: seq<Event>, i: nat, j: nat) {
    j <= |log| && forall k :: i < k < j ==> !log[k].Released?
  }

  /** Grants reached the lock in the order of their samples. */
  predicate InOrder(log: seq<Event>) {
    forall i, j :: 0 <= i < j < |log| && log[i].Granted? && log[j].Granted? ==> log[i].now <= log[j].now
  }

  lemma {:induction false} HolderIsLatest(log: seq<Event>, i: nat)
    requires i < |log| && log[i].Granted? && Unreleased(log, i, |log|) && InOrder(log)
    ensures Holder(log).Some? && Holder(log).value.now >= log[i].now
    ensures Holder(log).value == log[i] || exists k :: i < k < |log| && log[k] == Holder(log).value
    decreases |log|
  {
    var n := |log| - 1;
    if i < n && log[n].Denied? {
      var before := log[..n];
      assert forall a :: 0 <= a < n ==> before[a] == log[a];
      HolderIsLatest(before, i);
    }
  }

  /** When grants reach the lock in sample order, each one keeps its full term: another client is granted
      only after a release or at least `ttl` after that sample. */
  lemma {:induction false} EveryPromiseKept(s: System, i: nat, j: nat)
    requires Reachable(s) && s.ttl >= 0 && InOrder(s.log)
    requires i < j < |s.log| && s.log[i].Granted? && s.log[j].Granted? && s.log[i].id != s.log[j].id
    requires Unreleased(s.log, i, j)
    ensures s.log[j].now >= s.log[i].now + s.ttl
    decreases j - i
  {
    var before := s.log[..j];
    assert forall a :: 0 <= a < j ==> before[a] == s.log[a];
    HolderIsLatest(before, i);
    GrantsRespectTheHolder(s, j);
    var h := Holder(before).value;
    if h.id == s.log[j].id {
      var k :| i < k < j && before[k] == h;
      EveryPromiseKept(s, i, k);
    }
  }

  // ---------------------------------------------------------------- when a promise can still be cut

  predicate Waits(s: System, r: nat) { r in s.requests && s.requests[r].Waiting? }

  /** The events from `from` to `to` are nobody's but `id`'s: no release, and no grant to another client. */
  predicate OnlyOwn(log: seq<Event>, from: nat, to: nat, id: string) {
    to <= |log| && forall m :: from <= m < to ==> !log[m].Released? && (log[m].Granted? ==> log[m].id == id)
  }

  /** Event `k` takes the lease, still `id`'s without a break since `from`, to another client. */
  predicate TakenAt(log: seq<Event>, from: nat, k: nat, id: string) {
    from <= k < |log| && log[k].Granted? && log[k].id != id && OnlyOwn(log, from, k, id)
  }

  /** In `s'`, later than `s`, the lease that was promised by grant `i` of `s` has gone to another client, with no
      release, at a sample before the promised time. */
  ghost predicate CutBetween(s: System, i: nat, s': System)
    requires i < |s.log| && s.log[i].Granted?
  {
    && s.log <= s'.log
    && exists k: nat :: TakenAt(s'.log, |s.log|, k, s.log[i].id) && s'.log[k].now < s.log[i].now + s.ttl
  }

  /** The holder's lease runs from sample `a`, or will once a request of its own that is waiting is decided. */
  ghost predicate CanRunFrom(s: System, a: int)
    requires Holder(s.log).Some?
  {
    || a == Holder(s.log).value.now
    || exists r :: Waits(s, r) && s.requests[r].id == Holder(s.log).value.id && s.requests[r].now == a
  }

  /** Another client has, or can still get, a sample with which it is granted from `lo` on and before `hi`. */
  ghost predicate InGap(s: System, lo: int, hi: int)
    requires Holder(s.log).Some?
  {
    || s.clock < hi
    || exists r :: Waits(s, r) && s.requests[r].id != Holder(s.log).value.id && OfUse(s.requests[r], lo, hi)
  }

  predicate OfUse(q: Pc, lo: int, hi: int)
    requires q.Waiting?
  {
    q.now < hi && (if q.path.ByControl? then q.now > lo else q.now >= lo)
  }

  /** A sample older than the one promised on can still come to rule, and then leave a gap that another client's
      sample, waiting or yet to be taken, falls into. */
  ghost predicate Cuttable(s: System, i: nat)
    requires i < |s.log| && s.log[i].Granted? && Holder(s.log).Some?
  {
    exists a :: CanRunFrom(s, a) && a < s.log[i].now && InGap(s, a + s.ttl, s.log[i].now + s.ttl)
  }

  /** The promise of grant `i` is made to the client that holds the lease. */
  ghost predicate Promised(s: System, i: nat) {
    i < |s.log| && s.log[i].Granted? && Holder(s.log).Some? && Holder(s.log).value.id == s.log[i].id
  }

  /** Where the samples of a continuation come from: from requests that wait in `s`, or from later than `s`. */
  ghost predicate SamplesFrom(s: System, s': System) {
    && s'.ttl == s.ttl && s.clock <= s'.clock && s.log <= s'.log
    && forall r :: Waits(s', r) ==> (Waits(s, r) && s.requests[r] == s'.requests[r]) || s'.requests[r].now >= s.clock
  }

  /** As long as only the holder was granted, its lease runs from one of its samples. */
  ghost predicate OwnSample(s: System, i: nat, s': System)
    requires Promised(s, i)
  {
    OnlyOwn(s'.log, |s.log|, |s'.log|, s.log[i].id) ==>
      && Holder(s'.log).Some? && Holder(s'.log).value.id == s.log[i].id
      && (CanRunFrom(s, Holder(s'.log).value.now) || Holder(s'.log).value.now >= s.clock)
  }

  /** What a continuation of `s` keeps as long as the promise cannot be cut. */
  ghost predicate Follows(s: System, i: nat, s': System)
    requires Promised(s, i)
  {
    Inv(s') && SamplesFrom(s, s') && OwnSample(s, i, s') && !CutBetween(s, i, s')
  }

  lemma SamplesStep(s: System, s': System, step: Step)
    requires SamplesFrom(s, s') && Apply(s', step).Some?
    ensures SamplesFrom(s, Apply(s', step).value)
  {
  }

  lemma OwnSampleStep(s: System, i: nat, s': System, step: Step)
    requires Promised(s, i) && Inv(s') && SamplesFrom(s, s') && OwnSample(s, i, s') && Apply(s', step).Some?
    ensures OwnSample(s, i, Apply(s', step).value)
  {
    var s'', g := Apply(s', step).value, s.log[i].id;
    if OnlyOwn(s''.log, |s.log|, |s''.log|, g) {
      assert forall m :: 0 <= m < |s'.log| ==> s''.log[m] == s'.log[m];
      assert OnlyOwn(s'.log, |s.log|, |s'.log|, g);
      if |s''.log| > |s'.log| { assert s''.log[..|s''.log|-1] == s'.log; }
    }
  }

  /** A decision that grants another client before the promised time needs a gap that was there before. */
  lemma DecisionShowsGap(s: System, i: nat, s': System, r: nat)
    requires Promised(s, i) && Inv(s) && Inv(s') && SamplesFrom(s, s') && OwnSample(s, i, s')
    requires OnlyOwn(s'.log, |s.log|, |s'.log|, s.log[i].id)
    requires Waits(s', r) && s'.requests[r].id != s.log[i].id && s'.requests[r].now < s.log[i].now + s.ttl
    requires Decision(s'.lease, s'.requests[r].path, s'.requests[r].id, s'.requests[r].now, s.ttl).1
    ensures Cuttable(s, i)
  {
    var q, a := s'.requests[r], Holder(s'.log).value.now;
    assert s'.lease == Lease(s.log[i].id, a + s.ttl);
    assert a < s.log[i].now <= s.clock;
    assert CanRunFrom(s, a);
    assert OfUse(q, a + s.ttl, s.log[i].now + s.ttl);
    assert InGap(s, a + s.ttl, s.log[i].now + s.ttl);
  }

  lemma NotCutStep(s: System, i: nat, s': System, step: Step)
    requires Promised(s, i) && Inv(s) && Follows(s, i, s') && !Cuttable(s, i) && Apply(s', step).Some?
    ensures !CutBetween(s, i, Apply(s', step).value)
  {
    var s'', g := Apply(s', step).value, s.log[i].id;
    forall k: nat | TakenAt(s''.log, |s.log|, k, g) ensures s''.log[k].now >= s.log[i].now + s.ttl {
      assert forall m :: 0 <= m < |s'.log| ==> s''.log[m] == s'.log[m];
      if k < |s'.log| {
        assert TakenAt(s'.log, |s.log|, k, g);
      } else {
        assert OnlyOwn(s'.log, |s.log|, |s'.log|, g);
        if s''.log[k].now < s.log[i].now + s.ttl { DecisionShowsGap(s, i, s', step.r); }
      }
    }
  }

  lemma {:induction false} FollowsRun(s: System, i: nat, s': System, steps: seq<Step>)
    requires Promised(s, i) && Inv(s) && Follows(s, i, s') && !Cuttable(s, i) && Run(Apply, s', steps).Some?
    ensures Follows(s, i, Run(Apply, s', steps).value)
    decreases |steps|
  {
    if steps != [] {
      ApplyKeepsInv(s', steps[0]);
      SamplesStep(s, s', steps[0]);
      OwnSampleStep(s, i, s', steps[0]);
      NotCutStep(s, i, s', steps[0]);
      FollowsRun(s, i, Apply(s', steps[0]).value, steps[1..]);
    }
  }

  // ---------------------------------------------------------------- and then is cut

  /** `s'` follows `s` in some run. */
  ghost predicate Later(s: System, s': System) { Reaches(Apply, s, s') }

  lemma Then(s: System, s1: System, step: Step) returns (s2: System)
    requires Later(s, s1) && Apply(s1, step).Some?
    ensures Later(s, s2) && s2 == Apply(s1, step).value
  {
    s2 := ReachesNext(Apply, s, s1, step);
  }

  lemma {:induction false} Unused(keys: set<nat>) returns (r: nat)
    ensures r !in keys && forall k :: k in keys ==> k < r
  {
    if keys == {} {
      r := 0;
    } else {
      var k :| k in keys;
      var q := Unused(keys - {k});
      assert forall x :: x in keys ==> x == k || x in keys - {k};
      r := if q > k then q else k + 1;
    }
  }

  /** The holder's lease made to run from sample `a`. */
  lemma LetRunFrom(s: System, i: nat, a: int) returns (s': System)
    requires Promised(s, i) && Inv(s) && CanRunFrom(s, a)
    ensures Later(s, s') && Inv(s') && s'.ttl == s.ttl && s'.clock == s.clock && s.log <= s'.log
    ensures OnlyOwn(s'.log, |s.log|, |s'.log|, s.log[i].id)
    ensures Holder(s'.log).Some? && Holder(s'.log).value == Granted(s.log[i].id, a)
    ensures forall r :: Waits(s, r) && s.requests[r].id != s.log[i].id ==>
                          Waits(s', r) && s'.requests[r] == s.requests[r]
  {
    ReachesBoot(Apply, s);
    s' := s;
    if a != Holder(s.log).value.now {
      var r :| Waits(s, r) && s.requests[r].id == s.log[i].id && s.requests[r].now == a;
      ApplyKeepsInv(s, Decide(r));
      s' := Then(s, s, Decide(r));
      assert s'.log == s.log + [Granted(s.log[i].id, a)];
      assert s'.log[..|s'.log|-1] == s.log;
    }
  }

  /** Another client's waiting request decided in the gap. */
  lemma TakeInGap(s: System, i: nat, s': System, r: nat, lo: int) returns (s'': System)
    requires Promised(s, i) && Later(s, s') && Inv(s') && s'.ttl == s.ttl && s.log <= s'.log
    requires OnlyOwn(s'.log, |s.log|, |s'.log|, s.log[i].id)
    requires Holder(s'.log).Some? && Holder(s'.log).value == Granted(s.log[i].id, lo - s.ttl)
    requires Waits(s', r) && s'.requests[r].id != s.log[i].id && OfUse(s'.requests[r], lo, s.log[i].now + s.ttl)
    ensures Later(s, s'') && CutBetween(s, i, s'')
  {
    s'' := Then(s, s', Decide(r));
    assert s''.log == s'.log + [Granted(s'.requests[r].id, s'.requests[r].now)];
    assert TakenAt(s''.log, |s.log|, |s'.log|, s.log[i].id);
  }

  /** A new request of another client that samples the clock in the gap. */
  lemma SampleInGap(s: System, s': System, id: string, lo: int, hi: int) returns (s'': System, r: nat)
    requires Later(s, s') && Inv(s') && s'.clock < hi && lo < hi
    ensures Later(s, s'') && Inv(s'') && s''.ttl == s'.ttl && s''.log == s'.log
    ensures Waits(s'', r) && s''.requests[r].id != id && OfUse(s''.requests[r], lo, hi)
  {
    var other := if id == "client-a" then "client-b" else "client-a";
    r := Unused(s'.requests.Keys);
    var d := if lo > s'.clock then lo - s'.clock else 0;
    ApplyKeepsInv(s', Wait(d));
    s'' := Then(s, s', Wait(d));
    ApplyKeepsInv(s'', Sample(r, ByAcquire, other));
    s'' := Then(s, s'', Sample(r, ByAcquire, other));
  }

  /** The request that falls into the gap. */
  lemma Candidate(s: System, id: string, s1: System, lo: int, hi: int) returns (s': System, r: nat)
    requires Holder(s.log).Some? && Holder(s.log).value.id == id && InGap(s, lo, hi) && lo < hi
    requires Later(s, s1) && Inv(s1) && s1.clock == s.clock
    requires forall r :: Waits(s, r) && s.requests[r].id != id ==> Waits(s1, r) && s1.requests[r] == s.requests[r]
    ensures Later(s, s') && Inv(s') && s'.ttl == s1.ttl && s'.log == s1.log
    ensures Waits(s', r) && s'.requests[r].id != id && OfUse(s'.requests[r], lo, hi)
  {
    if s.clock < hi {
      s', r := SampleInGap(s, s1, id, lo, hi);
    } else {
      s' := s1;
      r :| Waits(s, r) && s.requests[r].id != id && OfUse(s.requests[r], lo, hi);
    }
  }

  lemma CutFollows(s: System, i: nat) returns (s': System)
    requires Promised(s, i) && Inv(s) && Cuttable(s, i)
    ensures Later(s, s') && CutBetween(s, i, s')
  {
    var a :| CanRunFrom(s, a) && a < s.log[i].now && InGap(s, a + s.ttl, s.log[i].now + s.ttl);
    var s1 := LetRunFrom(s, i, a);
    var s2, r := Candidate(s, s.log[i].id, s1, a + s.ttl, s.log[i].now + s.ttl);
    s' := TakeInGap(s, i, s2, r, a + s.ttl);
  }

  /** From any reachable state, a lease promised to the holder by grant `i` can go to another client before the
      promised time, without a release, if and only if it is Cuttable there: the holder's last sample, or that of a
      request of its own still waiting, is older than the one promised on, and the clock, or a waiting request of
      another client, is still within the gap this leaves. */
  lemma PromiseCutIffOvertaken(s: System, i: nat)
    requires Reachable(s) && Promised(s, i)
    ensures (exists s' :: Later(s, s') && CutBetween(s, i, s')) <==> Cuttable(s, i)
  {
    ReachableInv(s);
    if Cuttable(s, i) {
      var s' := CutFollows(s, i);
    } else {
      forall s' | Later(s, s') ensures !CutBetween(s, i, s') {
        var steps :| Run(Apply, s, steps) == Some(s');
        assert Follows(s, i, s);
        FollowsRun(s, i, s, steps);
      }
    }
  }

  lemma Go(s: System, step: Step) returns (s': System)
    requires Reachable(s) && Apply(s, step).Some?
    ensures Reachable(s') && s' == Apply(s, step).value
  {
    s' := ReachesNext(Apply, Boot(s.ttl), s, step);
  }

  /** It happens: two requests of one client overtake each other, and a second client is granted 5 s before
      the 60 s promised to the first are over, with no release. */
  lemma PromiseBroken() returns (s: System)
    ensures Reachable(s) && s.ttl == 60
    ensures s.log == [Granted("operator", 5), Granted("operator", 0), Granted("tablet-2", 60)]
  {
    s := Boot(60);
    ReachesBoot(Apply, s);
    s := Go(s, Sample(1, ByControl, "operator"));
    s := Go(s, Wait(5));
    s := Go(s, Sample(2, ByControl, "operator"));
    s := Go(s, Decide(2));
    assert s.log == [Granted("operator", 5)];
    s := Go(s, Decide(1));
    assert s.log == [Granted("operator", 5), Granted("operator", 0)] && s.lease == Lease("operator", 60);
    s := Go(s, Wait(55));
    s := Go(s, Sample(3, ByAcquire, "tablet-2"));
    s := Go(s, Decide(3));
  }

  // ---------------------------------------------------------------- the App object

  class App {
    var leaseOwner: string
    var leaseExpires: int

    ghost function State(): Lease
      reads this
    {
      Lease(leaseOwner, leaseExpires)
    }

    constructor ()
      ensures State() == Lease("", 0)
    {
      leaseOwner, leaseExpires := "", 0;
    }

    method RequireControl(id: string, now: int, ttl: int) returns (ok: bool)
      modifies this
      ensures id == "" ==> !ok && State() == old(State())
      ensures if Admitted(ByControl, id) then (State(), ok) == ControlDecision(old(State()), id, now, ttl) else !ok
      ensures id != "" ==> (ok <==> old(leaseOwner) == "" || old(leaseOwner) == id || now > old(leaseExpires))
      ensures ok ==> leaseOwner == id && leaseExpires == now + ttl
    {
      if id == "" {
        return false;
      }
      if leaseOwner == "" || now > leaseExpires {
        leaseOwner := id;
        leaseExpires := now + ttl;
      }
      if leaseOwner != id {
        return false;
      }
      leaseExpires := now + ttl;
      return true;
    }

    method LeaseAcquire(id: string, now: int, ttl: int) returns (ok: bool)
      modifies this
      ensures |id| < 8 ==> !ok && State() == old(State())
      ensures if Admitted(ByAcquire, id) then (State(), ok) == AcquireDecision(old(State()), id, now, ttl) else !ok
      ensures |id| >= 8 ==> (ok <==> old(leaseOwner) == "" || old(leaseOwner) == id || now >= old(leaseExpires))
      ensures ok ==> leaseOwner == id && leaseExpires == now + ttl
    {
      if |id| < 8 {
        return false;
      }
      if leaseOwner != "" && leaseOwner != id && now < leaseExpires {
        return false;
      }
      leaseOwner := id;
      leaseExpires := now + ttl;
      return true;
    }

    method LeaseRelease(id: string) returns (released: bool)
      modifies this
      ensures (State(), released) == ReleaseDecision(old(State()), id)
      ensures released <==> old(leaseOwner) == id
      ensures leaseOwner == (if released then "" else old(leaseOwner))
      ensures leaseExpires == if released then 0 else old(leaseExpires)
    {
      released := leaseOwner == id;
      if released {
        leaseOwner := "";
        leaseExpires := 0;
      }
    }
  }
}
