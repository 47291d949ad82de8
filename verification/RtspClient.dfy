/** The blocking RTSP client of the Android app (RtspClient.kt), and beside it the Start of the Go client (audio.go). */
module RtspClient {
  import opened Numerals
  import opened Options

  // The method order is that of RFC 2326 sections 10.1 to 10.8. Sockets are represented by what they deliver: `server`
  // gives the reply to the n-th request a client sends, counted from 1, its CSeq.

  datatype Method = OPTIONS | DESCRIBE | SETUP | PLAY | GET_PARAMETER | TEARDOWN

  /** A reply, or none (write failure, timeout, closed connection, unreadable response): then the scanner may all the
      same have executed the request, and a SETUP have opened session `id`. `cseq` is absent when the header is
      missing or blank. `session` is the Session id before ';', trimmed. `usable` says whether what the code parses
      next is acceptable: content type and SDP of DESCRIBE, Transport of SETUP. */
  datatype Reply =
    | Lost(executed: bool, id: string)
    | Reply(status: int, cseq: Option<string>, session: string, usable: bool)

  type Server = nat -> Reply

  datatype Sent = Sent(verb: Method, session: string)

  /** `request` returns instead of throwing: status 200, and no other CSeq than the one sent. */
  predicate Accepted(server: Server, n: nat) {
    match server(n)
    case Lost(_, _) => false
    case Reply(status, cseq, _, _) => (cseq == None || cseq == Some(Decimal(n))) && status == 200
  }

  // ---------------------------------------------------------------- specification

  /** `trace`: the requests sent so far. The request about to be sent is number |trace| + 1. */
  datatype State = State(connected: bool, session: string, trace: seq<Sent>)

  const NEW := State(false, "", [])

  function Send(c: State, m: Method, session: string): State {
    c.(trace := c.trace + [Sent(m, session)])
  }

  function AfterClose(c: State): State {
    var c1 := if c.session != "" && c.connected then Send(c, TEARDOWN, c.session) else c;
    c1.(session := "", connected := false)
  }

  /** Number of the last request sent. */
  function Seq(c: State): nat { |c.trace| }

  function AfterPlay(c: State, server: Server, usable: bool): (State, bool) {
    if !usable then (AfterClose(c), false)
    else
      var c1 := Send(c, PLAY, c.session);
      if Accepted(server, Seq(c1)) then (c1, true) else (AfterClose(c1), false)
  }

  function AfterSetup(c: State, server: Server): (State, bool) {
    var c1 := Send(c, SETUP, "");
    if !Accepted(server, Seq(c1)) || server(Seq(c1)).session == "" then (AfterClose(c1), false)
    else AfterPlay(c1.(session := server(Seq(c1)).session), server, server(Seq(c1)).usable)
  }

  function AfterDescribe(c: State, server: Server): (State, bool) {
    var c1 := Send(c, DESCRIBE, "");
    if !Accepted(server, Seq(c1)) || !server(Seq(c1)).usable then (AfterClose(c1), false) else AfterSetup(c1, server)
  }

  function AfterOptions(c: State, server: Server): (State, bool) {
    var c1 := Send(c, OPTIONS, "");
    if !Accepted(server, Seq(c1)) then (AfterClose(c1), false) else AfterDescribe(c1, server)
  }

  /** start: `reachable` is whether a TCP connect succeeds, if one is needed. */
  function AfterStart(c: State, server: Server, reachable: bool): (State, bool) {
    if !c.connected && !reachable then (AfterClose(c), false) else AfterOptions(c.(connected := true), server)
  }

  function AfterGetParameter(c: State, server: Server): (State, bool) {
    if c.session == "" || !c.connected then (c, false)
    else
      var c1 := Send(c, GET_PARAMETER, c.session);
      (c1, Accepted(server, Seq(c1)))
  }

  // ---------------------------------------------------------------- the client object

  class Client {
    const server: Server
    var connected: bool
    var session: string
    var cseq: nat
    var trace: seq<Sent>

    ghost function Now(): State
      reads this
    {
      State(connected, session, trace)
    }

    ghost predicate Valid()
      reads this
    {
      cseq == |trace|
    }

    constructor (server: Server)
      ensures Valid() && Now() == NEW && this.server == server
    {
      this.server, connected, session, cseq, trace := server, false, "", 0, [];
    }

    /** None stands for the exception. */
    method Request(m: Method, sid: string) returns (res: Option<Reply>)
      requires Valid()
      modifies this`cseq, this`trace
      ensures Valid()
      ensures !connected ==> res == None && trace == old(trace)
      ensures connected ==> trace == old(trace) + [Sent(m, sid)]
      ensures connected ==> res == if Accepted(server, cseq) then Some(server(cseq)) else None
      ensures connected ==>
                (res.Some? <==> match server(cseq)
                                case Lost(_, _) => false
                                case Reply(status, got, _, _) =>
                                  status == 200 && (got.Some? ==> got.value == Decimal(cseq)))
    {
      if !connected { return None; }
      cseq := cseq + 1;
      trace := trace + [Sent(m, sid)];
      match server(cseq)
      case Lost(_, _) => return None;
      case Reply(status, got, _, _) =>
        if got.Some? && got.value != Decimal(cseq) { return None; }
        if status != 200 { return None; }
        return Some(server(cseq));
    }

    method Handshake(reachable: bool) returns (ok: bool)
      requires Valid()
      modifies this
      ensures Valid()
      ensures (if ok then Now() else AfterClose(Now()), ok) == AfterStart(old(Now()), server, reachable)
    {
      if !connected {
        if !reachable { return false; }
        connected := true;
      }
      var o := Request(OPTIONS, "");
      if o.None? { return false; }
      var d := Request(DESCRIBE, "");
      if d.None? || !d.value.usable { return false; }
      var s := Request(SETUP, "");
      if s.None? || s.value.session == "" { return false; }
      session := s.value.session;
      if !s.value.usable { return false; }
      var p := Request(PLAY, session);
      return p.Some?;
    }

    method Start(reachable: bool) returns (ok: bool)
      requires Valid()
      modifies this
      ensures Valid() && (Now(), ok) == AfterStart(old(Now()), server, reachable)
    {
      ok := Handshake(reachable);
      if !ok { Close(); }
    }

    method GetParameter() returns (ok: bool)
      requires Valid()
      modifies this
      ensures Valid() && (Now(), ok) == AfterGetParameter(old(Now()), server)
      ensures session == old(session) && connected == old(connected)
      ensures trace == if session != "" && connected then old(trace) + [Sent(GET_PARAMETER, session)] else old(trace)
      ensures ok <==> && session != "" && connected
                      && match server(cseq)
                         case Lost(_, _) => false
                         case Reply(status, got, _, _) => status == 200 && (got.Some? ==> got.value == Decimal(cseq))
    {
      if session == "" { return false; }
      var r := Request(GET_PARAMETER, session);
      return r.Some?;
    }

    method Close()
      requires Valid()
      modifies this
      ensures Valid() && Now() == AfterClose(old(Now()))
    {
      if session != "" && connected {
        var r := Request(TEARDOWN, session);
      }
      session := "";
      connected := false;
    }
  }

  // ---------------------------------------------------------------- the Go client

  /** Close in audio.go sends nothing; Teardown sends and keeps the session id. */
  function GoClose(c: State): State { c.(session := "", connected := false) }

  function GoTeardown(c: State): State {
    if c.session == "" then c else Send(c, TEARDOWN, c.session)
  }

  function GoCleanup(c: State): State {
    GoClose(if c.session != "" then Send(c, TEARDOWN, c.session) else c)
  }

  function GoStart(c: State, server: Server, reachable: bool): (State, bool) {
    if !c.connected && !reachable then (c, false)
    else
      var c1 := Send(c.(connected := true), OPTIONS, "");
      if !Accepted(server, Seq(c1)) then (GoCleanup(c1), false)
      else
        var c2 := Send(c1, DESCRIBE, "");
        if !Accepted(server, Seq(c2)) || !server(Seq(c2)).usable then (GoCleanup(c2), false)
        else
          var c3 := Send(c2, SETUP, "");
          if !Accepted(server, Seq(c3)) || server(Seq(c3)).session == "" then (GoCleanup(c3), false)
          else
            var c4 := c3.(session := server(Seq(c3)).session);
            if !server(Seq(c3)).usable then (GoCleanup(c4), false)
            else
              var c5 := Send(c4, PLAY, c4.session);
              if Accepted(server, Seq(c5)) then (c5, true) else (GoCleanup(c5), false)
  }

  /** The two clients start and stop alike: same requests, same result, same state. */
  lemma GoClientAgrees(c: State, server: Server, reachable: bool)
    requires c.session != "" ==> c.connected
    ensures GoStart(c, server, reachable) == AfterStart(c, server, reachable)
    ensures GoClose(GoTeardown(c)) == AfterClose(c)
  {
  }

  // ---------------------------------------------------------------- any sequence of calls

  datatype Call = CallStart(reachable: bool) | CallGetParameter | CallClose

  function Perform(c: State, server: Server, call: Call): State {
    match call
    case CallStart(reachable) => AfterStart(c, server, reachable).0
    case CallGetParameter => AfterGetParameter(c, server).0
    case CallClose => AfterClose(c)
  }

  function Run(server: Server, calls: seq<Call>): State {
    if calls == [] then NEW else Perform(Run(server, calls[..|calls|-1]), server, calls[|calls|-1])
  }

  /** Session ids the trace shows the client was given, in order. */
  function Opened(server: Server, trace: seq<Sent>): seq<string> {
    if trace == [] then []
    else
      var n := |trace|;
      Opened(server, trace[..n-1]) +
      (if trace[n-1].verb.SETUP? && Accepted(server, n) && server(n).session != "" then [server(n).session] else [])
  }

  /** Session ids the trace shows a TEARDOWN for, in order. */
  function Torn(trace: seq<Sent>): seq<string> {
    if trace == [] then []
    else Torn(trace[..|trace|-1]) + (if trace[|trace|-1].verb.TEARDOWN? then [trace[|trace|-1].session] else [])
  }

  /** A start that, after `n` requests, is served up to an accepted SETUP. */
  predicate Learns(server: Server, n: nat) {
    && Accepted(server, n + 1)
    && Accepted(server, n + 2) && server(n + 2).usable
    && Accepted(server, n + 3) && server(n + 3).session != ""
  }

  /** How often a start on an open session was given a new session id over the old one. */
  function Overwritten(server: Server, calls: seq<Call>): nat {
    if calls == [] then 0
    else
      var before := calls[..|calls|-1];
      var c := Run(server, before);
      Overwritten(server, before) +
      (if calls[|calls|-1].CallStart? && c.session != "" && Learns(server, |c.trace|) then 1 else 0)
  }

  lemma SendLedger(c: State, server: Server, m: Method, session: string)
    ensures var c1 := Send(c, m, session);
            && |c1.trace| == |c.trace| + 1
            && Opened(server, c1.trace) == Opened(server, c.trace) +
                 (if m.SETUP? && Accepted(server, |c1.trace|) && server(|c1.trace|).session != ""
                  then [server(|c1.trace|).session] else [])
            && Torn(c1.trace) == Torn(c.trace) + (if m.TEARDOWN? then [session] else [])
  {
    var c1 := Send(c, m, session);
    assert c1.trace[..|c1.trace|-1] == c.trace;
  }

  /** What closing settles: the open session, if any, gets its TEARDOWN. */
  lemma CloseLedger(c: State, server: Server)
    requires c.session != "" ==> c.connected
    ensures var c1 := AfterClose(c);
            && c1.session == "" && !c1.connected
            && Opened(server, c1.trace) == Opened(server, c.trace)
            && Torn(c1.trace) == Torn(c.trace) + (if c.session != "" then [c.session] else [])
  {
    if c.session != "" { SendLedger(c, server, TEARDOWN, c.session); }
  }

  lemma PlayLedger(c: State, server: Server, usable: bool)
    requires c.session != "" && c.connected
    ensures var (c1, ok) := AfterPlay(c, server, usable);
            && Opened(server, c1.trace) == Opened(server, c.trace)
            && Torn(c1.trace) == Torn(c.trace) + (if ok then [] else [c.session])
            && (if ok then c1.session == c.session && c1.connected else c1.session == "" && !c1.connected)
  {
    SendLedger(c, server, PLAY, c.session);
    CloseLedger(c, server);
    CloseLedger(Send(c, PLAY, c.session), server);
  }

  /** The books after part of a start: at most `learned` was opened, and what is not kept is torn down. */
  ghost predicate Settled(c: State, server: Server, c1: State, ok: bool, learned: bool, id: string) {
    && (c1.session != "" <==> ok) && (ok ==> c1.connected && learned && c1.session == id)
    && Opened(server, c1.trace) == Opened(server, c.trace) + (if learned then [id] else [])
    && Torn(c1.trace) == Torn(c.trace) +
         (if ok then [] else if learned then [id] else if c.session != "" then [c.session] else [])
  }

  lemma SetupLedger(c: State, server: Server)
    requires c.connected
    ensures var (c1, ok) := AfterSetup(c, server);
            var n := |c.trace| + 1;
            Settled(c, server, c1, ok, Accepted(server, n) && server(n).session != "",
                    if Accepted(server, n) then server(n).session else "")
  {
    var c1 := Send(c, SETUP, "");
    SendLedger(c, server, SETUP, "");
    CloseLedger(c1, server);
    if Accepted(server, Seq(c1)) && server(Seq(c1)).session != "" {
      PlayLedger(c1.(session := server(Seq(c1)).session), server, server(Seq(c1)).usable);
    }
  }

  /** Sending OPTIONS or DESCRIBE changes neither side of the books; giving up after it closes. */
  lemma PlainLedger(c: State, server: Server, m: Method)
    requires c.connected && !m.SETUP? && !m.TEARDOWN?
    ensures var c1 := Send(c, m, "");
            && Opened(server, c1.trace) == Opened(server, c.trace) && Torn(c1.trace) == Torn(c.trace)
            && Settled(c, server, AfterClose(c1), false, false, "")
  {
    SendLedger(c, server, m, "");
    CloseLedger(Send(c, m, ""), server);
  }

  function LearnedId(server: Server, n: nat): string { if Accepted(server, n + 3) then server(n + 3).session else "" }

  /** A start learns at most one session, and settles it itself when it fails; a session open before is
      settled too unless it is overwritten. */
  lemma StartLedger(c: State, server: Server, reachable: bool)
    requires c.session != "" ==> c.connected
    ensures var (c1, ok) := AfterStart(c, server, reachable);
            var learns := (c.connected || reachable) && Learns(server, |c.trace|);
            Settled(c, server, c1, ok, learns, LearnedId(server, |c.trace|))
  {
    if c.connected || reachable {
      OptionsLedger(c.(connected := true), server);
    } else {
      CloseLedger(c, server);
    }
  }

  lemma OptionsLedger(c: State, server: Server)
    requires c.connected
    ensures var (c1, ok) := AfterOptions(c, server);
            Settled(c, server, c1, ok, Learns(server, |c.trace|), LearnedId(server, |c.trace|))
  {
    PlainLedger(c, server, OPTIONS);
    DescribeLedger(Send(c, OPTIONS, ""), server);
  }

  lemma DescribeLedger(c: State, server: Server)
    requires c.connected
    ensures var (c1, ok) := AfterDescribe(c, server);
            var n := |c.trace|;
            Settled(c, server, c1, ok,
                    && Accepted(server, n + 1) && server(n + 1).usable
                    && Accepted(server, n + 2) && server(n + 2).session != "",
                    if Accepted(server, n + 2) then server(n + 2).session else "")
  {
    PlainLedger(c, server, DESCRIBE);
    SetupLedger(Send(c, DESCRIBE, ""), server);
  }

  ghost predicate Balanced(server: Server, c: State) {
    Opened(server, c.trace) == Torn(c.trace) + (if c.session != "" then [c.session] else [])
  }

  /** The books over any calls: what was opened is torn down, still open, or was overwritten. */
  lemma {:induction false} Ledger(server: Server, calls: seq<Call>)
    ensures var c := Run(server, calls);
            && (c.session != "" ==> c.connected)
            && |Opened(server, c.trace)|
               == |Torn(c.trace)| + (if c.session != "" then 1 else 0) + Overwritten(server, calls)
            && (Overwritten(server, calls) == 0 ==> Balanced(server, c))
  {
    if calls != [] {
      var before, call := calls[..|calls|-1], calls[|calls|-1];
      Ledger(server, before);
      CallLedger(server, Run(server, before), call);
    }
  }

  /** Session ids opened and neither torn down nor still held. */
  function Lacking(server: Server, c: State): int {
    |Opened(server, c.trace)| - |Torn(c.trace)| - (if c.session != "" then 1 else 0)
  }

  /** What a call does to the books, `over` telling whether it overwrites a session. */
  ghost predicate Booked(server: Server, c: State, c1: State, over: bool) {
    && (c1.session != "" ==> c1.connected)
    && Lacking(server, c1) == Lacking(server, c) + (if over then 1 else 0)
    && (!over && Balanced(server, c) ==> Balanced(server, c1))
  }

  lemma SettledIsBooked(c: State, server: Server, c1: State, ok: bool, learned: bool, id: string)
    requires Settled(c, server, c1, ok, learned, id)
    ensures Booked(server, c, c1, c.session != "" && learned)
  {
  }

  lemma CloseBooked(server: Server, c: State)
    requires c.session != "" ==> c.connected
    ensures Booked(server, c, AfterClose(c), false)
  {
    CloseLedger(c, server);
  }

  /** One call, and the number of sessions it overwrites. */
  lemma CallLedger(server: Server, c: State, call: Call)
    requires c.session != "" ==> c.connected
    ensures Booked(server, c, Perform(c, server, call), call.CallStart? && c.session != "" && Learns(server, |c.trace|))
  {
    match call
    case CallStart(reachable) => StartBooked(server, c, reachable);
    case CallGetParameter => SendLedger(c, server, GET_PARAMETER, c.session);
    case CallClose => CloseBooked(server, c);
  }

  lemma StartBooked(server: Server, c: State, reachable: bool)
    requires c.session != "" ==> c.connected
    ensures Booked(server, c, AfterStart(c, server, reachable).0, c.session != "" && Learns(server, |c.trace|))
  {
    StartLedger(c, server, reachable);
    SettledIsBooked(c, server, AfterStart(c, server, reachable).0, AfterStart(c, server, reachable).1,
                    (c.connected || reachable) && Learns(server, |c.trace|), LearnedId(server, |c.trace|));
  }

  /** Once the client is closed, every session it was ever given has had its one TEARDOWN, in order, exactly
      when no start was served a new session over an open one. */
  lemma AllTornDownIffNoneOverwritten(server: Server, calls: seq<Call>)
    ensures var all := calls + [CallClose];
            Opened(server, Run(server, all).trace) == Torn(Run(server, all).trace) <==> Overwritten(server, calls) == 0
  {
    var all := calls + [CallClose];
    assert all[..|all|-1] == calls;
    Ledger(server, calls);
    Ledger(server, all);
    assert Torn(Run(server, all).trace) + [] == Torn(Run(server, all).trace);
  }

  /** It happens with a server that accepts everything, for a caller that starts one client twice (both apps make a
      client for each start): a second start leaves the first session behind. */
  lemma SecondStartOverwrites(server: Server)
    requires forall n :: server(n) == Reply(200, None, "id", true)
    ensures Overwritten(server, [CallStart(true), CallStart(true)]) == 1
  {
    var once, twice := [CallStart(true)], [CallStart(true), CallStart(true)];
    assert twice[..1] == once && once[..0] == [];
    assert Run(server, []) == NEW;
    assert Run(server, once) == AfterStart(NEW, server, true).0;
    assert Overwritten(server, once) == 0;
  }

  // ---------------------------------------------------------------- one start, as the app uses the client

  function Verbs(trace: seq<Sent>): seq<Method> { seq(|trace|, i requires 0 <= i < |trace| => trace[i].verb) }

  const HANDSHAKE := [OPTIONS, DESCRIBE, SETUP, PLAY]

  /** k handshake requests, m keepalives after all four, and at the end a TEARDOWN if `torn`. */
  predicate Shape(vs: seq<Method>, k: nat, m: nat, torn: bool) {
    && k <= 4 && (m > 0 ==> k == 4) && (torn ==> k >= 3)
    && vs == HANDSHAKE[..k] + seq(m, _ => GET_PARAMETER) + (if torn then [TEARDOWN] else [])
  }

  /** The client was given a Session id by its SETUP, request 3 of a fresh client. */
  predicate Learned(server: Server, vs: seq<Method>) {
    |vs| >= 3 && vs[2] == SETUP && Accepted(server, 3) && server(3).session != ""
  }

  /** How many requests of the handshake a fresh client sends. */
  function Reached(server: Server, reachable: bool): nat {
    if !reachable then 0
    else if !Accepted(server, 1) then 1
    else if !Accepted(server, 2) || !server(2).usable then 2
    else if !Accepted(server, 3) || server(3).session == "" || !server(3).usable then 3
    else 4
  }

  lemma SentVerbs(c: State, m: Method, session: string)
    ensures Verbs(Send(c, m, session).trace) == Verbs(c.trace) + [m]
  {
  }

  lemma LearnedStays(server: Server, vs: seq<Method>, v: Method)
    requires |vs| >= 3
    ensures Learned(server, vs + [v]) == Learned(server, vs)
  {
  }

  /** Request i + 1 of the handshake of a fresh client is sent if and only if the connection was made, the i replies
      before it all came with status 200 and no other CSeq than their request's, and what is read from them is there:
      content type and SDP from DESCRIBE, a Session id and a Transport from SETUP. With i = 4: so the start succeeds. */
  lemma HandshakeFollowsReplies(server: Server, reachable: bool, i: nat)
    requires i <= 4
    ensures var (c, ok) := AfterStart(NEW, server, reachable);
            (if i < 4 then |c.trace| > i && c.trace[i].verb == HANDSHAKE[i] else ok)
            <==> && reachable
                 && (forall n :: 1 <= n <= i ==>
                       match server(n)
                       case Lost(_, _) => false
                       case Reply(status, cseq, _, _) => status == 200 && (cseq.Some? ==> cseq.value == Decimal(n)))
                 && (i >= 2 ==> server(2).usable)
                 && (i >= 3 ==> server(3).session != "" && server(3).usable)
  {
    var k, torn := FreshStart(server, reachable);
    FreshStartGets(server, reachable, k, torn);
  }

  /** How far it gets is how many requests of the handshake are in the trace. */
  lemma FreshStartGets(server: Server, reachable: bool, k: nat, torn: bool)
    requires Shape(Verbs(AfterStart(NEW, server, reachable).0.trace), k, 0, torn)
    ensures var trace := AfterStart(NEW, server, reachable).0.trace;
            k <= 4 && forall i :: 0 <= i < 4 ==> (|trace| > i && trace[i].verb == HANDSHAKE[i] <==> i < k)
  {
    var trace := AfterStart(NEW, server, reachable).0.trace;
    assert |Verbs(trace)| == |trace| && forall i :: 0 <= i < |trace| ==> Verbs(trace)[i] == trace[i].verb;
  }

  /** How far a fresh start gets, and whether it ends with a TEARDOWN of its own. */
  lemma FreshStart(server: Server, reachable: bool) returns (k: nat, torn: bool)
    ensures var (c, ok) := AfterStart(NEW, server, reachable);
            && Shape(Verbs(c.trace), k, 0, torn) && (ok ==> k == 4 && !torn)
            && (ok <==> c.session != "") && (c.session != "" ==> c.connected)
            && (Learned(server, Verbs(c.trace)) <==> ok || torn) && OwnSession(server, c, torn)
            && k == Reached(server, reachable) && (ok <==> k == 4 && Accepted(server, 4))
  {
    k, torn := 0, false;
    if reachable {
      var c1 := Send(NEW.(connected := true), OPTIONS, "");
      var c2 := Send(c1, DESCRIBE, "");
      var c3 := Send(c2, SETUP, "");
      assert Verbs(c1.trace) == HANDSHAKE[..1];
      assert Verbs(c2.trace) == HANDSHAKE[..2];
      assert Verbs(c3.trace) == HANDSHAKE[..3];
      k := if !Accepted(server, 1) then 1 else if !Accepted(server, 2) || !server(2).usable then 2 else 3;
      if k == 3 && Accepted(server, 3) && server(3).session != "" {
        var c4 := c3.(session := server(3).session);
        var c5 := Send(c4, PLAY, c4.session);
        assert Verbs(c5.trace) == HANDSHAKE[..4];
        k := if server(3).usable then 4 else 3;
        torn := k == 3 || !Accepted(server, 4);
        SentVerbs(if k == 3 then c4 else c5, TEARDOWN, c4.session);
      }
    }
  }

  /** The client holds, or has torn down, no other session than the one it was given. */
  ghost predicate OwnSession(server: Server, c: State, torn: bool) {
    && (c.session != "" ==> server(3).Reply? && c.session == server(3).session)
    && (torn ==> server(3).Reply? && c.trace != [] && c.trace[|c.trace|-1] == Sent(TEARDOWN, server(3).session))
  }

  /** A client that was started once and since then asked to keep the session alive or to close. */
  ghost predicate OneStart(server: Server, c: State, k: nat, m: nat, torn: bool) {
    && Shape(Verbs(c.trace), k, m, torn)
    && (c.session != "" ==> k == 4 && !torn && c.connected && Learned(server, Verbs(c.trace)))
    && (torn <==> Learned(server, Verbs(c.trace)) && c.session == "")
    && OwnSession(server, c, torn)
  }

  lemma ShapeGrows(vs: seq<Method>, m: nat)
    requires Shape(vs, 4, m, false)
    ensures Shape(vs + [GET_PARAMETER], 4, m + 1, false) && Shape(vs + [TEARDOWN], 4, m, true) && |vs| >= 4
  {
    assert seq(m, _ => GET_PARAMETER) + [GET_PARAMETER] == seq(m + 1, _ => GET_PARAMETER);
  }

  lemma OneStartStep(server: Server, c: State, call: Call, k: nat, m: nat, torn: bool) returns (m': nat, torn': bool)
    requires OneStart(server, c, k, m, torn) && !call.CallStart?
    ensures OneStart(server, Perform(c, server, call), k, m', torn')
  {
    m', torn' := m, torn;
    if c.session != "" {
      ShapeGrows(Verbs(c.trace), m);
      var v := if call.CallClose? then TEARDOWN else GET_PARAMETER;
      SentVerbs(c, v, c.session);
      LearnedStays(server, Verbs(c.trace), v);
      if call.CallClose? { torn' := true; } else { m' := m + 1; }
    }
  }

  /** One start, then any keepalives and closes: the requests are a prefix of OPTIONS, DESCRIBE, SETUP, PLAY,
      GET_PARAMETER*, optionally ended by TEARDOWN; the TEARDOWN is there exactly when a Session id was
      learned and the client no longer holds it. */
  lemma {:induction false} TraceShape(server: Server, reachable: bool, calls: seq<Call>)
    returns (k: nat, m: nat, torn: bool)
    requires forall call :: call in calls ==> !call.CallStart?
    ensures OneStart(server, Run(server, [CallStart(reachable)] + calls), k, m, torn)
  {
    var all := [CallStart(reachable)] + calls;
    if calls == [] {
      assert all[..0] == [] && Run(server, all[..0]) == NEW;
      k, torn := FreshStart(server, reachable);
      m := 0;
    } else {
      var before := calls[..|calls|-1];
      assert all[..|all|-1] == [CallStart(reachable)] + before && all[|all|-1] == calls[|calls|-1];
      k, m, torn := TraceShape(server, reachable, before);
      m, torn := OneStartStep(server, Run(server, [CallStart(reachable)] + before), calls[|calls|-1], k, m, torn);
    }
  }

  /** After a close TEARDOWN has been attempted exactly once if a Session id was learned, never otherwise;
      closing again adds nothing. */
  lemma ClosedOnce(server: Server, reachable: bool, calls: seq<Call>)
    requires forall call :: call in calls ==> !call.CallStart?
    ensures var c := Run(server, [CallStart(reachable)] + calls + [CallClose]);
            && multiset(Verbs(c.trace))[TEARDOWN] == (if Learned(server, Verbs(c.trace)) then 1 else 0)
            && AfterClose(c) == c
  {
    var all := calls + [CallClose];
    assert [CallStart(reachable)] + calls + [CallClose] == [CallStart(reachable)] + all;
    var k, m, torn := TraceShape(server, reachable, all);
    assert ([CallStart(reachable)] + all)[|all|] == CallClose;
    CountTeardown(k, m, torn);
  }

  lemma CountTeardown(k: nat, m: nat, torn: bool)
    requires k <= 4
    ensures multiset(HANDSHAKE[..k] + seq(m, _ => GET_PARAMETER) + if torn then [TEARDOWN] else [])[TEARDOWN]
            == if torn then 1 else 0
  {
    var front := HANDSHAKE[..k] + seq(m, _ => GET_PARAMETER);
    assert forall v :: v in front ==> v != TEARDOWN;
    assert multiset(front)[TEARDOWN] == 0;
  }

  // ---------------------------------------------------------------- which session a request names

  /** The session in force after the requests of `trace`: that of the last SETUP answered with an id, until TEARDOWN. */
  function InForce(server: Server, trace: seq<Sent>): string {
    if trace == [] then ""
    else
      var n, verb, before := |trace|, trace[|trace|-1].verb, InForce(server, trace[..|trace|-1]);
      if verb.SETUP? && Accepted(server, n) && server(n).session != "" then server(n).session
      else if verb.TEARDOWN? then "" else before
  }

  predicate OfSession(m: Method) { m.PLAY? || m.GET_PARAMETER? || m.TEARDOWN? }

  predicate Names(sent: Sent, id: string) {
    if OfSession(sent.verb) then sent.session == id != "" else sent.session == ""
  }

  predicate AllName(server: Server, trace: seq<Sent>) {
    trace == []
    || (AllName(server, trace[..|trace|-1]) && Names(trace[|trace|-1], InForce(server, trace[..|trace|-1])))
  }

  ghost predicate Faithful(server: Server, c: State) {
    c.session == InForce(server, c.trace) && AllName(server, c.trace) && (c.session != "" ==> c.connected)
  }

  lemma SendNames(server: Server, c: State, m: Method, session: string)
    requires Faithful(server, c) && Names(Sent(m, session), c.session) && c.connected
    ensures var c1 := Send(c, m, session);
            && AllName(server, c1.trace) && (!m.SETUP? && !m.TEARDOWN? ==> Faithful(server, c1))
            && (m.TEARDOWN? ==> InForce(server, c1.trace) == "")
            && (m.SETUP? ==> InForce(server, c1.trace) == if Accepted(server, Seq(c1)) && server(Seq(c1)).session != ""
                                                          then server(Seq(c1)).session else c.session)
  {
    assert Send(c, m, session).trace[..|c.trace|] == c.trace;
  }

  lemma CloseNames(server: Server, c: State)
    requires Faithful(server, c)
    ensures Faithful(server, AfterClose(c))
  {
    if c.session != "" { SendNames(server, c, TEARDOWN, c.session); }
  }

  lemma PlayNames(server: Server, c: State, usable: bool)
    requires Faithful(server, c) && c.session != ""
    ensures Faithful(server, AfterPlay(c, server, usable).0)
  {
    CloseNames(server, c);
    SendNames(server, c, PLAY, c.session);
    CloseNames(server, Send(c, PLAY, c.session));
  }

  lemma SetupNames(server: Server, c: State)
    requires Faithful(server, c) && c.connected
    ensures Faithful(server, AfterSetup(c, server).0)
  {
    var c1 := Send(c, SETUP, "");
    SendNames(server, c, SETUP, "");
    if Accepted(server, Seq(c1)) && server(Seq(c1)).session != "" {
      PlayNames(server, c1.(session := server(Seq(c1)).session), server(Seq(c1)).usable);
    } else {
      CloseNames(server, c1);
    }
  }

  lemma StartNames(server: Server, c: State, reachable: bool)
    requires Faithful(server, c)
    ensures Faithful(server, AfterStart(c, server, reachable).0)
  {
    CloseNames(server, c);
    if c.connected || reachable {
      var c0 := c.(connected := true);
      SendNames(server, c0, OPTIONS, "");
      var c1 := Send(c0, OPTIONS, "");
      CloseNames(server, c1);
      SendNames(server, c1, DESCRIBE, "");
      var c2 := Send(c1, DESCRIBE, "");
      CloseNames(server, c2);
      SetupNames(server, c2);
    }
  }

  /** Over any calls: PLAY, GET_PARAMETER and TEARDOWN name the session in force, and no other request names one. */
  lemma {:induction false} RequestsNameTheirSession(server: Server, calls: seq<Call>)
    ensures Faithful(server, Run(server, calls))
  {
    if calls != [] {
      var c := Run(server, calls[..|calls|-1]);
      RequestsNameTheirSession(server, calls[..|calls|-1]);
      match calls[|calls|-1]
      case CallStart(reachable) => StartNames(server, c, reachable);
      case CallGetParameter => if c.session != "" { SendNames(server, c, GET_PARAMETER, c.session); }
      case CallClose => CloseNames(server, c);
    }
  }

  // ---------------------------------------------------------------- the scanner's side

  /** The scanner has executed request `n`, whatever became of its reply. */
  predicate Executed(server: Server, n: nat) {
    match server(n)
    case Lost(executed, _) => executed
    case Reply(status, _, _, _) => status == 200
  }

  function OpenedBy(server: Server, n: nat): string {
    match server(n)
    case Lost(_, id) => id
    case Reply(_, _, session, _) => session
  }

  /** The sessions open at the scanner after the requests of `trace`. */
  function AtScanner(server: Server, trace: seq<Sent>): multiset<string> {
    if trace == [] then multiset{}
    else
      var n, before, last := |trace|, AtScanner(server, trace[..|trace|-1]), trace[|trace|-1];
      if last.verb.SETUP? && Executed(server, n) then before + multiset{OpenedBy(server, n)}
      else if last.verb.TEARDOWN? && Executed(server, n) then before - multiset{last.session}
      else before
  }

  lemma {:induction false} QuietRequests(server: Server, trace: seq<Sent>, from: nat)
    requires from <= |trace| && forall i :: from <= i < |trace| ==> !trace[i].verb.SETUP? && !trace[i].verb.TEARDOWN?
    ensures AtScanner(server, trace) == AtScanner(server, trace[..from])
  {
    if from == |trace| {
      assert trace[..from] == trace;
    } else {
      var front := trace[..|trace|-1];
      assert front[..from] == trace[..from];
      QuietRequests(server, front, from);
    }
  }

  lemma FrontVerbs(trace: seq<Sent>, k: nat, m: nat, torn: bool, i: nat)
    requires Shape(Verbs(trace), k, m, torn) && i < |trace| - (if torn then 1 else 0)
    ensures k <= 4 && i < k + m && trace[i].verb == if i < k then HANDSHAKE[i] else GET_PARAMETER
  {
    assert trace[i].verb == Verbs(trace)[i];
  }

  lemma ThirdOpens(server: Server, front: seq<Sent>)
    requires |front| >= 3 && front[2].verb.SETUP?
    requires forall i :: 0 <= i < |front| && i != 2 ==> !front[i].verb.SETUP? && !front[i].verb.TEARDOWN?
    ensures AtScanner(server, front) == if Executed(server, 3) then multiset{OpenedBy(server, 3)} else multiset{}
  {
    QuietRequests(server, front, 3);
    QuietRequests(server, front[..2], 0);
    assert front[..3][..2] == front[..2] && front[..2][..0] == [];
  }

  lemma ShapeVerbs(trace: seq<Sent>, k: nat, m: nat, torn: bool)
    requires Shape(Verbs(trace), k, m, torn)
    ensures var front := if torn then trace[..|trace|-1] else trace;
            && |front| == k + m && (k < 3 ==> |front| < 3) && (k >= 3 ==> front[2].verb.SETUP?)
            && forall i :: 0 <= i < |front| && i != 2 ==> !front[i].verb.SETUP? && !front[i].verb.TEARDOWN?
  {
    var front := if torn then trace[..|trace|-1] else trace;
    forall i | 0 <= i < |front| ensures i < k + m && front[i].verb == if i < k then HANDSHAKE[i] else GET_PARAMETER {
      FrontVerbs(trace, k, m, torn, i);
    }
  }

  /** A trace of one start: the scanner has the session its SETUP opened, until a TEARDOWN for it is executed. */
  lemma ShapeAtScanner(server: Server, trace: seq<Sent>, k: nat, m: nat, torn: bool)
    requires Shape(Verbs(trace), k, m, torn)
    ensures var front := if torn then trace[..|trace|-1] else trace;
            AtScanner(server, front)
            == if k >= 3 && Executed(server, 3) then multiset{OpenedBy(server, 3)} else multiset{}
  {
    var front := if torn then trace[..|trace|-1] else trace;
    ShapeVerbs(trace, k, m, torn);
    if k < 3 {
      QuietRequests(server, front, 0);
      assert front[..0] == [];
    } else {
      ThirdOpens(server, front);
    }
  }

  lemma TornAtScanner(server: Server, trace: seq<Sent>, setup: bool, torn: bool)
    requires torn ==> trace != [] && server(3).Reply? && trace[|trace|-1] == Sent(TEARDOWN, server(3).session)
    requires AtScanner(server, if torn then trace[..|trace|-1] else trace)
             == if setup then multiset{OpenedBy(server, 3)} else multiset{}
    ensures !setup ==> AtScanner(server, trace) == multiset{}
    ensures setup ==> (AtScanner(server, trace) == multiset{} <==> torn && Executed(server, |trace|))
  {
    assert OpenedBy(server, 3) in multiset{OpenedBy(server, 3)};
  }

  /** For a closed client that was started once: what its SETUP opened is closed again exactly when it was told the id,
      and its TEARDOWN was executed. */
  lemma ClosedAtScanner(server: Server, c: State, k: nat, m: nat, torn: bool)
    requires OneStart(server, c, k, m, torn) && c.session == ""
    ensures var setup := k >= 3 && Executed(server, 3);
            && (!setup ==> AtScanner(server, c.trace) == multiset{})
            && (setup ==> (AtScanner(server, c.trace) == multiset{}
                           <==> Learned(server, Verbs(c.trace)) && Executed(server, |c.trace|)))
  {
    ShapeAtScanner(server, c.trace, k, m, torn);
    TornAtScanner(server, c.trace, k >= 3 && Executed(server, 3), torn);
  }

  /** Whatever the scanner opened for a client that is started once, kept alive and closed: it is closed again if and
      only if the SETUP reply came and was not refused (another CSeq, no id) and the TEARDOWN was executed. */
  lemma OpenedSessionTornIffReplyKept(server: Server, reachable: bool, calls: seq<Call>)
    requires forall call :: call in calls ==> !call.CallStart?
    ensures var trace := Run(server, [CallStart(reachable)] + calls + [CallClose]).trace;
            var setup := |trace| >= 3 && Verbs(trace)[2] == SETUP && Executed(server, 3);
            && (!setup ==> AtScanner(server, trace) == multiset{})
            && (setup ==> (AtScanner(server, trace) == multiset{}
                           <==> Learned(server, Verbs(trace)) && Executed(server, |trace|)))
  {
    var all := calls + [CallClose];
    assert [CallStart(reachable)] + calls + [CallClose] == [CallStart(reachable)] + all;
    var k, m, torn := TraceShape(server, reachable, all);
    assert ([CallStart(reachable)] + all)[|all|] == CallClose;
    var c := Run(server, [CallStart(reachable)] + all);
    ClosedAtScanner(server, c, k, m, torn);
    HandshakeHasSetup(Verbs(c.trace), k, m, torn);
  }

  lemma HandshakeHasSetup(vs: seq<Method>, k: nat, m: nat, torn: bool)
    requires Shape(vs, k, m, torn)
    ensures |vs| >= 3 && vs[2] == SETUP <==> k >= 3
  {
  }

  /** It happens: the SETUP is executed, its reply is lost, and closing the client does not help. */
  lemma LostReplyLeaves(server: Server)
    requires server(1) == Reply(200, None, "", true) && server(2) == Reply(200, None, "", true)
    requires server(3) == Lost(true, "id")
    ensures AtScanner(server, Run(server, [CallStart(true), CallClose]).trace) == multiset{"id"}
  {
    var once, both := [CallStart(true)], [CallStart(true), CallClose];
    var t1, t2 := [Sent(OPTIONS, "")], [Sent(OPTIONS, ""), Sent(DESCRIBE, "")];
    var t3 := t2 + [Sent(SETUP, "")];
    assert both[..1] == once && once[..0] == [] && Run(server, []) == NEW;
    assert Run(server, once) == State(false, "", t3) by { LostStart(server); }
    assert Run(server, both) == AfterClose(Run(server, once));
    assert t3[..2] == t2 && t2[..1] == t1 && t1[..0] == [];
    assert AtScanner(server, t1) == multiset{} && AtScanner(server, t2) == multiset{};
  }

  lemma LostStart(server: Server)
    requires server(1) == Reply(200, None, "", true) && server(2) == Reply(200, None, "", true) && server(3).Lost?
    ensures AfterStart(NEW, server, true)
            == (State(false, "", [Sent(OPTIONS, ""), Sent(DESCRIBE, "")] + [Sent(SETUP, "")]), false)
  {
    var c1 := Send(NEW.(connected := true), OPTIONS, "");
    var c2 := Send(c1, DESCRIBE, "");
    assert c1.trace == [Sent(OPTIONS, "")] && c2.trace == [Sent(OPTIONS, ""), Sent(DESCRIBE, "")];
    assert AfterSetup(c2, server) == (AfterClose(Send(c2, SETUP, "")), false);
  }
}
