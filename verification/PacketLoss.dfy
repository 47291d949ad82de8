/**
 The receive arm of the panel firmware (audio.c, run_session): slice the RTP payload, account for the sequence
 number, queue the samples. Sequence numbers are 16 bits wide and the counters 32, both wrap.
 */
module PacketLoss {
  import opened Options
  import opened PlaybackRing
  import opened Ulaw
  import Rtp

  const WRAP16 := 0x1_0000
  const WRAP32 := 0x1_0000_0000

  /** The cast to int16_t. */
  function Int16(x: int): (r: int)
    ensures -0x8000 <= r < 0x8000 && (r - x) % WRAP16 == 0
  {
    (x + 0x8000) % WRAP16 - 0x8000
  }

  // ---------------------------------------------------------------- specification

  /** `expected` is None until the first packet of the session. */
  datatype Stats = Stats(expected: Option<nat>, packets: nat, bytes: nat, lost: nat)

  const START := Stats(None, 0, 0, 0)

  function Skipped(expected: int, seqno: int): nat {
    var gap := Int16(seqno - expected);
    if gap > 0 then gap else 0
  }

  function Counted(s: Stats, seqno: nat, size: nat): Stats {
    var skipped := if s.expected.Some? then Skipped(s.expected.value, seqno) else 0;
    Stats(Some((seqno + 1) % WRAP16), (s.packets + 1) % WRAP32, (s.bytes + size) % WRAP32, (s.lost + skipped) % WRAP32)
  }

  // ---------------------------------------------------------------- the session

  class Session {
    const panel: Panel
    var haveSeq: bool
    var expSeq: nat
    var packets: nat
    var bytes: nat
    var lost: nat

    ghost predicate Valid()
      reads this, panel
    {
      panel.Valid() && packets < WRAP32 && bytes < WRAP32 && lost < WRAP32
    }

    ghost function Now(): Stats
      reads this
    {
      Stats(if haveSeq then Some(expSeq) else None, packets, bytes, lost)
    }

    /** PLAY was answered: the ring is emptied and the counters start at 0. */
    constructor (panel: Panel)
      requires panel.Valid()
      modifies panel`head, panel`tail, panel`count, panel`underruns, panel`status
      ensures Valid() && this.panel == panel && Now() == START
      ensures panel.Now() == old(panel.Now()).(queue := [], underruns := 0, status := Buffering)
    {
      this.panel := panel;
      haveSeq, expSeq, packets, bytes, lost := false, 0, 0, 0, 0;
      new;
      panel.RingClear();
      panel.underruns := 0;
      panel.status := Buffering;
    }

    /** The part under the status lock. */
    method Account(seqno: nat, size: nat)
      requires Valid()
      modifies this`haveSeq, this`expSeq, this`packets, this`bytes, this`lost
      ensures Valid() && Now() == Counted(old(Now()), seqno, size)
    {
      if haveSeq && seqno != expSeq {
        var gap := Int16(seqno - expSeq);
        if gap > 0 {
          lost := (lost + gap) % WRAP32;
        }
      }
      packets := (packets + 1) % WRAP32;
      bytes := (bytes + size) % WRAP32;
      haveSeq, expSeq := true, (seqno + 1) % WRAP16;
    }

    /** Where in the first `n` bytes of the buffer the payload is, and the sequence number. */
    method Slice(pkt: array<Byte>, n: nat) returns (r: Option<(int, int, nat)>)
      requires n <= pkt.Length
      ensures r == Rtp.PanelSlice(pkt[..], n)
    {
      if n < 12 || Rtp.Version(pkt[0]) != 2 { return None; }
      var off := 12 + Rtp.SourceCount(pkt[0]) * 4;
      if Rtp.Extended(pkt[0]) {
        if n >= off + 4 {
          off := off + (4 + 4 * ((pkt[off+2] as int) * 0x100 + pkt[off+3] as int));
        }
      }
      var end: int := n;
      if Rtp.Padded(pkt[0]) {
        end := end - pkt[n-1];
      }
      var seqno := (pkt[2] as int) * 0x100 + pkt[3] as int;
      r := if Rtp.PayloadType(pkt[1]) == 0 && end > off then Some((off, end, seqno)) else None;
    }

    /** A datagram of `n` bytes was received into `pkt`. */
    method Receive(pkt: array<Byte>, n: nat)
      requires Valid() && n <= pkt.Length
      modifies this`haveSeq, this`expSeq, this`packets, this`bytes, this`lost
      modifies panel`head, panel`tail, panel`count, panel.ring
      ensures Valid()
      ensures match Rtp.PanelSlice(old(pkt[..]), n)
              case None => Now() == old(Now()) && panel.Now() == old(panel.Now())
              case Some((off, end, seqno)) =>
                && 0 <= off <= end <= n && Now() == Counted(old(Now()), seqno, end - off)
                && panel.Now() == AfterPush(old(panel.Now()), old(pkt[off..end]))
    {
      var slice := Slice(pkt, n);
      match slice {
        case None =>
        case Some((off, end, seqno)) =>
          Rtp.PanelSliceInside(pkt[..], n);
          Account(seqno, end - off);
          panel.RingPushAll(pkt[off..end]);
      }
    }
  }

  // ---------------------------------------------------------------- whole runs

  /** A packet as sent: its number in the sender's unbounded count, and its payload. */
  datatype Packet = Packet(number: nat, payload: seq<Byte>)

  /** The counters after the packets arrived in this order, each carrying the low 16 bits of its number. */
  function Tally(run: seq<Packet>): Stats {
    if run == [] then START
    else Counted(Tally(run[..|run|-1]), run[|run|-1].number % WRAP16, |run[|run|-1].payload|)
  }

  function Bytes(run: seq<Packet>): nat {
    if run == [] then 0 else Bytes(run[..|run|-1]) + |run[|run|-1].payload|
  }

  /** How far packet i's number is from the one after its predecessor's. */
  function Jump(run: seq<Packet>, i: nat): int
    requires 0 < i < |run|
  {
    run[i].number - (run[i-1].number + 1)
  }

  /** All that was ever added to `lost`. */
  function AllSkipped(run: seq<Packet>): nat {
    if |run| <= 1 then 0
    else AllSkipped(run[..|run|-1])
         + Skipped((run[|run|-2].number + 1) % WRAP16, run[|run|-1].number % WRAP16)
  }

  /** The counters are exact up to the width of their words. */
  lemma {:induction false} TallyIs(run: seq<Packet>)
    ensures Tally(run).packets == |run| % WRAP32 && Tally(run).bytes == Bytes(run) % WRAP32
    ensures Tally(run).lost == AllSkipped(run) % WRAP32
    ensures Tally(run).expected == if run == [] then None else Some((run[|run|-1].number + 1) % WRAP16)
  {
    if run != [] {
      var front, last := run[..|run|-1], run[|run|-1];
      TallyIs(front);
      AddWraps(|front|, 1, WRAP32);
      AddWraps(Bytes(front), |last.payload|, WRAP32);
      AddWraps(last.number, 1, WRAP16);
      if front != [] {
        assert front[|front|-1] == run[|run|-2];
        AddWraps(AllSkipped(front), Skipped((run[|run|-2].number + 1) % WRAP16, last.number % WRAP16), WRAP32);
      }
    }
  }

  lemma AddWraps(a: nat, b: nat, width: nat)
    requires width == WRAP16 || width == WRAP32
    ensures (a % width + b) % width == (a + b) % width
  {
  }

  /** One step: jumps back and jumps of 32768 or more add less than the jump, all others exactly the jump. */
  lemma SkippedIsJump(jump: int, from: nat)
    requires from + jump >= 0
    ensures var s := Skipped(from % WRAP16, (from + jump) % WRAP16);
            && (-0x8000 <= jump < 0x8000 ==> s == if jump > 0 then jump else 0)
            && (jump >= 0x8000 ==> s < jump)
  {
    var d := (from + jump) % WRAP16 - from % WRAP16;
    assert (d - jump) % WRAP16 == 0;
    assert (Int16(d) - jump) % WRAP16 == 0;
  }

  predicate Increasing(run: seq<Packet>) { forall i :: 0 < i < |run| ==> Jump(run, i) >= 0 }

  /** The receiver can tell how far each packet is from the one expected. */
  predicate Near(run: seq<Packet>) { forall i :: 0 < i < |run| ==> -0x8000 <= Jump(run, i) < 0x8000 }

  /** Numbers from the first to the last, less packets received. */
  function Shortfall(run: seq<Packet>): int
    requires run != []
  {
    run[|run|-1].number - run[0].number + 1 - |run|
  }

  /** How far the numbers went back in all. */
  function WentBack(run: seq<Packet>): nat {
    if |run| <= 1 then 0
    else WentBack(run[..|run|-1]) + (if Jump(run, |run| - 1) < 0 then -Jump(run, |run| - 1) else 0)
  }

  lemma FrontJumps(run: seq<Packet>)
    requires |run| > 1
    ensures var front := run[..|run|-1];
            && front[|front|-1] == run[|run|-2] && front[0] == run[0]
            && (forall i :: 0 < i < |front| ==> Jump(front, i) == Jump(run, i))
  {
  }

  /** Packets lost on the way, in order: the count is exact if and only if no jump reaches 32768. */
  lemma {:induction false} LossExactIffNear(run: seq<Packet>)
    requires run != [] && Increasing(run)
    ensures AllSkipped(run) <= Shortfall(run)
    ensures AllSkipped(run) == Shortfall(run) <==> Near(run)
  {
    if |run| > 1 {
      var front, last := run[..|run|-1], |run| - 1;
      FrontJumps(run);
      assert Increasing(front);
      LossExactIffNear(front);
      assert Jump(run, last) >= 0;
      SkippedIsJump(Jump(run, last), run[last-1].number + 1);
      assert Near(run) <==> Near(front) && Jump(run, last) < 0x8000 by {
        forall i | 0 < i < last ensures Jump(run, i) == Jump(front, i) {
        }
      }
    }
  }

  /** In any order: each step back is counted as that many packets lost. */
  lemma {:induction false} LateArrivalsCountAsLost(run: seq<Packet>)
    requires run != [] && Near(run)
    ensures AllSkipped(run) == Shortfall(run) + WentBack(run)
  {
    if |run| > 1 {
      FrontJumps(run);
      LateArrivalsCountAsLost(run[..|run|-1]);
      SkippedIsJump(Jump(run, |run| - 1), run[|run|-2].number + 1);
    }
  }

  lemma {:induction false} WentBackNowhere(run: seq<Packet>)
    ensures WentBack(run) == 0 <==> Increasing(run)
  {
    if |run| > 1 {
      FrontJumps(run);
      WentBackNowhere(run[..|run|-1]);
      assert Increasing(run) <==> Increasing(run[..|run|-1]) && Jump(run, |run| - 1) >= 0;
    }
  }

  /** So with near jumps the count is the shortfall if and only if the packets came in increasing order. */
  lemma LossExactIffInOrder(run: seq<Packet>)
    requires run != [] && Near(run)
    ensures AllSkipped(run) == Shortfall(run) <==> Increasing(run)
  {
    LateArrivalsCountAsLost(run);
    WentBackNowhere(run);
  }

  /** Two packets swapped: nothing is missing and two are counted lost. */
  lemma SwapCountsTwo(n: nat)
    ensures AllSkipped([Packet(n, []), Packet(n + 2, []), Packet(n + 1, []), Packet(n + 3, [])]) == 2
  {
    var run := [Packet(n, []), Packet(n + 2, []), Packet(n + 1, []), Packet(n + 3, [])];
    assert Jump(run, 1) == 1 && Jump(run, 2) == -2 && Jump(run, 3) == 1;
    assert Near(run);
    LateArrivalsCountAsLost(run);
    var r3, r2 := run[..3], run[..2];
    assert Jump(r3, 2) == -2 && Jump(r2, 1) == 1 && r3[..2] == r2;
    assert WentBack(r2) == WentBack(r2[..1]) + 0;
    assert WentBack(r3) == WentBack(r2) + 2;
    assert WentBack(run) == WentBack(r3) + 0;
  }

  function Numbers(run: seq<Packet>): (r: set<nat>)
    ensures forall k :: k in r <==> exists i :: 0 <= i < |run| && run[i].number == k
  {
    if run == [] then {} else Numbers(run[..|run|-1]) + {run[|run|-1].number}
  }

  /** The greatest number received. */
  function Top(run: seq<Packet>): (top: nat)
    requires run != []
    ensures top in Numbers(run) && forall k :: k in Numbers(run) ==> k <= top
  {
    if |run| == 1 then run[0].number
    else
      var low, last := Top(run[..|run|-1]), run[|run|-1].number;
      if last > low then last else low
  }

  function Between(low: nat, high: nat): (r: set<nat>)
    ensures forall k :: k in r <==> low < k < high
    ensures |r| == if high > low then high - low - 1 else 0
    decreases high
  {
    if high <= low + 1 then {} else Between(low, high - 1) + {high - 1}
  }

  /** Numbers above the first and below the greatest that never arrived. */
  function Missing(run: seq<Packet>): set<nat>
    requires run != []
  {
    Between(run[0].number, Top(run)) - Numbers(run)
  }

  lemma {:induction false} MissingAtMost(run: seq<Packet>)
    requires run != []
    ensures |Missing(run)| <= Shortfall(run) + WentBack(run)
  {
    if |run| == 1 {
      assert Missing(run) == {};
    } else {
      var front, next := run[..|run|-1], run[|run|-1].number;
      FrontJumps(run);
      MissingAtMost(front);
      assert front[|front|-1].number <= Top(front);
      var skipped := Shortfall(run) + WentBack(run) - Shortfall(front) - WentBack(front);
      MissingStep(run[0].number, Top(front), next, Numbers(front), Shortfall(front) + WentBack(front), skipped);
    }
  }

  /** With near jumps the count never falls short of what is really missing. */
  lemma NeverUndercounts(run: seq<Packet>)
    requires run != [] && Near(run)
    ensures |Missing(run)| <= AllSkipped(run)
  {
    LateArrivalsCountAsLost(run);
    MissingAtMost(run);
  }

  lemma MissingStep(first: nat, low: nat, next: nat, numbers: set<nat>, before: nat, skipped: nat)
    requires low in numbers && |Between(first, low) - numbers| <= before && next - low - 1 <= skipped
    ensures |Between(first, if next > low then next else low) - (numbers + {next})| <= before + skipped
  {
    MissingGrows(first, low, next, numbers);
    Fits(Between(first, if next > low then next else low) - (numbers + {next}),
         Between(first, low) - numbers, Between(low, next));
  }

  lemma MissingGrows(first: nat, low: nat, next: nat, numbers: set<nat>)
    requires low in numbers
    ensures Between(first, if next > low then next else low) - (numbers + {next})
            <= (Between(first, low) - numbers) + Between(low, next)
  {
    var top := if next > low then next else low;
    forall k | k in Between(first, top) - (numbers + {next})
      ensures k in (Between(first, low) - numbers) + Between(low, next)
    {
      assert first < k < top && k != low;
    }
  }

  lemma Fits<T>(a: set<T>, b: set<T>, c: set<T>)
    requires a <= b + c
    ensures |a| <= |b| + |c|
  {
    var rest := a - b;
    assert rest <= c && a <= b + rest;
    SubsetSize(rest, c);
    SubsetSize(a, b + rest);
    assert |b + rest| == |b| + |rest|;
  }

  lemma SubsetSize<T>(a: set<T>, b: set<T>)
    requires a <= b
    ensures |a| <= |b|
  {
    assert b == a + (b - a);
  }

  // ---------------------------------------------------------------- from the wire to the ring

  /** Every sound packet of type 0 with a payload, of whatever header size, is taken whole: its payload is the
      slice queued and its sequence number the one counted, whatever else the buffer holds after it. */
  lemma SoundPacketTaken(f: Rtp.Frame, pkt: Rtp.Datagram)
    requires Rtp.Sound(f) && f.pt == 0 && f.payload != [] && Rtp.Serialise(f) <= pkt
    ensures var n := |Rtp.Serialise(f)|;
            match Rtp.PanelSlice(pkt, n)
            case None => false
            case Some((off, end, seqno)) => 0 <= off <= end <= n && pkt[off..end] == f.payload && seqno == f.seqno
  {
    Rtp.ParseSerialised(f);
    assert pkt[..|Rtp.Serialise(f)|] == Rtp.Serialise(f);
    Rtp.PanelTakesWhatGoAccepts(pkt, |Rtp.Serialise(f)|);
  }
}
