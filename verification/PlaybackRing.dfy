/** The receive ring and playback step of the panel firmware (audio.c). */
module PlaybackRing {
  import opened Options
  import opened Rings
  import opened Ulaw
  import opened Upsampler

  // ring_push, ring_clear, and one pass of playback_task. Each takes the same lock for all it does to the ring, so
  // every interleaving of the network task and the playback task is a sequence of these steps.

  const RING_SAMPLES := 8000
  const PREBUFFER := 1600
  const MAX_BUFFER := 4000
  const CHUNK := 160

  // ---------------------------------------------------------------- samples

  function Decoded(ulaw: seq<Byte>): seq<int> { seq(|ulaw|, i requires 0 <= i < |ulaw| => Pcm(ulaw[i])) }

  // ---------------------------------------------------------------- specification

  datatype Status = Buffering | Playing | Other

  /** `queue`: buffered samples, oldest first. `last`: the sample the interpolation carries over. */
  datatype Player = Player(queue: seq<int>, buffering: bool, last: int, underruns: nat, status: Status)

  function AfterPush(p: Player, ulaw: seq<Byte>): Player {
    p.(queue := TakeLast(p.queue + Decoded(ulaw), RING_SAMPLES))
  }

  lemma TakeNone(p: Player, ulaw: seq<Byte>)
    requires |p.queue| <= RING_SAMPLES
    ensures AfterPush(p, ulaw[..0]) == p
  {
    assert p.queue + Decoded(ulaw[..0]) == p.queue;
  }

  /** Pushing is one sample at a time. */
  lemma PushNext(p: Player, ulaw: seq<Byte>, i: nat)
    requires i < |ulaw|
    ensures AfterPush(p, ulaw[..i+1]).queue
            == TakeLast(AfterPush(p, ulaw[..i]).queue + [Pcm(ulaw[i])], RING_SAMPLES)
  {
    TakeLastSnoc(p.queue + Decoded(ulaw[..i]), Pcm(ulaw[i]), RING_SAMPLES);
    assert p.queue + Decoded(ulaw[..i+1]) == p.queue + Decoded(ulaw[..i]) + [Pcm(ulaw[i])];
  }

  function AfterClear(p: Player): Player { p.(queue := []) }

  /** playback_task opens the codec: prebuffer again, from silence. */
  function AfterOpen(p: Player): Player { p.(buffering := true, last := 0) }

  /** The trim loop: drop the oldest chunk while there is more than MAX_BUFFER. */
  function Trimmed(q: seq<int>): seq<int>
    decreases |q|
  {
    if |q| > MAX_BUFFER then Trimmed(q[CHUNK..]) else q
  }

  /** One pass while playing: the chunk taken, if any. */
  function AfterPlay(p: Player): (Player, Option<seq<int>>) {
    if p.buffering && |p.queue| < PREBUFFER then (p.(last := 0), None)
    else
      var status := if p.buffering && p.status.Buffering? then Playing else p.status;
      var q := Trimmed(p.queue);
      if |q| < CHUNK then
        (Player(q, true, 0, p.underruns + 1, if status.Playing? then Buffering else status), None)
      else (Player(q[CHUNK..], false, q[CHUNK-1], p.underruns, status), Some(q[..CHUNK]))
  }

  /** Trimming ends, drops only whole chunks, only at the old end, and no more of them than needed. */
  lemma {:induction false} TrimDropsOldestChunks(q: seq<int>) returns (k: nat)
    ensures 160 * k <= |q| && Trimmed(q) == q[160 * k..] && |Trimmed(q)| <= 4000
    ensures k > 0 ==> |q| - 160 * (k - 1) > 4000
    decreases |q|
  {
    if |q| > MAX_BUFFER {
      k := TrimDropsOldestChunks(q[CHUNK..]);
      k := k + 1;
    } else {
      k := 0;
    }
  }

  // ---------------------------------------------------------------- the firmware's static state

  /** head is where the `count` samples from tail on end. */
  predicate HeadIs(head: int, tail: int, count: int) { head == (tail + count) % RING_SAMPLES }

  lemma MoveTail(head: int, tail: int, count: int, n: int)
    requires 0 <= tail < RING_SAMPLES && 0 <= n <= count <= RING_SAMPLES && HeadIs(head, tail, count)
    ensures HeadIs(head, (tail + n) % RING_SAMPLES, count - n)
  {
  }

  lemma MoveHead(head: int, tail: int, count: int)
    requires 0 <= tail < RING_SAMPLES && 0 <= count < RING_SAMPLES && HeadIs(head, tail, count)
    ensures HeadIs((head + 1) % RING_SAMPLES, tail, count + 1)
  {
  }

  class Panel {
    const ring: array<int>
    const input: array<int>
    const out: array<int>
    var head: int
    var tail: int
    var count: int
    var buffering: bool
    var last: int
    var underruns: nat
    var status: Status

    /** The indices agree at every release of the lock. */
    ghost predicate Valid()
      reads this
    {
      && ring.Length == RING_SAMPLES && input.Length == CHUNK && out.Length == 4 * CHUNK
      && ring != input && ring != out && input != out
      && 0 <= tail < RING_SAMPLES && 0 <= count <= RING_SAMPLES && HeadIs(head, tail, count)
    }

    ghost function Now(): (p: Player)
      requires Valid()
      reads this, ring
      ensures |p.queue| == count
    {
      Player(Ring(ring[..], tail, count), buffering, last, underruns, status)
    }

    constructor ()
      ensures Valid() && Now() == Player([], true, 0, 0, Other)
      ensures fresh(ring) && fresh(input) && fresh(out)
    {
      ring, input, out := new int[RING_SAMPLES], new int[CHUNK], new int[4 * CHUNK];
      head, tail, count, buffering, last, underruns, status := 0, 0, 0, true, 0, 0, Other;
    }

    /** Overflow drops the oldest sample. */
    method Store(x: int)
      requires Valid()
      modifies this`head, this`tail, this`count, ring
      ensures Valid() && Now() == old(Now()).(queue := TakeLast(old(Now()).queue + [x], RING_SAMPLES))
    {
      if count == RING_SAMPLES {
        RingPop(ring[..], tail, count);
        MoveTail(head, tail, count, 1);
        tail := (tail + 1) % RING_SAMPLES;
        count := count - 1;
      }
      ghost var before := ring[..];
      RingPush(before, tail, count, x);
      MoveHead(head, tail, count);
      ring[head] := x;
      assert ring[..] == before[(tail + count) % RING_SAMPLES := x];
      head := (head + 1) % RING_SAMPLES;
      count := count + 1;
    }

    method RingPushAll(ulaw: seq<Byte>)
      requires Valid()
      modifies this`head, this`tail, this`count, ring
      ensures Valid() && Now() == AfterPush(old(Now()), ulaw)
      ensures count == if old(count) + |ulaw| > 8000 then 8000 else old(count) + |ulaw|
    {
      ghost var was := Now();
      TakeNone(was, ulaw);
      var i := 0;
      while i < |ulaw|
        invariant i <= |ulaw| && Valid() && Now() == AfterPush(was, ulaw[..i])
      {
        PushNext(was, ulaw, i);
        Store(Pcm(ulaw[i]));
        i := i + 1;
      }
      assert ulaw[..i] == ulaw;
    }

    method RingClear()
      requires Valid()
      modifies this`head, this`tail, this`count
      ensures Valid() && Now() == AfterClear(old(Now())) && count == 0
    {
      head, tail, count := 0, 0, 0;
    }

    method Open()
      requires Valid()
      modifies this`buffering, this`last
      ensures Valid() && Now() == AfterOpen(old(Now())) && buffering && last == 0
    {
      buffering, last := true, 0;
    }

    /** Clock drift: drop the oldest whole chunks until MAX_BUFFER is met. */
    method Trim()
      requires Valid()
      modifies this`tail, this`count
      ensures Valid() && Now() == old(Now()).(queue := Trimmed(old(Now()).queue))
    {
      while count > MAX_BUFFER
        invariant Valid() && Trimmed(Ring(ring[..], tail, count)) == Trimmed(old(Now()).queue)
        decreases count
      {
        RingSkip(ring[..], tail, count, CHUNK);
        MoveTail(head, tail, count, CHUNK);
        tail := (tail + CHUNK) % RING_SAMPLES;
        count := count - CHUNK;
      }
    }

    method TakeChunk()
      requires Valid() && count >= CHUNK
      modifies this`tail, this`count, input
      ensures Valid() && Now() == old(Now()).(queue := old(Now()).queue[CHUNK..])
      ensures input[..] == old(Now()).queue[..CHUNK]
    {
      ghost var q := Now().queue;
      var i := 0;
      while i < CHUNK
        invariant 0 <= i <= CHUNK && count == old(count) && 0 <= tail < RING_SAMPLES && HeadIs(head, tail, count - i)
        invariant Ring(ring[..], tail, count - i) == q[i..]
        invariant input[..i] == q[..i]
      {
        RingPop(ring[..], tail, count - i);
        MoveTail(head, tail, count - i, 1);
        input[i] := ring[tail];
        tail := (tail + 1) % RING_SAMPLES;
        i := i + 1;
      }
      count := count - CHUNK;
    }

    /** One pass of the task with the codec open: the locked part, then the samples handed to the codec. */
    method Play() returns (got: bool)
      requires Valid()
      modifies this`tail, this`count, this`buffering, this`last, this`underruns, this`status, input, out
      ensures Valid()
      ensures var (p, chunk) := AfterPlay(old(Now()));
              && Now() == p && got == chunk.Some?
              && out[..] == (if got then Interpolated(old(last), chunk.value) else Zeros(4 * CHUNK))
    {
      got := false;
      if buffering && count >= PREBUFFER {
        buffering := false;
        if status.Buffering? { status := Playing; }
      }
      if !buffering {
        Trim();
        if count >= CHUNK {
          TakeChunk();
          got := true;
        } else {
          buffering := true;
          underruns := underruns + 1;
          if status.Playing? { status := Buffering; }
        }
      }
      if got {
        last := Interpolate(last, input, out);
      } else {
        Silence();
        last := 0;
      }
    }

    method Silence()
      requires Valid()
      modifies out
      ensures out[..] == Zeros(4 * CHUNK)
    {
      var i := 0;
      while i < out.Length
        invariant i <= out.Length && forall k :: 0 <= k < i ==> out[k] == 0
      {
        out[i] := 0;
        i := i + 1;
      }
    }
  }

  // ---------------------------------------------------------------- any interleaving of the two tasks

  datatype Step = Receive(ulaw: seq<Byte>) | Play | Clear | Open

  function Perform(p: Player, step: Step): (Player, Option<seq<int>>) {
    match step
    case Receive(ulaw) => (AfterPush(p, ulaw), None)
    case Play => AfterPlay(p)
    case Clear => (AfterClear(p), None)
    case Open => (AfterOpen(p), None)
  }

  function Run(steps: seq<Step>): Player {
    if steps == [] then Player([], true, 0, 0, Other) else Perform(Run(steps[..|steps|-1]), steps[|steps|-1]).0
  }

  function Received(steps: seq<Step>): seq<int> {
    if steps == [] then []
    else Received(steps[..|steps|-1]) + (if steps[|steps|-1].Receive? then Decoded(steps[|steps|-1].ulaw) else [])
  }

  /** Where in the received samples each chunk played starts. */
  function ChunkStarts(steps: seq<Step>): seq<int> {
    if steps == [] then []
    else
      var before, step := steps[..|steps|-1], steps[|steps|-1];
      ChunkStarts(before) +
      (if Perform(Run(before), step).1.Some?
       then [|Received(before)| - |Trimmed(Run(before).queue)|] else [])
  }

  function Played(steps: seq<Step>): seq<seq<int>> {
    if steps == [] then []
    else
      var before, step := steps[..|steps|-1], steps[|steps|-1];
      Played(before) + (if Perform(Run(before), step).1.Some? then [Perform(Run(before), step).1.value] else [])
  }

  /** A pass plays nothing before 1600 samples are there, and then a chunk of 160 as long as there is one; what is
      carried over is the last sample played, or silence. */
  lemma PassPlaysIff(p: Player)
    ensures var (p1, got) := AfterPlay(p); var plays := !p.buffering || |p.queue| >= 1600;
            && (got.Some? <==> plays && |p.queue| >= 160) && p1.buffering == (plays ==> |p.queue| < 160)
            && p1.underruns == p.underruns + (if plays && |p.queue| < 160 then 1 else 0)
            && (got.Some? ==> |got.value| == 160) && p1.last == (if got.Some? then got.value[159] else 0)
            && (!plays ==> p1 == p.(last := 0))
  {
    var k := TrimDropsOldestChunks(p.queue);
  }

  lemma PlayBounds(p: Player)
    ensures |AfterPlay(p).0.queue| <= MAX_BUFFER - CHUNK
    ensures AfterPlay(p).0.buffering ==> |AfterPlay(p).0.queue| < PREBUFFER
  {
    var k := TrimDropsOldestChunks(p.queue);
  }

  /** Right after a playback pass at most 3840 samples are queued, less than one prebuffer while buffering. */
  lemma PassBoundsQueue(steps: seq<Step>)
    requires steps != [] && steps[|steps|-1] == Play
    ensures |Run(steps).queue| <= 3840
    ensures Run(steps).buffering ==> |Run(steps).queue| < 1600
  {
    PlayBounds(Run(steps[..|steps|-1]));
  }

  /** In any interleaving what is queued is the tail of what was received, never more than the ring holds. */
  lemma {:induction false} QueueIsTail(steps: seq<Step>)
    ensures IsTail(Run(steps).queue, Received(steps)) && |Run(steps).queue| <= RING_SAMPLES
  {
    if steps != [] {
      QueueIsTail(steps[..|steps|-1]);
      StepKeepsTail(Run(steps[..|steps|-1]), steps[|steps|-1], Received(steps[..|steps|-1]));
    }
  }

  lemma StepKeepsTail(p: Player, step: Step, r: seq<int>)
    requires IsTail(p.queue, r) && |p.queue| <= RING_SAMPLES
    ensures var q := Perform(p, step).0.queue;
            IsTail(q, r + if step.Receive? then Decoded(step.ulaw) else []) && |q| <= RING_SAMPLES
  {
    assert r + [] == r;
    match step
    case Receive(ulaw) =>
      var all := p.queue + Decoded(ulaw);
      TailGrows(p.queue, r, Decoded(ulaw));
      TailOfTail(all, r + Decoded(ulaw), |all| - |TakeLast(all, RING_SAMPLES)|);
    case Play =>
      var k := TrimDropsOldestChunks(p.queue);
      TailOfTail(p.queue, r, CHUNK * k);
      if |Trimmed(p.queue)| >= CHUNK { TailOfTail(Trimmed(p.queue), r, CHUNK); }
    case Clear =>
    case Open =>
  }

  /** Chunk starts `at` and chunks `chunks` fit the received samples `r` up to `bound`, one after another. */
  ghost predicate InOrder(at: seq<int>, chunks: seq<seq<int>>, r: seq<int>, bound: int) {
    && |at| == |chunks| && bound <= |r|
    && (forall i :: 0 <= i < |at| ==>
          0 <= at[i] <= bound - CHUNK && |chunks[i]| == CHUNK && chunks[i] == r[at[i]..at[i]+CHUNK])
    && (forall i, j :: 0 <= i < j < |at| ==> at[i] + CHUNK <= at[j])
  }

  /** Every chunk played is 160 consecutive received samples, and each starts at or after the end of the one
      before: nothing is played twice, out of order, or mixed, whatever the interleaving. */
  lemma {:induction false} ChunksInOrder(steps: seq<Step>)
    ensures InOrder(ChunkStarts(steps), Played(steps), Received(steps), |Received(steps)| - |Run(steps).queue|)
  {
    if steps != [] {
      var before, step := steps[..|steps|-1], steps[|steps|-1];
      ChunksInOrder(before);
      QueueIsTail(before);
      var p, r := Run(before), Received(before);
      StepTakes(p, step, r);
      StepKeepsTail(p, step, r);
      var more := if step.Receive? then Decoded(step.ulaw) else [];
      var got := Perform(p, step).1;
      InOrderNext(ChunkStarts(before), Played(before), r, |r| - |p.queue|,
                  |r| - |Trimmed(p.queue)|, got, more, |Received(steps)| - |Run(steps).queue|);
    }
  }

  /** A chunk taken is where the trimmed queue starts in what was received. */
  lemma StepTakes(p: Player, step: Step, r: seq<int>)
    requires IsTail(p.queue, r)
    ensures var (p', got) := Perform(p, step); var start := |r| - |Trimmed(p.queue)|;
            && (got.Some? ==> step.Play? && |r| - |p.queue| <= start && |p'.queue| == |Trimmed(p.queue)| - CHUNK >= 0
                              && 0 <= start && got.value == r[start..start+CHUNK])
            && (!step.Receive? ==> |p'.queue| <= |p.queue|)
            && (step.Receive? ==> |p'.queue| <= |p.queue| + |Decoded(step.ulaw)|)
  {
    var k := TrimDropsOldestChunks(p.queue);
    TailOfTail(p.queue, r, CHUNK * k);
  }

  lemma InOrderNext(at: seq<int>, chunks: seq<seq<int>>, r: seq<int>, bound: int, start: int,
                    got: Option<seq<int>>, more: seq<int>, bound': int)
    requires InOrder(at, chunks, r, bound) && bound <= bound' <= |r + more|
    requires got.Some? ==>
               bound <= start <= bound' - CHUNK && 0 <= start <= |r| - CHUNK && got.value == r[start..start+CHUNK]
    ensures InOrder(at + (if got.Some? then [start] else []), chunks + (if got.Some? then [got.value] else []),
                    r + more, bound')
  {
    forall i | 0 <= i < |at| ensures r[at[i]..at[i]+CHUNK] == (r + more)[at[i]..at[i]+CHUNK] {}
    if got.Some? { assert got.value == (r + more)[start..start+CHUNK]; }
  }

  // ---------------------------------------------------------------- what is heard

  function Zeros(n: nat): seq<int> { seq(n, _ => 0) }

  /** What the codec is given from player `p` on. */
  function Heard(p: Player, steps: seq<Step>): seq<int>
    decreases |steps|
  {
    if steps == [] then []
    else
      var (p', got) := Perform(p, steps[0]);
      (if got.Some? then Interpolated(p.last, got.value) else if steps[0].Play? then Zeros(4 * CHUNK) else [])
      + Heard(p', steps[1..])
  }

  function Chunks(p: Player, steps: seq<Step>): seq<seq<int>>
    decreases |steps|
  {
    if steps == [] then []
    else
      var (p', got) := Perform(p, steps[0]);
      (if got.Some? then [got.value] else []) + Chunks(p', steps[1..])
  }

  /** No underrun and no reopening of the codec. */
  predicate Unbroken(p: Player, steps: seq<Step>)
    decreases |steps|
  {
    || steps == []
    || (!steps[0].Open? && (steps[0].Play? ==> AfterPlay(p).1.Some?) && Unbroken(Perform(p, steps[0]).0, steps[1..]))
  }

  /** Every pass finds a chunk, and the codec is not reopened. */
  predicate Supplied(p: Player, steps: seq<Step>)
    decreases |steps|
  {
    || steps == []
    || (!steps[0].Open? && (steps[0].Play? ==> |p.queue| >= 160) && Supplied(Perform(p, steps[0]).0, steps[1..]))
  }

  /** Once playing, it plays on without an underrun if and only if every pass finds a chunk. */
  lemma {:induction false} UnbrokenIffSupplied(p: Player, steps: seq<Step>)
    requires !p.buffering
    ensures Unbroken(p, steps) <==> Supplied(p, steps)
    decreases |steps|
  {
    if steps != [] {
      PassPlaysIff(p);
      if !Perform(p, steps[0]).0.buffering { UnbrokenIffSupplied(Perform(p, steps[0]).0, steps[1..]); }
    }
  }

  /** From a session that has begun, the status says playing exactly while it plays, until the codec is reopened. */
  lemma {:induction false} StatusFollows(p: Player, steps: seq<Step>)
    requires (p.status.Playing? <==> !p.buffering) && (p.status.Buffering? <==> p.buffering) && Open !in steps
    ensures var p1 := After(p, steps);
            (p1.status.Playing? <==> !p1.buffering) && (p1.status.Buffering? <==> p1.buffering)
    decreases |steps|
  {
    if steps != [] { StatusFollows(Perform(p, steps[0]).0, steps[1..]); }
  }

  function After(p: Player, steps: seq<Step>): Player
    decreases |steps|
  {
    if steps == [] then p else After(Perform(p, steps[0]).0, steps[1..])
  }

  /** Between underruns the output is one interpolation of all chunks played, however the network task
      interleaves. */
  lemma {:induction false} HeardIsOnePass(p: Player, steps: seq<Step>)
    requires Unbroken(p, steps)
    ensures Heard(p, steps) == Interpolated(p.last, Flatten(Chunks(p, steps)))
    decreases |steps|
  {
    if steps != [] {
      var (p', got) := Perform(p, steps[0]);
      HeardIsOnePass(p', steps[1..]);
      var rest := Chunks(p', steps[1..]);
      if got.None? {
        assert [] + rest == rest && [] + Heard(p', steps[1..]) == Heard(p', steps[1..]);
      } else {
        assert ([got.value] + rest)[1..] == rest;
        assert p'.last == Before(p.last, got.value, CHUNK);
        CutAnywhere(p.last, got.value, Flatten(Chunks(p', steps[1..])));
      }
    }
  }
}
