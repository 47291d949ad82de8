/** The PCM16 jitter buffer of the Android app (JitterBuffer.kt). */
module JitterBuffer {
  import opened Rings

  // A ring that refines a plain sequence. Its lock makes every call one step, so a run of the buffer is any sequence of
  // pushes, pulls and clears. Samples are values of any type: the buffer never looks at one.

  // ---------------------------------------------------------------- specification

  datatype Config = Config(capacity: nat, prebuffer: int, maxBuffered: nat)

  function Least(a: nat, b: nat): nat { if a < b then a else b }

  /** The most samples the buffer ever keeps. */
  function Limit(cfg: Config): nat { Least(cfg.capacity, cfg.maxBuffered) }

  datatype Buffer<T> = Buffer(queue: seq<T>, buffering: bool, dropped: nat, underruns: nat)

  function AfterPush<T>(b: Buffer<T>, cfg: Config, src: seq<T>): Buffer<T> {
    var kept := TakeLast(b.queue + src, Limit(cfg));
    b.(queue := kept, dropped := b.dropped + |b.queue| + |src| - |kept|)
  }

  /** The buffer after a pull of `length` samples, and the real samples copied. */
  function AfterPull<T>(b: Buffer<T>, cfg: Config, length: nat): (Buffer<T>, seq<T>) {
    if b.buffering && |b.queue| < cfg.prebuffer then (b, [])
    else if |b.queue| < length then (Buffer([], true, b.dropped, b.underruns + 1), b.queue)
    else (Buffer(b.queue[length..], false, b.dropped, b.underruns), b.queue[..length])
  }

  function AfterClear<T>(b: Buffer<T>): Buffer<T> { b.(queue := [], buffering := true) }

  // ---------------------------------------------------------------- the buffer object

  class JitterBuffer<T(0)> {
    const cfg: Config
    const ring: array<T>
    const zero: T
    var head: nat
    var count: nat
    var buffering: bool
    var dropped: nat
    var underruns: nat

    ghost predicate Valid()
      reads this, ring
    {
      ring.Length == cfg.capacity && head < cfg.capacity && count <= Limit(cfg)
    }

    ghost function Now(): (b: Buffer<T>)
      requires Valid()
      reads this, ring
    {
      Buffer(Ring(ring[..], head, count), buffering, dropped, underruns)
    }

    /** A ring of size 0 would fail at the first push, a negative maxBuffered would make `count` negative. */
    constructor (cfg: Config, zero: T)
      requires cfg.capacity > 0
      ensures Valid() && fresh(ring) && this.cfg == cfg && this.zero == zero && Now() == Buffer([], true, 0, 0)
    {
      this.cfg, this.zero := cfg, zero;
      ring := new T[cfg.capacity];
      head, count, buffering, dropped, underruns := 0, 0, true, 0, 0;
    }

    /** Drops the oldest sample. */
    method Drop()
      requires ring.Length == cfg.capacity && head < cfg.capacity && 0 < count <= cfg.capacity
      modifies this`head, this`count, this`dropped
      ensures head < cfg.capacity && count == old(count) - 1 && dropped == old(dropped) + 1
      ensures Ring(ring[..], head, count) == old(Ring(ring[..], head, count))[1..]
    {
      RingPop(ring[..], head, count);
      head := (head + 1) % ring.Length;
      count := count - 1;
      dropped := dropped + 1;
    }

    /** Stores one sample, dropping the oldest one when the ring is full. */
    method Store(x: T)
      requires ring.Length == cfg.capacity && head < cfg.capacity && count <= cfg.capacity
      modifies this`head, this`count, this`dropped, ring
      ensures head < cfg.capacity && count <= cfg.capacity
      ensures dropped + count == old(dropped) + old(count) + 1
      ensures Ring(ring[..], head, count) == TakeLast(old(Ring(ring[..], head, count)) + [x], cfg.capacity)
    {
      if count == ring.Length { Drop(); }
      ghost var before := ring[..];
      RingPush(before, head, count, x);
      ring[(head + count) % ring.Length] := x;
      assert ring[..] == before[(head + count) % ring.Length := x];
      count := count + 1;
    }

    method TrimTo(limit: nat)
      requires ring.Length == cfg.capacity && head < cfg.capacity && count <= cfg.capacity
      modifies this`head, this`count, this`dropped
      ensures head < cfg.capacity && count == (if old(count) > limit then limit else old(count))
      ensures dropped + count == old(dropped) + old(count)
      ensures Ring(ring[..], head, count) == TakeLast(old(Ring(ring[..], head, count)), limit)
    {
      ghost var all := Ring(ring[..], head, count);
      while count > limit
        invariant head < cfg.capacity && count <= |all| && (count >= limit || count == |all|)
        invariant Ring(ring[..], head, count) == all[|all|-count..]
        invariant dropped + count == old(dropped) + |all|
      {
        Drop();
      }
    }

    method Push(src: array<T>, offset: nat, length: nat)
      requires Valid() && src != ring && offset + length <= src.Length
      modifies this`head, this`count, this`dropped, ring
      ensures Valid() && Now() == AfterPush(old(Now()), cfg, src[offset..offset+length])
      ensures count == Least(old(count) + length, Least(cfg.capacity, cfg.maxBuffered))
    {
      ghost var data := src[offset..offset+length];
      ghost var fed := Ring(ring[..], head, count);
      var i := 0;
      while i < length
        invariant i <= length && head < cfg.capacity && count <= cfg.capacity
        invariant fed == old(Now().queue) + data[..i] && src[offset..offset+length] == data
        invariant Ring(ring[..], head, count) == TakeLast(fed, cfg.capacity)
        invariant dropped + count == old(dropped) + |fed|
      {
        var x := src[offset+i];
        assert x == data[i] && data[..i+1] == data[..i] + [x];
        TakeLastSnoc(fed, x, cfg.capacity);
        Store(x);
        fed := fed + [x];
        i := i + 1;
      }
      assert data[..i] == data;
      TakeLastTwice(fed, cfg.capacity, cfg.maxBuffered);
      TrimTo(cfg.maxBuffered);
    }

    /** Copies out the oldest `n` samples and moves past them; `count` is the caller's to adjust. */
    method CopyOut(dst: array<T>, n: nat)
      requires Valid() && dst != ring && n <= count && n <= dst.Length
      modifies this`head, dst
      ensures head < cfg.capacity
      ensures Ring(ring[..], head, count - n) == old(Now().queue)[n..]
      ensures dst[..n] == old(Now().queue)[..n] && dst[n..] == old(dst[n..])
    {
      ghost var queue := Ring(ring[..], head, count);
      var i := 0;
      while i < n
        invariant i <= n && head < cfg.capacity
        invariant Ring(ring[..], head, count - i) == queue[i..]
        invariant dst[..i] == queue[..i] && dst[n..] == old(dst[n..])
      {
        RingPop(ring[..], head, count - i);
        dst[i] := ring[head];
        head := (head + 1) % ring.Length;
        i := i + 1;
      }
    }

    method Pull(dst: array<T>, length: nat) returns (n: nat)
      requires Valid() && dst != ring && length <= dst.Length
      modifies this`head, this`count, this`buffering, this`underruns, dst
      ensures Valid()
      ensures var (b, got) := AfterPull(old(Now()), cfg, length);
              Now() == b && n == |got| && n <= length && dst[..n] == got
      // silence until the prebuffer is there, and an underrun only when less is queued than asked for
      ensures var plays := !old(buffering) || old(count) >= cfg.prebuffer;
              && n == (if plays then Least(length, old(count)) else 0)
              && buffering == (plays ==> old(count) < length)
              && underruns == old(underruns) + (if plays && old(count) < length then 1 else 0)
      ensures forall i :: n <= i < length ==> dst[i] == zero
      ensures dst[length..] == old(dst[length..])
    {
      if buffering {
        if count < cfg.prebuffer {
          Silence(dst, 0, length);
          return 0;
        }
        buffering := false;
      }
      n := if length < count then length else count;
      CopyOut(dst, n);
      assert dst[length..] == dst[n..][length-n..];
      count := count - n;
      if n < length {
        Silence(dst, n, length);
        buffering := true;
        underruns := underruns + 1;
      }
    }

    method Silence(dst: array<T>, from: nat, to: nat)
      requires from <= to <= dst.Length
      modifies dst
      ensures dst[..from] == old(dst[..from]) && dst[to..] == old(dst[to..])
      ensures forall i :: from <= i < to ==> dst[i] == zero
    {
      var i := from;
      while i < to
        invariant from <= i <= to
        invariant dst[..from] == old(dst[..from]) && dst[to..] == old(dst[to..])
        invariant forall k :: from <= k < i ==> dst[k] == zero
      {
        dst[i] := zero;
        i := i + 1;
      }
    }

    method Buffered() returns (n: nat)
      requires Valid()
      ensures n == |Now().queue|
    {
      return count;
    }

    method Clear()
      requires Valid()
      modifies this`head, this`count, this`buffering
      ensures Valid() && Now() == AfterClear(old(Now())) && count == 0 && buffering
    {
      head, count, buffering := 0, 0, true;
    }
  }

  // ---------------------------------------------------------------- runs

  datatype Op<T> = PushOp(src: seq<T>) | PullOp(length: nat) | ClearOp

  /** The buffer after one call, and the real samples it delivered. */
  function Perform<T>(b: Buffer<T>, cfg: Config, op: Op<T>): (Buffer<T>, seq<T>) {
    match op
    case PushOp(src) => (AfterPush(b, cfg, src), [])
    case PullOp(length) => AfterPull(b, cfg, length)
    case ClearOp => (AfterClear(b), [])
  }

  function Run<T>(cfg: Config, ops: seq<Op<T>>): Buffer<T> {
    if ops == [] then Buffer([], true, 0, 0) else Perform(Run(cfg, ops[..|ops|-1]), cfg, ops[|ops|-1]).0
  }

  function Pushed<T>(ops: seq<Op<T>>): seq<T> {
    if ops == [] then []
    else Pushed(ops[..|ops|-1]) + (match ops[|ops|-1] case PushOp(src) => src case _ => [])
  }

  function Delivered<T>(cfg: Config, ops: seq<Op<T>>): seq<T> {
    if ops == [] then []
    else Delivered(cfg, ops[..|ops|-1]) + Perform(Run(cfg, ops[..|ops|-1]), cfg, ops[|ops|-1]).1
  }

  function Cleared<T>(cfg: Config, ops: seq<Op<T>>): nat {
    if ops == [] then 0
    else Cleared(cfg, ops[..|ops|-1]) + (if ops[|ops|-1].ClearOp? then |Run(cfg, ops[..|ops|-1]).queue| else 0)
  }

  /** Every sample pushed has been delivered, dropped, cleared or is still queued. */
  lemma {:induction false} Conservation<T>(cfg: Config, ops: seq<Op<T>>)
    ensures |Pushed(ops)| == |Delivered(cfg, ops)| + Run(cfg, ops).dropped + Cleared(cfg, ops) + |Run(cfg, ops).queue|
    ensures |Run(cfg, ops).queue| <= Limit(cfg)
  {
    if ops != [] { Conservation(cfg, ops[..|ops|-1]); }
  }

  /** What is queued is always the tail of what was pushed: losses are at the old end only. */
  lemma {:induction false} QueueIsTail<T>(cfg: Config, ops: seq<Op<T>>)
    ensures IsTail(Run(cfg, ops).queue, Pushed(ops))
  {
    if ops != [] {
      QueueIsTail(cfg, ops[..|ops|-1]);
      OpKeepsTail(Run(cfg, ops[..|ops|-1]), cfg, ops[|ops|-1], Pushed(ops[..|ops|-1]));
    }
  }

  lemma PushKeepsTail<T>(b: Buffer<T>, cfg: Config, src: seq<T>, p: seq<T>)
    requires IsTail(b.queue, p)
    ensures IsTail(TakeLast(b.queue + src, Limit(cfg)), p + src)
  {
    var all := b.queue + src;
    TailGrows(b.queue, p, src);
    TailOfTail(all, p + src, |all| - |TakeLast(all, Limit(cfg))|);
  }

  lemma OpKeepsTail<T>(b: Buffer<T>, cfg: Config, op: Op<T>, p: seq<T>)
    requires IsTail(b.queue, p)
    ensures IsTail(Perform(b, cfg, op).0.queue, p + match op case PushOp(src) => src case _ => [])
  {
    match op
    case PushOp(src) => PushKeepsTail(b, cfg, src, p);
    case PullOp(length) =>
      assert p + [] == p;
      if length <= |b.queue| { TailOfTail(b.queue, p, length); }
    case ClearOp =>
  }

  /** For each delivered sample, which of the pushed ones it is. */
  function Positions<T>(cfg: Config, ops: seq<Op<T>>): seq<int> {
    if ops == [] then []
    else
      var before := ops[..|ops|-1];
      var (b, got) := Perform(Run(cfg, before), cfg, ops[|ops|-1]);
      var first := |Pushed(before)| - |Run(cfg, before).queue|;
      Positions(cfg, before) + seq(|got|, i => first + i)
  }

  /** `pos` names, in increasing order, places of `p` before `bound` that hold the samples `d`. */
  ghost predicate Placed<T>(pos: seq<int>, p: seq<T>, d: seq<T>, bound: int) {
    && |pos| == |d| && bound <= |p|
    && (forall i :: 0 <= i < |pos| ==> 0 <= pos[i] < bound && p[pos[i]] == d[i])
    && (forall i, j :: 0 <= i < j < |pos| ==> pos[i] < pos[j])
  }

  lemma PlacedNext<T>(pos: seq<int>, p: seq<T>, d: seq<T>, first: nat, got: seq<T>, more: seq<T>, bound: int)
    requires Placed(pos, p, d, first) && first + |got| <= bound <= |p + more| && |got| <= |p| - first
    requires got == p[first..first+|got|]
    ensures Placed(pos + seq(|got|, i => first + i), p + more, d + got, bound)
  {
  }

  /** Samples come out in the order they went in, each at most once: the positions strictly increase, and
      nothing still queued has been delivered. */
  lemma {:induction false} DeliveredInPushOrder<T>(cfg: Config, ops: seq<Op<T>>)
    ensures Placed(Positions(cfg, ops), Pushed(ops), Delivered(cfg, ops), |Pushed(ops)| - |Run(cfg, ops).queue|)
  {
    if ops != [] {
      var before, op := ops[..|ops|-1], ops[|ops|-1];
      DeliveredInPushOrder(cfg, before);
      QueueIsTail(cfg, before);
      var b := Run(cfg, before);
      var got := Perform(b, cfg, op).1;
      PlacedNext(Positions(cfg, before), Pushed(before), Delivered(cfg, before), |Pushed(before)| - |b.queue|,
                 got, if op.PushOp? then op.src else [], |Pushed(ops)| - |Run(cfg, ops).queue|);
    }
  }

  lemma UnderrunEmpties<T>(b: Buffer<T>, cfg: Config, length: nat)
    ensures var b1 := AfterPull(b, cfg, length).0;
            b1.underruns > b.underruns ==> b1.queue == [] && b1.buffering
  {
  }

  /** One call while buffering: too little queued for `prebuffer` is silence, and stays buffering. */
  lemma RefillStep<T>(b: Buffer<T>, cfg: Config, op: Op<T>, room: nat)
    requires b.buffering && |b.queue| <= room < cfg.prebuffer
    ensures var (b1, got) := Perform(b, cfg, op);
            got == [] && b1.buffering && |b1.queue| <= room + if op.PushOp? then |op.src| else 0
  {
  }

  lemma OneMore<T>(cfg: Config, ops: seq<Op<T>>, op: Op<T>)
    ensures var (b, got) := Perform(Run(cfg, ops), cfg, op);
            Run(cfg, ops + [op]) == b && Delivered(cfg, ops + [op]) == Delivered(cfg, ops) + got
  {
    assert (ops + [op])[..|ops|] == ops;
  }

  /** From empty and buffering on, as an underrun leaves it, nothing at all is delivered before `prebuffer`
      samples have been pushed. */
  lemma {:induction false} SilentWhileRefilling<T>(cfg: Config, before: seq<Op<T>>, after: seq<Op<T>>)
    requires Run(cfg, before).queue == [] && Run(cfg, before).buffering && |Pushed(after)| < cfg.prebuffer
    ensures Delivered(cfg, before + after) == Delivered(cfg, before)
    ensures Run(cfg, before + after).buffering && |Run(cfg, before + after).queue| <= |Pushed(after)|
  {
    if after == [] {
      assert before + after == before;
    } else {
      var rest, op := after[..|after|-1], after[|after|-1];
      assert before + after == (before + rest) + [op];
      SilentWhileRefilling(cfg, before, rest);
      RefillStep(Run(cfg, before + rest), cfg, op, |Pushed(rest)|);
      OneMore(cfg, before + rest, op);
    }
  }

  // ---------------------------------------------------------------- playing on

  /** Samples asked for. */
  function Asked<T>(ops: seq<Op<T>>): nat {
    if ops == [] then 0
    else Asked(ops[..|ops|-1]) + (match ops[|ops|-1] case PullOp(length) => length case _ => 0)
  }

  /** In the run of `before` and then `after`, every pull of `after` finds what it asks for. */
  ghost predicate Finds<T>(cfg: Config, before: seq<Op<T>>, after: seq<Op<T>>) {
    after == []
    || (Finds(cfg, before, after[..|after|-1])
        && (match after[|after|-1]
            case PullOp(length) => length <= |Run(cfg, before + after[..|after|-1]).queue|
            case _ => true))
  }

  /** `b1` comes after `b` and has delivered `given` of `asked` samples: playing on, or with an underrun. */
  ghost predicate PlayedOn<T>(b: Buffer<T>, b1: Buffer<T>, given: int, asked: int, found: bool) {
    if found then !b1.buffering && b1.underruns == b.underruns && given == asked
    else b1.underruns > b.underruns && given < asked
  }

  lemma PullPlaysOn<T>(b: Buffer<T>, cfg: Config, op: Op<T>)
    requires !op.ClearOp?
    ensures var (b1, got) := Perform(b, cfg, op);
            var asked := if op.PullOp? then op.length else 0;
            && b1.underruns >= b.underruns && |got| <= asked
            && (!b.buffering && asked <= |b.queue| ==> !b1.buffering && b1.underruns == b.underruns && |got| == asked)
            && (!b.buffering && asked > |b.queue| ==> b1.underruns == b.underruns + 1 && |got| < asked)
  {
  }

  /** From a playing buffer on, until the next clear: as long as every pull finds what it asks for, every pull delivers
      in full, nothing is counted as an underrun and nothing is buffered again; and only then. */
  lemma {:induction false} PlaysOnIffEveryPullFinds<T>(cfg: Config, before: seq<Op<T>>, after: seq<Op<T>>)
    requires !Run(cfg, before).buffering && forall op :: op in after ==> !op.ClearOp?
    ensures PlayedOn(Run(cfg, before), Run(cfg, before + after),
                     |Delivered(cfg, before + after)| - |Delivered(cfg, before)|, Asked(after),
                     Finds(cfg, before, after))
  {
    if after == [] {
      assert before + after == before;
    } else {
      var rest, op := after[..|after|-1], after[|after|-1];
      assert before + after == (before + rest) + [op];
      PlaysOnIffEveryPullFinds(cfg, before, rest);
      OneMore(cfg, before + rest, op);
      PullPlaysOn(Run(cfg, before + rest), cfg, op);
    }
  }

  /** Wherever a run has led, a push drops exactly what exceeds the ring or the latency bound. */
  lemma DropsOnlyAboveLimit<T>(cfg: Config, ops: seq<Op<T>>, src: seq<T>)
    ensures var b, b1 := Run(cfg, ops), Run(cfg, ops + [PushOp(src)]);
            b1.dropped - b.dropped
            == if |b.queue| + |src| > cfg.capacity || |b.queue| + |src| > cfg.maxBuffered
               then |b.queue| + |src| - Least(cfg.capacity, cfg.maxBuffered) else 0
  {
    OneMore(cfg, ops, PushOp(src));
  }

  /** A cleared buffer is empty and waits for its prebuffer again, whatever it was doing. */
  lemma ClearedWaits<T>(cfg: Config, ops: seq<Op<T>>)
    ensures Run(cfg, ops + [ClearOp]).queue == [] && Run(cfg, ops + [ClearOp]).buffering
  {
    OneMore(cfg, ops, ClearOp);
  }

  lemma {:induction false} SilentForever<T>(cfg: Config, ops: seq<Op<T>>)
    requires cfg.prebuffer > Limit(cfg) || Limit(cfg) == 0
    ensures Delivered(cfg, ops) == []
    ensures cfg.prebuffer > Limit(cfg) ==> Run(cfg, ops).buffering
  {
    if ops != [] {
      SilentForever(cfg, ops[..|ops|-1]);
      Conservation(cfg, ops[..|ops|-1]);
    }
  }

  /** Playback is reachable at all exactly when the prebuffer fits: otherwise every run is silent. */
  lemma PlaysIffPrebufferFits<T(!new)>(cfg: Config, x: T)
    ensures (exists ops: seq<Op<T>> :: Delivered(cfg, ops) != []) <==> cfg.prebuffer <= Limit(cfg) && Limit(cfg) > 0
  {
    if cfg.prebuffer <= Limit(cfg) && Limit(cfg) > 0 {
      var fill := seq(Limit(cfg), _ => x);
      var one, two := [PushOp(fill)], [PushOp(fill), PullOp(1)];
      assert one[..0] == [] && two[..1] == one;
      assert Run(cfg, one).queue == fill;
      assert Delivered(cfg, two) != [];
    }
    forall ops: seq<Op<T>> | cfg.prebuffer > Limit(cfg) || Limit(cfg) == 0 ensures Delivered(cfg, ops) == [] {
      SilentForever(cfg, ops);
    }
  }

  /** And where it fits, a buffer that has run dry plays again once `prebuffer` more samples have come. */
  lemma RefilledPlays<T>(b: Buffer<T>, cfg: Config, fill: seq<T>, length: nat)
    requires |b.queue| <= Limit(cfg) && cfg.prebuffer <= Limit(cfg) && Limit(cfg) > 0
    requires |fill| >= cfg.prebuffer && |fill| > 0
    ensures var (b1, got) := AfterPull(AfterPush(b, cfg, fill), cfg, length);
            |got| == (if length < |AfterPush(b, cfg, fill).queue| then length else |AfterPush(b, cfg, fill).queue|)
  {
  }
}
