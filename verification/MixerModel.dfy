/** The mixer over values: inputs, sample conservation, summing and the mixing clock. */
module MixerModel {
  import opened Options
  import Ring

  // ----- inputs

  /**
    An input. written, taken and lost are history: everything written to it, everything mixed from
    it, and how many of its samples were discarded for want of room.
   */
  datatype In = In(buffering: bool, buf: seq<int>, cap: nat, written: seq<int>, taken: seq<int>, lost: nat)

  datatype Stats = Stats(inputFrames: nat, inputSamples: nat, inputFramesDropped: nat, inputSamplesDropped: nat,
                         mixedFrames: nat, mixedSamples: nat, restarts: nat)

  const NO_STATS := Stats(0, 0, 0, 0, 0, 0, 0)

  function NewIn(cap: nat): In {
    In(true, [], cap, [], [], 0)
  }

  function Overflow(i: In, p: seq<int>): nat {
    if |i.buf| + |p| > i.cap then |i.buf| + |p| - i.cap else 0
  }

  function WriteSample(i: In, p: seq<int>): In {
    i.(buf := Ring.LastN(i.buf + p, i.cap), written := i.written + p, lost := i.lost + Overflow(i, p))
  }

  function CountWrite(s: Stats, i: In, p: seq<int>): Stats {
    var d := Overflow(i, p);
    s.(inputFrames := s.inputFrames + 1, inputSamples := s.inputSamples + |p|,
       inputFramesDropped := s.inputFramesDropped + if d > 0 then 1 else 0,
       inputSamplesDropped := s.inputSamplesDropped + d)
  }

  /** The input keeps buffering and is not read. */
  predicate Holds(i: In, bufMin: int) {
    i.buffering && |i.buf| < bufMin
  }

  /** How many samples a mix of the given size takes from the input. */
  function Taken(i: In, bufMin: int, size: nat): (n: nat)
    ensures n <= |i.buf| && n <= size
  {
    if Holds(i, bufMin) then 0 else if size <= |i.buf| then size else |i.buf|
  }

  /** Reading a mix of the given size; an input that gives nothing starts buffering again. */
  function ReadSample(i: In, bufMin: int, size: nat): In {
    var n := Taken(i, bufMin, size);
    i.(buffering := n == 0, buf := i.buf[n..], taken := i.taken + i.buf[..n])
  }

  /** The counters of one input of a mix. */
  function CountRead(s: Stats, i: In, bufMin: int, size: nat): Stats {
    var n := Taken(i, bufMin, size);
    if n > 0 then s.(mixedFrames := s.mixedFrames + 1, mixedSamples := s.mixedSamples + n)
    else if Holds(i, bufMin) then s
    else s.(restarts := s.restarts + 1)
  }

  // ----- conservation

  /** Every sample written is mixed, discarded or still held; without discards, in order. */
  ghost predicate Intact(i: In) {
    && |i.buf| <= i.cap
    && |i.written| == |i.taken| + i.lost + |i.buf|
    && (i.lost == 0 ==> i.written == i.taken + i.buf)
    && i.buf == i.written[|i.written| - |i.buf|..]
  }

  lemma LastAreSuffix(s: seq<int>, n: nat)
    ensures var r := Ring.LastN(s, n);
            && r == s[|s| - |r|..] && |r| == (if |s| > n then n else |s|)
            && (|s| <= n ==> r == s)
  {
  }

  lemma AppendsTo(w: seq<int>, t: seq<int>, b: seq<int>, p: seq<int>)
    requires w == t + b
    ensures w + p == t + (b + p)
  {
  }

  /** w was written, t taken, lost lost and b held; p is written, and r is held then. */
  lemma WriteAccount(w: seq<int>, t: seq<int>, lost: nat, b: seq<int>, p: seq<int>, over: nat, r: seq<int>)
    requires |w| == |t| + lost + |b| && (lost == 0 ==> w == t + b) && b == w[|w| - |b|..]
    requires over <= |b + p| && r == (b + p)[over..]
    ensures |w + p| == |t| + (lost + over) + |r| && (lost + over == 0 ==> w + p == t + r)
    ensures r == (w + p)[|w + p| - |r|..]
  {
    SuffixGrows(w, b, p, |r|);
    if lost + over == 0 {
      assert r == b + p;
      AppendsTo(w, t, b, p);
    }
  }

  lemma WriteKeepsIntact(i: In, p: seq<int>)
    requires Intact(i)
    ensures Intact(WriteSample(i, p))
  {
    var j, over := WriteSample(i, p), Overflow(i, p);
    LastAreSuffix(i.buf + p, i.cap);
    assert |j.buf| == |i.buf + p| - over && j.buf == (i.buf + p)[over..];
    WriteAccount(i.written, i.taken, i.lost, i.buf, p, over, j.buf);
    hide Ring.LastN, Overflow;
  }

  /** A write that fits loses nothing; one that does not leaves the input full of the latest samples. */
  lemma WriteGives(i: In, p: seq<int>, t: In, s: Stats)
    requires t == WriteSample(i, p) && |i.buf| <= i.cap
    ensures var over := |i.buf| + |p| - i.cap;
            if over <= 0 then t.buf == i.buf + p && t.lost == i.lost
            else |t.buf| == i.cap && t.buf == (i.buf + p)[over..] && t.lost == i.lost + over
    ensures var n, c := t.lost - i.lost, CountWrite(s, i, p);
            c == s.(inputFrames := s.inputFrames + 1, inputSamples := s.inputSamples + |p|,
                    inputFramesDropped := if n == 0 then s.inputFramesDropped else s.inputFramesDropped + 1,
                    inputSamplesDropped := s.inputSamplesDropped + n)
    ensures t.written == i.written + p && (t.buffering, t.cap, t.taken) == (i.buffering, i.cap, i.taken)
  {
    LastAreSuffix(i.buf + p, i.cap);
  }

  lemma SuffixGrows(w: seq<int>, b: seq<int>, p: seq<int>, n: nat)
    requires |b| <= |w| && b == w[|w| - |b|..] && n <= |b + p|
    ensures (b + p)[|b + p| - n..] == (w + p)[|w + p| - n..]
  {
    var h := |w| - |b|;
    assert b + p == (w + p)[h..];
    assert (w + p)[h..][|b + p| - n..] == (w + p)[|w + p| - n..];
  }

  lemma ReadKeepsIntact(i: In, bufMin: int, size: nat)
    requires Intact(i)
    ensures Intact(ReadSample(i, bufMin, size))
  {
    var n := Taken(i, bufMin, size);
    var j := ReadSample(i, bufMin, size);
    assert i.buf == i.buf[..n] + i.buf[n..];
    assert i.taken + i.buf == (i.taken + i.buf[..n]) + i.buf[n..];
    assert j.buf == i.written[|i.written| - |i.buf|..][n..] == j.written[|j.written| - |j.buf|..];
  }

  /** All inputs ever created, removed ones included. */
  datatype System = System(inputs: seq<In>, stats: Stats)

  /**
    One step: an input joins; a writer writes to an input; a mix reads an input. A mix reads the
    inputs it has one after another, and writes may come between those reads.
   */
  datatype Event = Join(cap: nat) | Write(k: nat, p: seq<int>) | Take(k: nat, bufMin: int, size: nat)

  predicate Enabled(s: System, e: Event) {
    match e
    case Join(_) => true
    case Write(k, _) => k < |s.inputs|
    case Take(k, _, _) => k < |s.inputs|
  }

  function Next(s: System, e: Event): System
    requires Enabled(s, e)
  {
    match e
    case Join(cap) => s.(inputs := s.inputs + [NewIn(cap)])
    case Write(k, p) => System(s.inputs[k := WriteSample(s.inputs[k], p)], CountWrite(s.stats, s.inputs[k], p))
    case Take(k, m, n) => System(s.inputs[k := ReadSample(s.inputs[k], m, n)], CountRead(s.stats, s.inputs[k], m, n))
  }

  ghost predicate Possible(s: System, es: seq<Event>)
    decreases |es|
  {
    |es| > 0 ==> Enabled(s, es[0]) && Possible(Next(s, es[0]), es[1..])
  }

  function Runs(s: System, es: seq<Event>): System
    requires Possible(s, es)
    decreases |es|
  {
    if |es| == 0 then s else Runs(Next(s, es[0]), es[1..])
  }

  /** Samples still held by the inputs. */
  function Held(ins: seq<In>): nat {
    if |ins| == 0 then 0 else Held(ins[..|ins| - 1]) + |ins[|ins| - 1].buf|
  }

  lemma {:induction false} HeldUpdate(ins: seq<In>, k: nat, i: In)
    requires k < |ins|
    ensures Held(ins[k := i]) == Held(ins) - |ins[k].buf| + |i.buf|
  {
    var n := |ins| - 1;
    if k == n {
      assert ins[k := i][..n] == ins[..n];
    } else {
      assert ins[k := i][..n] == ins[..n][k := i];
      HeldUpdate(ins[..n], k, i);
    }
  }

  ghost predicate Conserved(s: System) {
    && (forall k :: 0 <= k < |s.inputs| ==> Intact(s.inputs[k]))
    && s.stats.inputSamples == s.stats.mixedSamples + s.stats.inputSamplesDropped + Held(s.inputs)
  }

  /** Samples taken in less samples mixed or dropped. */
  function Owed(s: Stats): int {
    s.inputSamples - s.mixedSamples - s.inputSamplesDropped
  }

  lemma UpdateConserves(s: System, k: nat, i: In, t: Stats)
    requires Conserved(s) && k < |s.inputs| && Intact(i)
    requires Owed(t) - |i.buf| == Owed(s.stats) - |s.inputs[k].buf|
    ensures Conserved(System(s.inputs[k := i], t))
  {
    hide Intact;
    HeldUpdate(s.inputs, k, i);
  }

  lemma NextConserves(s: System, e: Event, t: System)
    requires Conserved(s) && Enabled(s, e) && t == Next(s, e)
    ensures Conserved(t)
  {
    hide Held;
    match e
    case Join(cap) => JoinConserves(s, cap);
    case Write(k, p) =>
      var i := s.inputs[k];
      WriteKeepsIntact(i, p);
      hide Intact, Conserved;
      assert |WriteSample(i, p).buf| == |i.buf| + |p| - Overflow(i, p);
      UpdateConserves(s, k, WriteSample(i, p), CountWrite(s.stats, i, p));
    case Take(k, m, n) =>
      var i := s.inputs[k];
      ReadKeepsIntact(i, m, n);
      hide Intact, Conserved;
      UpdateConserves(s, k, ReadSample(i, m, n), CountRead(s.stats, i, m, n));
  }

  lemma JoinConserves(s: System, cap: nat)
    requires Conserved(s)
    ensures Conserved(Next(s, Join(cap)))
  {
    assert (s.inputs + [NewIn(cap)])[..|s.inputs|] == s.inputs;
  }

  /**
    Over any interleaving of joins, writes and mixes: InputSamples is MixedSamples plus
    InputSamplesDropped plus what all inputs hold, and an input that never overflowed has contributed
    exactly a prefix of what was written to it.
   */
  lemma {:induction false} SamplesConserved(s: System, es: seq<Event>)
    requires Conserved(s) && Possible(s, es)
    ensures var t := Runs(s, es);
            && t.stats.inputSamples == t.stats.mixedSamples + t.stats.inputSamplesDropped + Held(t.inputs)
            && (forall k :: 0 <= k < |t.inputs| && t.inputs[k].lost == 0 ==> t.inputs[k].taken <= t.inputs[k].written)
            && Conserved(t)
    decreases |es|
  {
    if |es| > 0 {
      NextConserves(s, es[0], Next(s, es[0]));
      SamplesConserved(Next(s, es[0]), es[1..]);
    }
  }

  // ----- summing

  /** What a mix takes from each input, in order. */
  function Frames(ins: seq<In>, bufMin: int, size: nat): (fs: seq<seq<int>>)
    ensures |fs| == |ins|
  {
    if |ins| == 0 then []
    else
      var i := ins[|ins| - 1];
      Frames(ins[..|ins| - 1], bufMin, size) + [i.buf[..Taken(i, bufMin, size)]]
  }

  /** The counters of a mix. */
  function CountMix(s: Stats, ins: seq<In>, bufMin: int, size: nat): Stats {
    if |ins| == 0 then s
    else CountRead(CountMix(s, ins[..|ins| - 1], bufMin, size), ins[|ins| - 1], bufMin, size)
  }

  /** The frame a mix of the given size puts out: clamped sums. */
  function Mixed(ins: seq<In>, bufMin: int, size: nat): (out: seq<int>)
    ensures |out| == size
  {
    seq(size, j requires 0 <= j < size => Clamp(Wrap32(SumAt(Frames(ins, bufMin, size), j))))
  }

  /** The inputs after n mixes with nothing written in between. */
  function After(ins: seq<In>, bufMin: int, size: nat, n: nat): (r: seq<In>)
    ensures |r| == |ins|
  {
    if n == 0 then ins
    else
      var p := After(ins, bufMin, size, n - 1);
      seq(|p|, i requires 0 <= i < |p| => ReadSample(p[i], bufMin, size))
  }

  /** The frames those mixes put out. */
  function Outputs(ins: seq<In>, bufMin: int, size: nat, n: nat): (out: seq<seq<int>>)
    ensures |out| == n && forall k :: 0 <= k < n ==> |out[k]| == size
  {
    if n == 0 then []
    else Outputs(ins, bufMin, size, n - 1) + [Mixed(After(ins, bufMin, size, n - 1), bufMin, size)]
  }

  lemma AfterOneMore(ins: seq<In>, bufMin: int, size: nat, n: nat)
    ensures After(After(ins, bufMin, size, n), bufMin, size, 1) == After(ins, bufMin, size, n + 1)
  {
    var p := After(ins, bufMin, size, n);
    assert After(p, bufMin, size, 0) == p;
  }

  lemma NoMix(ins: seq<In>, bufMin: int, size: nat)
    ensures After(ins, bufMin, size, 0) == ins && Outputs(ins, bufMin, size, 0) == []
  {
  }

  /** 32-bit signed wrap-around. */
  function Wrap32(x: int): (y: int)
    ensures -0x8000_0000 <= y < 0x8000_0000
  {
    (x + 0x8000_0000) % 0x1_0000_0000 - 0x8000_0000
  }

  function Clamp(x: int): int {
    if x > 0x7FFF then 0x7FFF else if x < -0x7FFF then -0x7FFF else x
  }

  /** Sum of the j-th samples of the frames that have one. */
  function SumAt(frames: seq<seq<int>>, j: nat): int {
    if |frames| == 0 then 0
    else
      var last := frames[|frames| - 1];
      SumAt(frames[..|frames| - 1], j) + if j < |last| then last[j] else 0
  }

  lemma Wrap32Adds(x: int, y: int)
    ensures Wrap32(Wrap32(x) + y) == Wrap32(x + y)
  {
    var m := 0x1_0000_0000;
    var q := (x + 0x8000_0000) / m;
    assert x + 0x8000_0000 == q * m + (x + 0x8000_0000) % m;
    assert Wrap32(x) == x - q * m;
    assert (x + y + 0x8000_0000 - q * m) % m == (x + y + 0x8000_0000) % m;
  }

  /** With at most 65535 inputs of 16-bit samples the 32-bit sums do not wrap. */
  lemma {:induction false} SumsFit(frames: seq<seq<int>>, j: nat)
    requires forall i, k :: 0 <= i < |frames| && 0 <= k < |frames[i]| ==> -0x8000 <= frames[i][k] <= 0x7FFF
    ensures -0x8000 * |frames| <= SumAt(frames, j) <= 0x8000 * |frames|
    ensures |frames| <= 0xFFFF ==> Wrap32(SumAt(frames, j)) == SumAt(frames, j)
  {
    if |frames| > 0 {
      SumsFit(frames[..|frames| - 1], j);
    }
  }

  /** The j-th sample an input gives to a mix: none while it buffers too few, or past what it holds. */
  function GivenBy(i: In, bufMin: int, j: nat): int {
    if (i.buffering && |i.buf| < bufMin) || j >= |i.buf| then 0 else i.buf[j]
  }

  /** The plain sum of the j-th samples given. */
  function Given(ins: seq<In>, bufMin: int, j: nat): int {
    if |ins| == 0 then 0 else Given(ins[..|ins| - 1], bufMin, j) + GivenBy(ins[|ins| - 1], bufMin, j)
  }

  /** y is x within the range of a sample, and the nearer end of it outside. */
  predicate Clipped(y: int, x: int) {
    && (-32767 <= x <= 32767 ==> y == x)
    && (x > 32767 ==> y == 32767)
    && (x < -32767 ==> y == -32767)
  }

  /** No input of 16-bit samples, nor so many inputs, that the sums could wrap. */
  ghost predicate Sampled(ins: seq<In>) {
    |ins| <= 65535 && forall i, k :: 0 <= i < |ins| && 0 <= k < |ins[i].buf| ==> -32768 <= ins[i].buf[k] <= 32767
  }

  lemma {:induction false} SumIsGiven(ins: seq<In>, bufMin: int, size: nat, j: nat)
    requires j < size
    ensures SumAt(Frames(ins, bufMin, size), j) == Given(ins, bufMin, j)
  {
    if |ins| > 0 {
      var n := |ins| - 1;
      SumIsGiven(ins[..n], bufMin, size, j);
      var fs := Frames(ins, bufMin, size);
      assert fs[..n] == Frames(ins[..n], bufMin, size);
    }
  }

  /** Every frame is a prefix of what an input holds. */
  lemma {:induction false} FrameIsPrefix(ins: seq<In>, bufMin: int, size: nat, i: nat)
    requires i < |ins|
    ensures Frames(ins, bufMin, size)[i] <= ins[i].buf
  {
    if i < |ins| - 1 { FrameIsPrefix(ins[..|ins| - 1], bufMin, size, i); }
  }

  lemma FramesSampled(ins: seq<In>, bufMin: int, size: nat)
    requires Sampled(ins)
    ensures var fs := Frames(ins, bufMin, size);
            forall i, k :: 0 <= i < |fs| && 0 <= k < |fs[i]| ==> -0x8000 <= fs[i][k] <= 0x7FFF
  {
    var fs := Frames(ins, bufMin, size);
    forall i, k | 0 <= i < |fs| && 0 <= k < |fs[i]| ensures -0x8000 <= fs[i][k] <= 0x7FFF {
      FrameIsPrefix(ins, bufMin, size, i);
      assert fs[i][k] == ins[i].buf[k];
    }
  }

  /** Every sample put out is the plain sum of the samples given, clipped to the range of a sample. */
  lemma MixedIsClipped(ins: seq<In>, bufMin: int, size: nat)
    requires Sampled(ins)
    ensures forall j :: 0 <= j < size ==> Clipped(Mixed(ins, bufMin, size)[j], Given(ins, bufMin, j))
  {
    var fs := Frames(ins, bufMin, size);
    FramesSampled(ins, bufMin, size);
    forall j | 0 <= j < size ensures Clipped(Mixed(ins, bufMin, size)[j], Given(ins, bufMin, j)) {
      SumIsGiven(ins, bufMin, size, j);
      SumsFit(fs, j);
      hide SumAt, Frames, Given, Wrap32;
    }
  }

  lemma {:induction false} AfterSampled(ins: seq<In>, bufMin: int, size: nat, n: nat)
    requires Sampled(ins)
    ensures Sampled(After(ins, bufMin, size, n))
  {
    if n > 0 { AfterSampled(ins, bufMin, size, n - 1); }
  }

  /** So is every sample of the mixes of one firing, each of what the inputs hold by then. */
  lemma {:induction false} OutputsAreClipped(ins: seq<In>, bufMin: int, size: nat, n: nat)
    requires Sampled(ins)
    ensures forall k, j :: 0 <= k < n && 0 <= j < size ==>
              Clipped(Outputs(ins, bufMin, size, n)[k][j], Given(After(ins, bufMin, size, k), bufMin, j))
  {
    if n > 0 {
      OutputsAreClipped(ins, bufMin, size, n - 1);
      AfterSampled(ins, bufMin, size, n - 1);
      MixedIsClipped(After(ins, bufMin, size, n - 1), bufMin, size);
      hide Sampled, After, Mixed, Given, Clipped;
    }
  }

  /**
    A read of an input: while it buffers and holds fewer than bufMin it is left as it is; else it gives
    its oldest samples, as many as there are up to size, and buffers again exactly when it gave none.
   */
  lemma ReadGives(i: In, bufMin: int, size: nat, t: In, s: Stats)
    requires t == ReadSample(i, bufMin, size)
    ensures i.buffering && |i.buf| < bufMin ==> t == i && CountRead(s, i, bufMin, size) == s
    ensures !(i.buffering && |i.buf| < bufMin) ==>
      var n := if size <= |i.buf| then size else |i.buf|;
      && t.taken == i.taken + i.buf[..n] && i.buf == i.buf[..n] + t.buf && |t.buf| == |i.buf| - n
      && (t.buffering <==> n == 0)
      && CountRead(s, i, bufMin, size) ==
           if n == 0 then s.(restarts := s.restarts + 1)
           else s.(mixedFrames := s.mixedFrames + 1, mixedSamples := s.mixedSamples + n)
    ensures (t.written, t.lost, t.cap) == (i.written, i.lost, i.cap)
  {
    assert i.taken + i.buf[..0] == i.taken && i.buf[0..] == i.buf;
  }

  // ----- the mixing clock

  /**
    The mixing clock. epoch and base are history: the wall-clock time the schedule was last anchored
    to, and the number of mixes by then.
   */
  datatype Clock = Clock(last: Option<int>, mixes: nat, epoch: int, base: nat)

  function Ticks(c: Clock, now: int, dur: int): int
    requires dur > 0
  {
    if c.last == None then 1
    else if now < c.last.value then 0
    else (now - c.last.value + dur / 4) / dur
  }

  /** One ticker firing: how many mixes run, and the clock after them. */
  function Update(c: Clock, now: int, dur: int, frames: nat): (r: (Clock, nat))
    requires dur > 0 && frames > 0
    ensures r.1 <= frames
  {
    var n := Ticks(c, now, dur);
    if c.last == None then (Clock(Some(now), c.mixes + 1, now, c.mixes + 1), 1)
    else if now < c.last.value then (c, 0)
    else if n > frames then (Clock(Some(now), c.mixes + frames, now, c.mixes + frames), frames)
    else (c.(last := Some(c.last.value + n * dur), mixes := c.mixes + n), n)
  }

  function Updates(c: Clock, nows: seq<int>, dur: int, frames: nat): Clock
    requires dur > 0 && frames > 0
  {
    if |nows| == 0 then c
    else Update(Updates(c, nows[..|nows| - 1], dur, frames), nows[|nows| - 1], dur, frames).0
  }

  const UNSTARTED := Clock(None, 0, 0, 0)

  /** The mixed time is one period per mix since the anchor, and now is at most so far off it. */
  ghost predicate OnSchedule(c: Clock, now: int, dur: int)
    requires dur > 0
  {
    && c.last.Some?
    && c.mixes >= c.base && c.last.value == c.epoch + (c.mixes - c.base) * dur
    && -(dur / 4) <= now - c.last.value < dur - dur / 4
  }

  lemma Quotient(x: int, d: int)
    requires x >= 0 && d > 0
    ensures x / d >= 0 && 0 <= x - (x / d) * d < d
  {
  }

  lemma Distribute(a: int, b: int, d: int)
    ensures (a + b) * d == a * d + b * d
  {
  }

  lemma UpdateOnSchedule(c: Clock, before: int, now: int, dur: int, frames: nat)
    requires dur > 0 && frames > 0 && before <= now && OnSchedule(c, before, dur)
    ensures OnSchedule(Update(c, now, dur, frames).0, now, dur)
  {
    var late := now - c.last.value + dur / 4;
    if now >= c.last.value {
      Quotient(late, dur);
      var n := late / dur;
      if n <= frames {
        Distribute(c.mixes - c.base, n, dur);
        assert Update(c, now, dur, frames).0 == c.(last := Some(c.last.value + n * dur), mixes := c.mixes + n);
      }
    }
  }

  /**
    No drift: over any run of nondecreasing clock readings, the mixed time is exactly one ticker
    period per mix since the schedule was last anchored, and the clock is at most a quarter period
    behind it and less than three quarters ahead of it.
   */
  lemma {:induction false} NoDrift(nows: seq<int>, dur: int, frames: nat)
    requires dur > 0 && frames > 0 && |nows| > 0
    requires forall i, j :: 0 <= i < j < |nows| ==> nows[i] <= nows[j]
    ensures OnSchedule(Updates(UNSTARTED, nows, dur, frames), nows[|nows| - 1], dur)
  {
    var n := |nows| - 1;
    var prev, now := nows[..n], nows[n];
    if n > 0 {
      NoDrift(prev, dur, frames);
      assert prev[n - 1] <= now;
      UpdateOnSchedule(Updates(UNSTARTED, prev, dur, frames), prev[n - 1], now, dur, frames);
    } else {
      assert Updates(UNSTARTED, prev, dur, frames) == UNSTARTED;
    }
  }

  /** A firing that is not late by too much moves the mixed time by a period for each mix. */
  lemma UpdateOnTime(c: Clock, now: int, dur: int, frames: nat)
    requires dur > 0 && frames > 0 && c.last.Some? && Ticks(c, now, dur) <= frames
    ensures var (d, k) := Update(c, now, dur, frames);
            d == c.(last := Some(c.last.value + k * dur), mixes := c.mixes + k)
  {
    if now >= c.last.value { Quotient(now - c.last.value + dur / 4, dur); }
  }

  /** No firing is late by more than the buffered frames. */
  ghost predicate OnTime(nows: seq<int>, dur: int, frames: nat)
    requires dur > 0 && frames > 0
  {
    forall i :: 0 < i < |nows| ==> Ticks(Updates(UNSTARTED, nows[..i], dur, frames), nows[i], dur) <= frames
  }

  lemma OnTimeLess(nows: seq<int>, dur: int, frames: nat)
    requires dur > 0 && frames > 0 && |nows| > 1 && OnTime(nows, dur, frames)
    ensures var n := |nows| - 1;
            OnTime(nows[..n], dur, frames) && Ticks(Updates(UNSTARTED, nows[..n], dur, frames), nows[n], dur) <= frames
  {
    hide Ticks, Updates;
    var n := |nows| - 1;
    assert forall i :: 0 < i < n ==> nows[..n][..i] == nows[..i];
  }

  /**
    A run in which no firing is late by more than the buffered frames is anchored once, at its first
    firing: the mixed time is one period for every mix but the first after that, whatever the clock does.
   */
  lemma {:induction false} AnchoredOnce(nows: seq<int>, dur: int, frames: nat)
    requires dur > 0 && frames > 0 && |nows| > 0 && OnTime(nows, dur, frames)
    ensures var c := Updates(UNSTARTED, nows, dur, frames);
            c.last == Some(nows[0] + (c.mixes - 1) * dur) && c.epoch == nows[0] && c.base == 1
  {
    var n := |nows| - 1;
    var prev := nows[..n];
    if n > 0 {
      hide OnTime, Ticks, Update;
      OnTimeLess(nows, dur, frames);
      AnchoredOnce(prev, dur, frames);
      var c := Updates(UNSTARTED, prev, dur, frames);
      UpdateOnTime(c, nows[n], dur, frames);
      var (d, k) := Update(c, nows[n], dur, frames);
      Distribute(c.mixes - 1, k, dur);
    } else {
      assert Updates(UNSTARTED, prev, dur, frames) == UNSTARTED;
    }
  }
}
