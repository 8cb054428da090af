/** The mixer as the program keeps it: inputs with ring buffers, a mix buffer and a mixing clock. */
module Mixer {
  import opened Options
  import Ring
  import M = MixerModel

  /** The counters that inputs and mixer share. */
  class Counters {
    var s: M.Stats

    constructor ()
      ensures s == M.NO_STATS
    {
      s := M.NO_STATS;
    }
  }

  class Input {
    const buf: Ring.Buffer<int>
    const counters: Counters
    var buffering: bool
    ghost var written: seq<int>
    ghost var taken: seq<int>
    ghost var lost: nat

    ghost predicate Valid()
      reads this, buf
    {
      buf.Valid()
    }

    ghost function View(): M.In
      requires Valid()
      reads this, buf, buf.buf
    {
      M.In(buffering, buf.Contents(), buf.buf.Length, written, taken, lost)
    }

    constructor (cap: nat, counters: Counters)
      requires cap > 0
      ensures Valid() && fresh(buf) && fresh(buf.buf) && View() == M.NewIn(cap) && this.counters == counters
    {
      buf := new Ring.Buffer<int>(cap);
      this.counters := counters;
      buffering, written, taken, lost := true, [], [], 0;
    }

    method WriteSample(sample: seq<int>)
      requires Valid()
      modifies this, buf, buf.buf, counters
      ensures Valid()
      ensures View() == M.WriteSample(old(View()), sample)
      ensures counters.s == M.CountWrite(old(counters.s), old(View()), sample)
    {
      hide buf.Contents;
      counters.s := counters.s.(inputFrames := counters.s.inputFrames + 1,
                                inputSamples := counters.s.inputSamples + |sample|);
      var discarded := buf.Len() + |sample| - buf.buf.Length;
      if discarded > 0 {
        counters.s := counters.s.(inputFramesDropped := counters.s.inputFramesDropped + 1,
                                  inputSamplesDropped := counters.s.inputSamplesDropped + discarded);
        lost := lost + discarded;
      }
      written := written + sample;
      var _ := buf.Write(sample);
    }

    /** Fills out with samples, as many as it returns. */
    method ReadSample(bufMin: int, out: array<int>) returns (n: nat)
      requires Valid() && out != buf.buf
      modifies this, buf, out, counters
      ensures Valid()
      ensures var i := old(View());
              && n == M.Taken(i, bufMin, out.Length)
              && View() == M.ReadSample(i, bufMin, out.Length)
              && out[..n] == i.buf[..n]
              && counters.s == if n == 0 then M.CountRead(old(counters.s), i, bufMin, out.Length) else old(counters.s)
    {
      hide buf.Contents;
      ghost var c := buf.Contents();
      assert c[..0] == [] && c[0..] == c && taken + [] == taken;
      if buffering {
        if buf.Len() < bufMin { return 0; }
        buffering := false;
      }
      var eof;
      n, eof := buf.Read(out);
      taken := taken + c[..n];
      if n == 0 {
        buffering := true;
        counters.s := counters.s.(restarts := counters.s.restarts + 1);
      }
    }
  }

  class Mixer {
    const counters: Counters
    const mixBuf: array<int>
    const mixTmp: array<int>
    const tickerDur: int
    const inputBufferFrames: nat
    const inputBufferMin: nat
    var inputs: seq<Input>
    var stopped: bool
    var last: Option<int>
    var mixCnt: nat
    const chanSize: nat             // of the output channel; 0 when frames are written directly
    var queue: seq<seq<int>>        // frames in the output channel
    var writeErrors: nat
    var blockedMixes: nat
    ghost var written: seq<seq<int>> // frames written downstream
    ghost var epoch: int
    ghost var base: nat

    ghost predicate Apart()
      reads this`inputs
    {
      && mixTmp != mixBuf && mixTmp.Length == mixBuf.Length > 0
      && (forall i :: 0 <= i < |inputs| ==>
            inputs[i].counters == counters && inputs[i].buf.buf != mixBuf && inputs[i].buf.buf != mixTmp)
      && (forall i, j :: 0 <= i < j < |inputs| ==>
            inputs[i] != inputs[j] && inputs[i].buf != inputs[j].buf && inputs[i].buf.buf != inputs[j].buf.buf)
    }

    /** The frames put out: those written downstream and those that wait in the channel. */
    ghost function Out(): seq<seq<int>>
      reads this`written, this`queue
    {
      written + queue
    }

    ghost predicate Valid()
      reads this`inputs, this`queue, inputs, set i | i in inputs :: i.buf
    {
      && Apart() && tickerDur > 0 && inputBufferFrames > 0 && |queue| <= chanSize
      && forall i :: 0 <= i < |inputs| ==> inputs[i].Valid()
    }

    ghost function Clock(): M.Clock
      reads this
    {
      M.Clock(last, mixCnt, epoch, base)
    }

    static ghost function ViewsOf(inputs: seq<Input>): (ins: seq<M.In>)
      requires forall i :: 0 <= i < |inputs| ==> inputs[i].Valid()
      reads inputs, set i | i in inputs :: i.buf, set i | i in inputs :: i.buf.buf
      ensures |ins| == |inputs| && forall i :: 0 <= i < |ins| ==> ins[i] == inputs[i].View()
    {
      if |inputs| == 0 then [] else ViewsOf(inputs[..|inputs| - 1]) + [inputs[|inputs| - 1].View()]
    }

    /** What the inputs of the mix hold. */
    ghost function Views(): (ins: seq<M.In>)
      requires Valid()
      reads this`inputs, this`queue, inputs, set i | i in inputs :: i.buf, set i | i in inputs :: i.buf.buf
      ensures |ins| == |inputs|
    {
      ViewsOf(inputs)
    }

    /**
      frames is the option for the inputs' buffer size, a non-positive one standing for the default of 5;
      channel is that for the output channel, whose size is at least 1.
     */
    constructor (mixSize: nat, tickerDur: int, frames: int, channel: Option<int>)
      requires mixSize > 0 && tickerDur > 0
      ensures Valid() && fresh(mixBuf) && fresh(mixTmp) && fresh(counters)
      ensures inputs == [] && Out() == [] && Clock() == M.UNSTARTED && counters.s == M.NO_STATS && !stopped
      ensures mixBuf.Length == mixSize && this.tickerDur == tickerDur
      ensures chanSize == (if channel.None? then 0 else if channel.value <= 0 then 1 else channel.value)
      ensures inputBufferFrames == (if frames <= 0 then 5 else frames) && inputBufferMin == inputBufferFrames / 2 + 1
    {
      counters := new Counters();
      mixBuf := new int[mixSize];
      mixTmp := new int[mixSize];
      this.tickerDur := tickerDur;
      inputBufferFrames := if frames <= 0 then 5 else frames;
      inputBufferMin := (if frames <= 0 then 5 else frames) / 2 + 1;
      chanSize := if channel.None? then 0 else if channel.value <= 0 then 1 else channel.value;
      inputs, stopped, last, mixCnt := [], false, None, 0;
      queue, writeErrors, blockedMixes := [], 0, 0;
      written, epoch, base := [], 0, 0;
    }

    /** Adds the first n samples of mixTmp to the mix. */
    method AddFrame(n: nat)
      requires mixTmp != mixBuf && n <= mixTmp.Length == mixBuf.Length
      modifies mixBuf
      ensures forall j :: 0 <= j < mixBuf.Length ==>
                mixBuf[j] == if j < n then M.Wrap32(old(mixBuf[j]) + mixTmp[j]) else old(mixBuf[j])
    {
      for j := 0 to n
        invariant forall i :: 0 <= i < mixBuf.Length ==>
                    mixBuf[i] == if i < j then M.Wrap32(old(mixBuf[i]) + mixTmp[i]) else old(mixBuf[i])
      {
        mixBuf[j] := M.Wrap32(mixBuf[j] + mixTmp[j]);
      }
    }

    /** Reads one input into the mix. */
    method MixInput(k: nat, bufMin: int, ghost ins: seq<M.In>)
      requires Valid() && k < |inputs| == |ins| && inputs[k].View() == ins[k]
      requires forall j :: 0 <= j < mixBuf.Length ==>
                 mixBuf[j] == M.Wrap32(M.SumAt(M.Frames(ins[..k], bufMin, mixBuf.Length), j))
      modifies inputs[k], inputs[k].buf, mixBuf, mixTmp, counters
      ensures inputs[k].Valid() && inputs[k].View() == M.ReadSample(ins[k], bufMin, mixBuf.Length)
      ensures counters.s == M.CountRead(old(counters.s), ins[k], bufMin, mixBuf.Length)
      ensures forall j :: 0 <= j < mixBuf.Length ==>
                mixBuf[j] == M.Wrap32(M.SumAt(M.Frames(ins[..k + 1], bufMin, mixBuf.Length), j))
    {
      hide M.Wrap32;
      var n := inputs[k].ReadSample(bufMin, mixTmp);
      assert ins[..k + 1][..k] == ins[..k];
      ghost var fs := M.Frames(ins[..k], bufMin, mixBuf.Length);
      ghost var f := ins[k].buf[..n];
      assert M.Frames(ins[..k + 1], bufMin, mixBuf.Length) == fs + [f] && (fs + [f])[..k] == fs;
      if n > 0 {
        counters.s := counters.s.(mixedFrames := counters.s.mixedFrames + 1, mixedSamples := counters.s.mixedSamples + n);
        AddFrame(n);
        forall j | 0 <= j < mixBuf.Length ensures mixBuf[j] == M.Wrap32(M.SumAt(fs + [f], j)) {
          if j < n {
            assert mixTmp[..n][j] == f[j];
            M.Wrap32Adds(M.SumAt(fs, j), f[j]);
          }
        }
      }
    }

    /** The first k inputs have been read since they held ins; the others are as they were. */
    ghost predicate Mixing(k: nat, ins: seq<M.In>, bufMin: int)
      reads this, inputs, set i | i in inputs :: i.buf, set i | i in inputs :: i.buf.buf, mixBuf
    {
      && Valid() && k <= |inputs| == |ins|
      && (forall i :: 0 <= i < |inputs| ==>
            inputs[i].View() == if i < k then M.ReadSample(ins[i], bufMin, mixBuf.Length) else ins[i])
      && (forall j :: 0 <= j < mixBuf.Length ==>
            mixBuf[j] == M.Wrap32(M.SumAt(M.Frames(ins[..k], bufMin, mixBuf.Length), j)))
    }

    method MixNext(k: nat, bufMin: int, ghost ins: seq<M.In>)
      requires k < |inputs| && Mixing(k, ins, bufMin)
      modifies inputs, set i | i in inputs :: i.buf, mixBuf, mixTmp, counters
      ensures Mixing(k + 1, ins, bufMin)
      ensures counters.s == M.CountRead(old(counters.s), ins[k], bufMin, mixBuf.Length)
    {
      hide M.ReadSample, M.CountRead, M.Wrap32, M.SumAt, M.Frames, Ring.Buffer.Contents, Ring.Buffer.Valid;
      MixInput(k, bufMin, ins);
      forall i | 0 <= i < |inputs| && i != k ensures inputs[i].Valid() && inputs[i].View() == old(inputs[i].View()) { }
    }

    lemma MixingStarts(bufMin: int)
      requires Valid() && forall j :: 0 <= j < mixBuf.Length ==> mixBuf[j] == 0
      ensures Mixing(0, Views(), bufMin)
    {
      assert Views()[..0] == [];
    }

    /** Adds what every input gives to the mix, which starts at zero. */
    method MixInputs()
      requires Valid() && forall j :: 0 <= j < mixBuf.Length ==> mixBuf[j] == 0
      modifies inputs, set i | i in inputs :: i.buf, mixBuf, mixTmp, counters
      ensures var ins, m := old(Views()), inputBufferMin * mixBuf.Length;
              && Mixing(|inputs|, ins, m)
              && counters.s == M.CountMix(old(counters.s), ins, m, mixBuf.Length)
    {
      hide Valid, Mixing, Views, M.CountRead;
      var bufMin := inputBufferMin * mixBuf.Length;
      ghost var ins := Views();
      assert ins[..0] == [] && ins[..|ins|] == ins;
      MixingStarts(bufMin);
      for k := 0 to |inputs|
        invariant Mixing(k, ins, bufMin)
        invariant counters.s == M.CountMix(old(counters.s), ins[..k], bufMin, mixBuf.Length)
      {
        assert ins[..k + 1][..k] == ins[..k];
        MixNext(k, bufMin, ins);
      }
    }

    /** Resets the mix buffer and adds what the inputs give. */
    method MixDown()
      requires Valid()
      modifies inputs, set i | i in inputs :: i.buf, mixBuf, mixTmp, counters
      ensures Valid()
      ensures var ins, m := old(Views()), inputBufferMin * mixBuf.Length;
              && Views() == M.After(ins, m, mixBuf.Length, 1)
              && counters.s == M.CountMix(old(counters.s), ins, m, mixBuf.Length)
              && forall j :: 0 <= j < mixBuf.Length ==>
                   mixBuf[j] == M.Wrap32(M.SumAt(M.Frames(ins, m, mixBuf.Length), j))
    {
      hide M.Frames, M.SumAt, M.CountMix, M.ReadSample, M.Wrap32;
      ghost var ins := Views();
      ghost var m := inputBufferMin * mixBuf.Length;
      Reset();
      assert Views() == ins;
      MixInputs();
      assert ins[..|inputs|] == ins;
      assert M.After(ins, m, mixBuf.Length, 0) == ins;
      assert Views() == M.After(ins, m, mixBuf.Length, 1);
    }

    /** Writes a frame downstream, which may fail. */
    method WriteOut(frame: seq<int>)
      modifies this`written, this`writeErrors
      ensures written == old(written) + [frame]
    {
      written := written + [frame];
      var failed: bool := *;
      if failed { writeErrors := writeErrors + 1; }
    }

    /** A turn of the writer behind the channel: it takes the oldest frame and writes it. */
    method Writer()
      requires Valid() && |queue| > 0
      modifies this`queue, this`written, this`writeErrors
      ensures Valid() && Out() == old(Out()) && |queue| == |old(queue)| - 1
    {
      var mixed := queue[0];
      queue := queue[1..];
      WriteOut(mixed);
    }

    /** Puts a frame out: written directly, or sent over the channel, which blocks until there is room. */
    method Send(frame: seq<int>)
      requires Valid()
      modifies this`queue, this`written, this`writeErrors, this`blockedMixes
      ensures Valid() && Out() == old(Out()) + [frame]
      ensures blockedMixes == old(blockedMixes) + if chanSize > 0 && |old(queue)| == chanSize then 1 else 0
    {
      if chanSize == 0 {
        assert queue == [];
        WriteOut(frame);
        return;
      }
      if |queue| == chanSize {
        blockedMixes := blockedMixes + 1;
        Writer();                     // the send goes through when the writer has taken a frame
      }
      assert written + (queue + [frame]) == Out() + [frame];
      queue := queue + [frame];
    }

    /** One mix: the clamped sums are put out. */
    method MixOnce()
      requires Valid()
      modifies this`mixCnt, this`queue, this`written, this`writeErrors, this`blockedMixes,
               inputs, set i | i in inputs :: i.buf, mixBuf, mixTmp, counters
      ensures Valid() && mixCnt == old(mixCnt) + 1
      ensures var ins, m := old(Views()), inputBufferMin * mixBuf.Length;
              && Out() == old(Out()) + [M.Mixed(ins, m, mixBuf.Length)]
              && Views() == M.After(ins, m, mixBuf.Length, 1)
              && counters.s == M.CountMix(old(counters.s), ins, m, mixBuf.Length)
      ensures var ins, m, out := old(Views()), inputBufferMin * mixBuf.Length, Out();
              && |out| == |old(Out())| + 1 && |out[|out| - 1]| == mixBuf.Length
              && (M.Sampled(ins) ==> forall j :: 0 <= j < mixBuf.Length ==> M.Clipped(out[|out| - 1][j], M.Given(ins, m, j)))
    {
      hide M.Frames, M.SumAt, M.CountMix, M.After, M.Wrap32, M.Given, M.Sampled, M.Clipped, ViewsOf;
      mixCnt := mixCnt + 1;
      ghost var ins := Views();
      MixDown();
      var frame := seq(mixBuf.Length, j requires 0 <= j < mixBuf.Length reads mixBuf => M.Clamp(mixBuf[j]));
      assert frame == M.Mixed(ins, inputBufferMin * mixBuf.Length, mixBuf.Length);
      Send(frame);
      if M.Sampled(ins) { M.MixedIsClipped(ins, inputBufferMin * mixBuf.Length, mixBuf.Length); }
    }

    method Reset()
      modifies mixBuf
      ensures forall j :: 0 <= j < mixBuf.Length ==> mixBuf[j] == 0
    {
      for i := 0 to mixBuf.Length
        invariant forall j :: 0 <= j < i ==> mixBuf[j] == 0
      {
        mixBuf[i] := 0;
      }
    }

    /** Advances the mixing clock, and says how many mixes are due. */
    method Due(now: int) returns (n: nat)
      requires tickerDur > 0 && inputBufferFrames > 0
      modifies this`last, this`epoch, this`base
      ensures var (c, k) := M.Update(old(Clock()), now, tickerDur, inputBufferFrames);
              n == k && Clock().(mixes := mixCnt + n) == c
    {
      if last == None {
        last := Some(now);
        epoch, base := now, 1 + mixCnt;
        return 1;
      }
      var dt := now - last.value;
      if dt < 0 { return 0; }
      dt := dt + tickerDur / 4;
      n := dt / tickerDur;
      last := Some(last.value + n * tickerDur);
      if n > inputBufferFrames {
        n := inputBufferFrames;
        last := Some(now);
        epoch, base := now, n + mixCnt;
      }
    }

    method MixTimes(n: nat)
      requires Valid()
      modifies this`mixCnt, this`queue, this`written, this`writeErrors, this`blockedMixes, inputs, set i | i in inputs :: i.buf, mixBuf, mixTmp, counters
      ensures Valid() && mixCnt == old(mixCnt) + n
      ensures var ins, m := old(Views()), inputBufferMin * mixBuf.Length;
              && Out() == old(Out()) + M.Outputs(ins, m, mixBuf.Length, n)
              && Views() == M.After(ins, m, mixBuf.Length, n)
    {
      hide M.Mixed, M.CountMix, M.After, Valid, Views;
      ghost var ins, m, size := Views(), inputBufferMin * mixBuf.Length, mixBuf.Length;
      M.NoMix(ins, m, size);
      for i := 0 to n
        invariant Valid() && mixCnt == old(mixCnt) + i
        invariant Out() == old(Out()) + M.Outputs(ins, m, size, i)
        invariant Views() == M.After(ins, m, size, i)
      {
        M.AfterOneMore(ins, m, size, i);
        MixOnce();
      }
    }

    /** One ticker firing: runs the mixes that are due, at most as many as an input buffers frames. */
    method MixUpdate(now: int)
      requires Valid()
      modifies this`last, this`epoch, this`base, this`mixCnt, this`queue, this`written, this`writeErrors, this`blockedMixes,
               inputs, set i | i in inputs :: i.buf, mixBuf, mixTmp, counters
      ensures Valid()
      ensures var (c, n) := M.Update(old(Clock()), now, tickerDur, inputBufferFrames);
              var ins, m := old(Views()), inputBufferMin * mixBuf.Length;
              && Clock() == c
              && Out() == old(Out()) + M.Outputs(ins, m, mixBuf.Length, n)
              && Views() == M.After(ins, m, mixBuf.Length, n)
    {
      assert tickerDur > 0 && inputBufferFrames > 0;
      hide M.Mixed, M.After, M.Outputs, M.Update, Valid, Views;
      var n := Due(now);
      assert Valid() && Views() == old(Views());
      MixTimes(n);
    }

    /** A new input, or none once the mixer is stopped. */
    method NewInput() returns (inp: Input?)
      requires Valid()
      modifies this`inputs
      ensures Valid()
      ensures if stopped then inp == null && inputs == old(inputs)
              else inp != null && fresh(inp) && inputs == old(inputs) + [inp]
                   && inp.Valid() && inp.View() == M.NewIn(mixBuf.Length * inputBufferFrames)
    {
      if stopped { return null; }
      Positive(mixBuf.Length, inputBufferFrames);
      inp := new Input(mixBuf.Length * inputBufferFrames, counters);
      inputs := inputs + [inp];
    }

    static lemma Positive(a: nat, b: nat)
      requires a > 0 && b > 0
      ensures a * b > 0
    {
    }

    /** Takes the input out of the mix, if it is in; it keeps what it holds. */
    method RemoveInput(inp: Input)
      requires Valid()
      modifies this`inputs
      ensures Valid() && inp !in inputs
      ensures inp !in old(inputs) ==> inputs == old(inputs)
      ensures forall i :: 0 <= i < |old(inputs)| && old(inputs)[i] == inp ==>
                inputs == old(inputs)[..i] + old(inputs)[i + 1..]
    {
      var k := 0;
      while k < |inputs| && inputs[k] != inp
        invariant k <= |inputs| && inp !in inputs[..k]
      {
        k := k + 1;
      }
      if k < |inputs| {
        inputs := inputs[..k] + inputs[k + 1..];
      }
    }

    method Stop()
      modifies this`stopped
      ensures stopped
    {
      stopped := true;
    }
  }
}
