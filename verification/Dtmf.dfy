/** Sending and encoding DTMF digits: the tick loop of Write and the event payload. */
module Dtmf {
  import opened Options
  import Rtp = RtpModel

  const STEP: int := 20_000_000
  const EVENT_DUR: int := 250_000_000
  const DELAY_DUR: int := 500_000_000
  const SECOND: int := 1_000_000_000

  const TONE_TICKS: nat := 13     // EVENT_DUR rounded up to whole frames
  const DELAY_TICKS: nat := 25
  const PACKETS: nat := 15

  type byte = x: int | 0 <= x < 0x100

  // ----- events

  /** The code of a digit, or None when it is not a DTMF digit. */
  function Code(digit: char): (c: Option<byte>)
    ensures c.Some? ==> c.value < 16
  {
    if '0' <= digit <= '9' then Some((digit - '0') as int)
    else if digit == '*' then Some(10)
    else if digit == '#' then Some(11)
    else if 'a' <= digit <= 'd' then Some(12 + (digit - 'a') as int)
    else None
  }

  const DIGITS: string := "0123456789*#abcd"

  function CodeToChar(code: byte): Option<char> {
    if code < 16 then Some(DIGITS[code]) else None
  }

  /** The digit of a code is the only one with that code. */
  lemma CodesInvert(digit: char, code: byte)
    ensures Code(digit) == Some(code) <==> CodeToChar(code) == Some(digit)
  {
    if code < 16 && DIGITS[code] == digit {
      assert DIGITS[0] == '0' && DIGITS[1] == '1' && DIGITS[2] == '2' && DIGITS[3] == '3';
      assert DIGITS[4] == '4' && DIGITS[5] == '5' && DIGITS[6] == '6' && DIGITS[7] == '7';
      assert DIGITS[8] == '8' && DIGITS[9] == '9' && DIGITS[10] == '*' && DIGITS[11] == '#';
      assert DIGITS[12] == 'a' && DIGITS[13] == 'b' && DIGITS[14] == 'c' && DIGITS[15] == 'd';
    }
  }

  datatype Event = Event(code: byte, digit: Option<char>, volume: int, dur: int, end: bool)

  /** The four bytes of a payload; a digit that is given takes precedence over the code. */
  function Encode(ev: Event): (p: seq<byte>)
    requires 0 <= ev.volume && 0 <= ev.dur < 0x1_0000
    ensures |p| == 4
  {
    var code := if ev.digit.None? then ev.code else var c := Code(ev.digit.value); if c.Some? then c.value else 0;
    [code, ev.volume % 0x40 + (if ev.end then 0x80 else 0), ev.dur / 0x100, ev.dur % 0x100]
  }

  function Decode(p: seq<byte>): Option<Event> {
    if |p| < 4 then None
    else Some(Event(p[0], CodeToChar(p[0]), p[1] % 0x40, (p[2] as int) * 0x100 + (p[3] as int), p[1] >= 0x80))
  }

  /** A decoded payload is the event encoded, its digit that of its code. */
  lemma RoundTrip(ev: Event)
    requires 0 <= ev.volume < 0x40 && 0 <= ev.dur < 0x1_0000
    requires ev.digit.Some? ==> Code(ev.digit.value) == Some(ev.code)
    ensures Decode(Encode(ev)) == Some(ev.(digit := CodeToChar(ev.code)))
    ensures ev.digit.Some? ==> Decode(Encode(ev)) == Some(ev)
  {
    if ev.digit.Some? { CodesInvert(ev.digit.value, ev.code); }
  }

  /** The codes of RFC 4733 section 3.2: the ten digits, star, hash and the four letters, and no others. */
  lemma CodeTable(digit: char, code: Option<byte>)
    requires code == Code(digit)
    ensures code == Some(0) <==> digit == '0'
    ensures code == Some(10) <==> digit == '*'
    ensures code == Some(11) <==> digit == '#'
    ensures forall k: byte :: k < 10 ==> (code == Some(k) <==> digit as int == '0' as int + k)
    ensures forall k: byte :: 12 <= k < 16 ==> (code == Some(k) <==> digit as int == 'a' as int + k - 12)
    ensures code.Some? ==> code.value < 16
  {
  }

  /** The layout of RFC 4733 section 2.3: event, end bit and volume, duration with its high byte first. */
  lemma EncodeBytes(ev: Event, p: seq<byte>)
    requires 0 <= ev.volume && 0 <= ev.dur < 0x1_0000 && p == Encode(ev)
    ensures |p| == 4
    ensures ev.digit.None? ==> p[0] == ev.code
    ensures ev.digit.Some? && Code(ev.digit.value).Some? ==> Some(p[0]) == Code(ev.digit.value)
    ensures ev.digit.Some? && Code(ev.digit.value).None? ==> p[0] == 0
    ensures p[1] >= 128 <==> ev.end
    ensures (p[1] - ev.volume) % 64 == 0 && p[1] % 128 < 64
    ensures 256 * (p[2] as int) + p[3] == ev.dur
  {
  }

  // ----- what is sent for a digit string

  /** A packet of the events stream: its payload, timestamp and marker. */
  datatype Packet = Packet(ts: int, marker: bool, code: byte, dur: int, end: bool)

  /** Duration after n steps, in units of the events rate: u nanoseconds each. */
  function Duration(n: nat, u: int): int
    requires u > 0
  {
    n * STEP / u
  }

  /** The i-th packet of a digit: one a step, the last one three times. */
  function TonePacket(i: nat, code: byte, ts: int, u: int): Packet
    requires u > 0
  {
    Packet(ts, i == 0, code, Duration(if i < TONE_TICKS then i + 1 else TONE_TICKS, u), i >= TONE_TICKS - 1)
  }

  /** The first n packets of a digit, none of one that has no code. */
  function TonePackets(digit: char, ts: int, u: int, n: nat): (ps: seq<Packet>)
    requires u > 0
  {
    var c := Code(digit);
    if c.None? then [] else seq(n, i requires 0 <= i < n => TonePacket(i, c.value, ts, u))
  }

  /** Ticks a digit takes: tone and pause, or a delay. */
  function DigitTicks(digit: char): nat {
    if digit == 'w' then DELAY_TICKS else TONE_TICKS + TONE_TICKS
  }

  function Ticks(digits: string): nat {
    if |digits| == 0 then 0 else Ticks(digits[..|digits| - 1]) + DigitTicks(digits[|digits| - 1])
  }

  /** All packets, sync(t) being the timestamp the stream would take at tick t. */
  function Packets(digits: string, sync: nat -> int, u: int): seq<Packet>
    requires u > 0
  {
    if |digits| == 0 then []
    else
      var before, d := digits[..|digits| - 1], digits[|digits| - 1];
      Packets(before, sync, u) + if d == 'w' then [] else TonePackets(d, sync(Ticks(before)), u, PACKETS)
  }

  function Repeat(c: Option<byte>, n: nat): (r: seq<Option<byte>>)
    ensures |r| == n
  {
    seq(n, _ => c)
  }

  /** All audio frames, a tone or silence each. */
  function Audio(digits: string): (r: seq<Option<byte>>)
    ensures |r| == Ticks(digits)
  {
    if |digits| == 0 then []
    else
      var before, d := digits[..|digits| - 1], digits[|digits| - 1];
      Audio(before) + if d == 'w' then Repeat(None, DELAY_TICKS)
                      else Repeat(Code(d), TONE_TICKS) + Repeat(None, TONE_TICKS)
  }

  /** Rounds a duration up to whole steps. */
  function RoundUp(dt: int): (r: int)
    requires dt >= 0
    ensures r % STEP == 0 && dt <= r < dt + STEP
  {
    (dt + STEP - 1) / STEP * STEP
  }

  // ----- sending

  /** What has been sent when k of n ticks of the current tone or pause are over. */
  ghost predicate Progress(digits: string, i: nat, tone: bool, k: nat, n: nat, tick: nat, sync: nat -> int, u: int,
                           sent: seq<Packet>, frames: seq<Option<byte>>)
    requires u > 0 && i <= |digits| && k <= n
  {
    if tone then
      && i > 0 && digits[i - 1] != 'w' && n == TONE_TICKS
      && var before, d := digits[..i - 1], digits[i - 1];
      && tick == Ticks(before) + k
      && sent == Packets(before, sync, u) + TonePackets(d, sync(Ticks(before)), u, if k < TONE_TICKS then k else PACKETS)
      && frames == Audio(before) + Repeat(Code(d), k)
    else
      && tick + (n - k) == Ticks(digits[..i])
      && sent == Packets(digits[..i], sync, u)
      && frames + Repeat(None, n - k) == Audio(digits[..i])
  }

  lemma StartTone(digits: string, i: nat, tick: nat, sync: nat -> int, u: int, n: nat,
                  sent: seq<Packet>, frames: seq<Option<byte>>)
    requires u > 0 && i < |digits| && digits[i] != 'w'
    requires Progress(digits, i, false, n, n, tick, sync, u, sent, frames)
    ensures Progress(digits, i + 1, true, 0, TONE_TICKS, tick, sync, u, sent, frames)
  {
    assert digits[..i + 1][..i] == digits[..i];
    assert TonePackets(digits[i], sync(tick), u, 0) == [];
    assert sent + [] == sent && frames + [] == frames;
  }

  lemma StartPause(digits: string, i: nat, tick: nat, sync: nat -> int, u: int,
                   sent: seq<Packet>, frames: seq<Option<byte>>)
    requires u > 0 && i <= |digits|
    requires Progress(digits, i, true, TONE_TICKS, TONE_TICKS, tick, sync, u, sent, frames)
    ensures Progress(digits, i, false, 0, TONE_TICKS, tick, sync, u, sent, frames)
  {
    var before, d := digits[..i - 1], digits[i - 1];
    assert digits[..i][..i - 1] == before;
    assert (Audio(before) + Repeat(Code(d), TONE_TICKS)) + Repeat(None, TONE_TICKS)
        == Audio(before) + (Repeat(Code(d), TONE_TICKS) + Repeat(None, TONE_TICKS));
  }

  lemma StartDelay(digits: string, i: nat, tick: nat, sync: nat -> int, u: int, n: nat,
                   sent: seq<Packet>, frames: seq<Option<byte>>)
    requires u > 0 && i < |digits| && digits[i] == 'w'
    requires Progress(digits, i, false, n, n, tick, sync, u, sent, frames)
    ensures Progress(digits, i + 1, false, 0, DELAY_TICKS, tick, sync, u, sent, frames)
  {
    assert digits[..i + 1][..i] == digits[..i];
    assert sent + [] == sent && frames + [] == frames;
  }

  lemma ToneTick(digits: string, i: nat, k: nat, tick: nat, sync: nat -> int, u: int,
                 sent: seq<Packet>, frames: seq<Option<byte>>)
    requires u > 0 && i <= |digits| && k < TONE_TICKS
    requires Progress(digits, i, true, k, TONE_TICKS, tick, sync, u, sent, frames)
    ensures i > 0 && tick == Ticks(digits[..i - 1]) + k
    ensures var d := digits[i - 1];
            var ts := sync(Ticks(digits[..i - 1]));
            var more := if Code(d).None? then []
                        else var p := TonePacket(k, Code(d).value, ts, u); if k == TONE_TICKS - 1 then [p, p, p] else [p];
            Progress(digits, i, true, k + 1, TONE_TICKS, tick + 1, sync, u, sent + more, frames + [Code(d)])
  {
    var before, d := digits[..i - 1], digits[i - 1];
    var ts := sync(Ticks(before));
    assert Repeat(Code(d), k) + [Code(d)] == Repeat(Code(d), k + 1);
    if Code(d).Some? {
      var p := TonePacket(k, Code(d).value, ts, u);
      if k == TONE_TICKS - 1 {
        assert TonePackets(d, ts, u, PACKETS) == TonePackets(d, ts, u, k) + [p, p, p];
      } else {
        assert TonePackets(d, ts, u, k + 1) == TonePackets(d, ts, u, k) + [p];
      }
    } else {
      assert sent + [] == sent;
    }
  }

  lemma PauseTick(digits: string, i: nat, k: nat, n: nat, tick: nat, sync: nat -> int, u: int,
                  sent: seq<Packet>, frames: seq<Option<byte>>)
    requires u > 0 && i <= |digits| && k < n
    requires Progress(digits, i, false, k, n, tick, sync, u, sent, frames)
    ensures Progress(digits, i, false, k + 1, n, tick + 1, sync, u, sent, frames + [None])
  {
    assert frames + [None] + Repeat(None, n - k - 1) == frames + Repeat(None, n - k);
  }

  /** The variables of the loop. */
  datatype Loop = Loop(digits: string, code: Option<byte>, nextDelay: int, totalDur: int, remaining: int, ts: int)

  /** i digits have been picked, and k of the n ticks of the current segment are over. */
  ghost predicate Coherent(l: Loop, digits: string, i: nat, k: nat, n: nat, sync: nat -> int) {
    && i <= |digits| && l.digits == digits[i..] && k <= n
    && l.totalDur == n * STEP && l.remaining == (n - k) * STEP
    && (l.nextDelay == 0 || l.nextDelay == EVENT_DUR)
    && (l.nextDelay == 0 ==> l.code == None)
    && (l.nextDelay != 0 ==>
          && i > 0 && n == TONE_TICKS && l.code == Code(digits[i - 1])
          && (k > 0 && l.code.Some? ==> l.ts == sync(Ticks(digits[..i - 1]))))
  }

  /** When a tone or pause has ended: the pause after it, or the next digit, or the end of the digits. */
  method Pick(l: Loop, ghost digits: string, ghost i: nat, ghost n: nat, ghost tick: nat, ghost sync: nat -> int,
              ghost u: int, ghost sent: seq<Packet>, ghost frames: seq<Option<byte>>)
    returns (m: Loop, more: bool, ghost i': nat, ghost n': nat)
    requires u > 0 && Coherent(l, digits, i, n, n, sync)
    requires Progress(digits, i, l.nextDelay != 0, n, n, tick, sync, u, sent, frames)
    ensures !more ==> l.nextDelay == 0 && i == |digits|
    ensures !more ==> m == l && i' == i && n' == n
    ensures more ==> Coherent(m, digits, i', 0, n', sync) && n' > 0
                     && Progress(digits, i', m.nextDelay != 0, 0, n', tick, sync, u, sent, frames)
    ensures more ==> |m.digits| < |l.digits| || (m.digits == l.digits && m.nextDelay < l.nextDelay)
  {
    hide Progress;
    m, more, i', n' := l, true, i, TONE_TICKS;
    if l.nextDelay != 0 {
      StartPause(digits, i, tick, sync, u, sent, frames);
      var dt := RoundUp(l.nextDelay);
      m := l.(code := None, remaining := dt, totalDur := dt, nextDelay := 0);
    } else if |l.digits| == 0 {
      more, n' := false, n;
    } else {
      var b := l.digits[0];
      i' := i + 1;
      if b == 'w' {
        StartDelay(digits, i, tick, sync, u, n, sent, frames);
        var dt := RoundUp(DELAY_DUR);
        m := l.(digits := l.digits[1..], code := None, remaining := dt, totalDur := dt, nextDelay := 0);
        n' := DELAY_TICKS;
      } else {
        StartTone(digits, i, tick, sync, u, n, sent, frames);
        var dt := RoundUp(EVENT_DUR);
        m := l.(digits := l.digits[1..], code := Code(b), remaining := dt, totalDur := dt, nextDelay := EVENT_DUR);
      }
    }
  }

  lemma LoopFacts(l: Loop, digits: string, i: nat, k: nat, n: nat, sync: nat -> int)
    requires Coherent(l, digits, i, k, n, sync)
    ensures i <= |digits| && k <= n && (l.remaining <= 0 <==> k == n) && l.nextDelay >= 0
    ensures l.nextDelay != 0 ==> i > 0 && n == TONE_TICKS && l.code == Code(digits[i - 1])
    ensures l.nextDelay == 0 ==> l.code == None
  {
  }

  lemma TickOver(l: Loop, digits: string, i: nat, k: nat, n: nat, sync: nat -> int, ts: int)
    requires Coherent(l, digits, i, k, n, sync) && k < n
    requires l.nextDelay != 0 && l.code.Some? ==> ts == sync(Ticks(digits[..i - 1]))
    ensures Coherent(l.(remaining := l.remaining - STEP, ts := ts), digits, i, k + 1, n, sync)
  {
  }

  /** Nanoseconds per unit of the events rate. */
  function Unit(eventsRate: int): (u: int)
    requires 0 < eventsRate <= SECOND
    ensures u > 0
  {
    SECOND / eventsRate
  }

  /** The duration of a whole tone fits the 16-bit field. */
  predicate Fits(u: int) {
    u > 0 && TONE_TICKS * STEP / u < 0x1_0000
  }

  /** The packets of one tick of a tone, which takes its timestamp at its first tick. */
  method Emit(l: Loop, tick: nat, sync: nat -> int, u: int, ghost digits: string, ghost i: nat, ghost k: nat)
    returns (ts: int, ps: seq<Packet>)
    requires u > 0 && Fits(u)
    requires l.code.Some? && l.nextDelay != 0 && k < TONE_TICKS && Coherent(l, digits, i, k, TONE_TICKS, sync)
    requires tick == Ticks(digits[..i - 1]) + k
    ensures ts == sync(Ticks(digits[..i - 1]))
    ensures var p := TonePacket(k, l.code.value, ts, u); ps == if k == TONE_TICKS - 1 then [p, p, p] else [p]
  {
    hide Ticks, Duration, DurField;
    var dur := STEP + l.totalDur - l.remaining;
    var first := l.totalDur == l.remaining;
    var end := l.remaining - STEP <= 0;
    ts := if first then sync(tick) else l.ts;
    DurationFits(k + 1, u);
    assert dur == (k + 1) * STEP;
    var p := Packet(ts, first, l.code.value, DurField(dur, u), end);
    ps := if end then [p, p, p] else [p];
  }

  lemma {:induction false} WholeDigits(digits: string, i: nat, sync: nat -> int, u: int)
    requires u > 0 && i <= |digits|
    ensures Packets(digits[..i], sync, u) <= Packets(digits, sync, u)
    ensures Audio(digits[..i]) <= Audio(digits) && Ticks(digits[..i]) <= Ticks(digits)
    decreases |digits|
  {
    if i == |digits| {
      assert digits[..i] == digits;
    } else {
      var before := digits[..|digits| - 1];
      assert before[..i] == digits[..i];
      WholeDigits(before, i, sync, u);
      hide DigitTicks, TonePackets, Repeat;
    }
  }

  /** At any point of a digit what has been sent is a prefix of what is to be sent. */
  lemma ProgressIsPrefix(digits: string, i: nat, tone: bool, k: nat, n: nat, tick: nat, sync: nat -> int, u: int,
                         sent: seq<Packet>, frames: seq<Option<byte>>)
    requires u > 0 && i <= |digits| && k <= n && Progress(digits, i, tone, k, n, tick, sync, u, sent, frames)
    ensures sent <= Packets(digits, sync, u) && frames <= Audio(digits) && tick <= Ticks(digits) && |frames| == tick
  {
    WholeDigits(digits, i, sync, u);
    if tone {
      var before, d := digits[..i - 1], digits[i - 1];
      var ts := sync(Ticks(before));
      assert digits[..i][..i - 1] == before;
      assert TonePackets(d, ts, u, if k < TONE_TICKS then k else PACKETS) <= TonePackets(d, ts, u, PACKETS);
      assert Repeat(Code(d), k) <= Repeat(Code(d), TONE_TICKS) + Repeat(None, TONE_TICKS);
      hide TonePackets, Repeat;
      Extends(Packets(before, sync, u), sent, Packets(digits[..i], sync, u), Packets(digits, sync, u));
      Extends(Audio(before), frames, Audio(digits[..i]), Audio(digits));
    }
  }

  /** a + b is a prefix of all when it is one of part, and part is one of all. */
  lemma Extends<T>(a: seq<T>, some: seq<T>, part: seq<T>, all: seq<T>)
    requires a <= some && a <= part && some[|a|..] <= part[|a|..] && part <= all
    ensures some <= all
  {
    assert some == a + some[|a|..] && part == a + part[|a|..];
  }

  /** What one tick adds: the packets of the events stream, and the timestamp they have. */
  method Turn(l: Loop, tick: nat, sync: nat -> int, u: int, ghost digits: string, ghost i: nat, ghost k: nat, ghost n: nat,
              ghost sent: seq<Packet>, ghost frames: seq<Option<byte>>)
    returns (ts: int, ps: seq<Packet>)
    requires u > 0 && Fits(u) && i <= |digits| && k < n && Coherent(l, digits, i, k, n, sync)
    requires Progress(digits, i, l.nextDelay != 0, k, n, tick, sync, u, sent, frames)
    ensures Progress(digits, i, l.nextDelay != 0, k + 1, n, tick + 1, sync, u, sent + ps, frames + [l.code])
    ensures Coherent(l.(remaining := l.remaining - STEP, ts := ts), digits, i, k + 1, n, sync)
    ensures sent + ps <= Packets(digits, sync, u) && frames + [l.code] <= Audio(digits)
    ensures |frames| == tick
  {
    LoopFacts(l, digits, i, k, n, sync);
    hide Fits, Progress, Packets, Audio, TonePackets, TonePacket, Duration, Ticks, Code, Coherent;
    ps, ts := [], l.ts;
    if l.nextDelay != 0 {
      ToneTick(digits, i, k, tick, sync, u, sent, frames);
      if l.code.Some? {
        ts, ps := Emit(l, tick, sync, u, digits, i, k);
      }
    } else {
      PauseTick(digits, i, k, n, tick, sync, u, sent, frames);
      assert sent + [] == sent;
    }
    ProgressIsPrefix(digits, i, l.nextDelay != 0, k + 1, n, tick + 1, sync, u, sent + ps, frames + [l.code]);
    TickOver(l, digits, i, k, n, sync, ts);
  }

  /** How a call of Write ends. */
  datatype Outcome = Sent | Cancelled | AudioFailed | EventsFailed

  /** Before the given tick nothing was cancelled or failed, nor did the first m packets. */
  ghost predicate Clear(tick: nat, m: nat, cancelled: nat -> bool, audioFails: nat -> bool, eventsFail: nat -> bool) {
    && (forall t :: 0 <= t < tick ==> !cancelled(t) && !audioFails(t))
    && (forall j :: 0 <= j < m ==> !eventsFail(j))
  }

  /** The events written until one fails; m counts those written before. */
  method WriteEvents(ps: seq<Packet>, m: nat, eventsFail: nat -> bool, ghost tick: nat, ghost cancelled: nat -> bool,
                     ghost audioFails: nat -> bool) returns (n: nat)
    requires Clear(tick, m, cancelled, audioFails, eventsFail)
    ensures n <= |ps| && Clear(tick, m + n, cancelled, audioFails, eventsFail)
    ensures n < |ps| ==> eventsFail(m + n)
  {
    n := 0;
    while n < |ps|
      invariant n <= |ps| && Clear(tick, m + n, cancelled, audioFails, eventsFail)
    {
      if eventsFail(m + n) { return; }
      n := n + 1;
    }
  }

  lemma ClearTick(tick: nat, m: nat, cancelled: nat -> bool, audioFails: nat -> bool, eventsFail: nat -> bool)
    requires Clear(tick, m, cancelled, audioFails, eventsFail) && !cancelled(tick) && !audioFails(tick)
    ensures Clear(tick + 1, m, cancelled, audioFails, eventsFail)
  {
  }

  lemma PartIsPrefix<T>(s: seq<T>, p: seq<T>, n: nat, all: seq<T>)
    requires n < |p| && s + p <= all
    ensures s + p[..n] <= all && |s + p[..n]| == |s| + n < |all|
  {
  }

  /** What a call has done when it returns: all of it, or a prefix up to what stopped it. */
  ghost predicate Ends(out: Outcome, tick: nat, sent: seq<Packet>, frames: seq<Option<byte>>, digits: string, sync: nat -> int,
                       u: int, cancelled: nat -> bool, audioFails: nat -> bool, eventsFail: nat -> bool)
    requires u > 0
  {
    && sent <= Packets(digits, sync, u) && frames <= Audio(digits)
    && Clear(tick, |sent|, cancelled, audioFails, eventsFail)
    && (out.Cancelled? <==> cancelled(tick))
    && |frames| == (if out.EventsFailed? then tick + 1 else tick)
    && match out
       case Sent => tick == Ticks(digits) && sent == Packets(digits, sync, u) && frames == Audio(digits)
       case Cancelled => true
       case AudioFailed => audioFails(tick)
       case EventsFailed => !audioFails(tick) && eventsFail(|sent|) && |sent| < |Packets(digits, sync, u)|
  }

  /** One tick's output: the frame of audio, then the packets. */
  method Output(l: Loop, tick: nat, u: int, sent0: seq<Packet>, frames0: seq<Option<byte>>, ps: seq<Packet>,
                ghost digits: string, ghost sync: nat -> int,
                ghost cancelled: nat -> bool, audioFails: nat -> bool, eventsFail: nat -> bool)
    returns (out: Outcome, sent: seq<Packet>, frames: seq<Option<byte>>)
    requires u > 0 && !cancelled(tick) && Clear(tick, |sent0|, cancelled, audioFails, eventsFail) && |frames0| == tick
    requires sent0 + ps <= Packets(digits, sync, u) && frames0 + [l.code] <= Audio(digits)
    ensures !out.Cancelled?
    ensures out.Sent? ==> sent == sent0 + ps && frames == frames0 + [l.code]
                          && Clear(tick + 1, |sent|, cancelled, audioFails, eventsFail)
    ensures !out.Sent? ==> Ends(out, tick, sent, frames, digits, sync, u, cancelled, audioFails, eventsFail)
  {
    hide Packets, Audio, Clear;
    out, sent, frames := Sent, sent0, frames0;
    if audioFails(tick) { return AudioFailed, sent, frames; }
    frames := frames + [l.code];
    var n := WriteEvents(ps, |sent|, eventsFail, tick, cancelled, audioFails);
    if n < |ps| {
      PartIsPrefix(sent, ps, n, Packets(digits, sync, u));
      return EventsFailed, sent + ps[..n], frames;
    }
    sent := sent + ps;
    ClearTick(tick, |sent|, cancelled, audioFails, eventsFail);
  }

  /** Before the first turn nothing has been sent. */
  lemma Begins(l: Loop, sync: nat -> int, u: int, cancelled: nat -> bool, audioFails: nat -> bool, eventsFail: nat -> bool)
    requires u > 0 && l == Loop(l.digits, None, 0, 0, 0, 0)
    ensures Progress(l.digits, 0, false, 0, 0, 0, sync, u, [], [])
    ensures Coherent(l, l.digits, 0, 0, 0, sync) && Clear(0, 0, cancelled, audioFails, eventsFail)
  {
    assert l.digits[..0] == [];
  }

  /**
    Sends the digits, one loop turn a tick, until the tick that finds nothing left, the context is
    cancelled or a write fails. sync gives the timestamp the events stream takes at a tick, cancelled
    whether the context is done there; audioFails and eventsFail say which frame or packet cannot be written.
   */
  method Write(digits: string, eventsRate: int, sync: nat -> int,
               cancelled: nat -> bool, audioFails: nat -> bool, eventsFail: nat -> bool)
    returns (out: Outcome, tick: nat, sent: seq<Packet>, frames: seq<Option<byte>>)
    requires 0 < eventsRate <= SECOND && Fits(Unit(eventsRate))
    ensures Ends(out, tick, sent, frames, digits, sync, Unit(eventsRate), cancelled, audioFails, eventsFail)
  {
    hide Fits, Unit, Progress, Packets, Audio, TonePackets, TonePacket, Duration, Ticks, Code, Coherent, Clear, Ends;
    var u := Unit(eventsRate);
    var l := Loop(digits, None, 0, 0, 0, 0);
    out, tick, sent, frames := Sent, 0, [], [];
    ghost var i: nat, k: nat, n: nat := 0, 0, 0;
    Begins(l, sync, u, cancelled, audioFails, eventsFail);
    while true
      invariant i <= |digits| && k <= n && Coherent(l, digits, i, k, n, sync)
      invariant Progress(digits, i, l.nextDelay != 0, k, n, tick, sync, u, sent, frames)
      invariant Clear(tick, |sent|, cancelled, audioFails, eventsFail)
      decreases |l.digits|, l.nextDelay, l.remaining
    {
      LoopFacts(l, digits, i, k, n, sync);
      if cancelled(tick) {
        EndsCancelled(digits, i, l.nextDelay != 0, k, n, tick, sync, u, sent, frames, cancelled, audioFails, eventsFail);
        return Cancelled, tick, sent, frames;
      }
      if l.remaining <= 0 {
        var more;
        l, more, i, n := Pick(l, digits, i, n, tick, sync, u, sent, frames);
        if !more {
          EndsSent(digits, i, n, tick, sync, u, sent, frames, cancelled, audioFails, eventsFail);
          return Sent, tick, sent, frames;
        }
        k := 0;
        LoopFacts(l, digits, i, k, n, sync);
      }
      var ts, ps := Turn(l, tick, sync, u, digits, i, k, n, sent, frames);
      out, sent, frames := Output(l, tick, u, sent, frames, ps, digits, sync, cancelled, audioFails, eventsFail);
      if out != Sent { return; }
      l := l.(remaining := l.remaining - STEP, ts := ts);
      tick := tick + 1;
      k := k + 1;
    }
  }

  lemma EndsCancelled(digits: string, i: nat, tone: bool, k: nat, n: nat, tick: nat, sync: nat -> int, u: int,
                      sent: seq<Packet>, frames: seq<Option<byte>>,
                      cancelled: nat -> bool, audioFails: nat -> bool, eventsFail: nat -> bool)
    requires u > 0 && i <= |digits| && k <= n && Progress(digits, i, tone, k, n, tick, sync, u, sent, frames)
    requires Clear(tick, |sent|, cancelled, audioFails, eventsFail) && cancelled(tick)
    ensures Ends(Cancelled, tick, sent, frames, digits, sync, u, cancelled, audioFails, eventsFail)
  {
    hide Progress, Packets, Audio, Clear;
    ProgressIsPrefix(digits, i, tone, k, n, tick, sync, u, sent, frames);
  }

  lemma EndsSent(digits: string, i: nat, n: nat, tick: nat, sync: nat -> int, u: int,
                 sent: seq<Packet>, frames: seq<Option<byte>>,
                 cancelled: nat -> bool, audioFails: nat -> bool, eventsFail: nat -> bool)
    requires u > 0 && i == |digits| && Progress(digits, i, false, n, n, tick, sync, u, sent, frames)
    requires Clear(tick, |sent|, cancelled, audioFails, eventsFail) && !cancelled(tick)
    ensures Ends(Sent, tick, sent, frames, digits, sync, u, cancelled, audioFails, eventsFail)
  {
    hide Progress, Packets, Clear;
    Finished(digits, i, n, tick, sync, u, sent, frames);
  }

  lemma Finished(digits: string, i: nat, n: nat, tick: nat, sync: nat -> int, u: int,
                 sent: seq<Packet>, frames: seq<Option<byte>>)
    requires u > 0 && i == |digits| && Progress(digits, i, false, n, n, tick, sync, u, sent, frames)
    ensures tick == Ticks(digits) && sent == Packets(digits, sync, u) && frames == Audio(digits)
  {
    assert digits[..i] == digits && frames + [] == frames;
  }

  /** The duration field of a payload: 16 bits. */
  function DurField(dur: int, u: int): (d: int)
    requires u > 0
    ensures 0 <= d < 0x1_0000
  {
    dur / u % 0x1_0000
  }

  lemma PositiveFactor(x: int, u: int)
    requires u > 0 && x * u > 0
    ensures x > 0
  {
  }

  lemma DivMonotone(a: int, b: int, u: int)
    requires u > 0 && a <= b
    ensures a / u <= b / u
  {
    var p, q := a / u, b / u;
    assert p * u <= a && b < q * u + u;
    assert (q + 1 - p) * u > 0;
    PositiveFactor(q + 1 - p, u);
  }

  lemma DurationFits(n: nat, u: int)
    requires u > 0 && n <= TONE_TICKS && TONE_TICKS * STEP / u < 0x1_0000
    ensures DurField(n * STEP, u) == Duration(n, u)
  {
    DivMonotone(n * STEP, TONE_TICKS * STEP, u);
    DivMonotone(0, n * STEP, u);
  }

  /** Durations are the time passed in whole units, and grow by equal steps when the rate divides a frame evenly. */
  lemma DurationsGrow(n: nat, u: int)
    requires u > 0
    ensures Duration(n, u) <= Duration(n + 1, u)
    ensures STEP % u == 0 ==> Duration(n + 1, u) == Duration(n, u) + STEP / u
    ensures u * Duration(n, u) <= n * STEP < u * Duration(n, u) + u
  {
    DivMonotone(n * STEP, (n + 1) * STEP, u);
    if STEP % u == 0 {
      var q := STEP / u;
      assert STEP == q * u;
      Exact(n, q, u);
      Exact(n + 1, q, u);
    }
  }

  lemma Exact(n: nat, q: int, u: int)
    requires u > 0
    ensures n * (q * u) / u == n * q
  {
    assert n * (q * u) == (n * q) * u;
    DivExact(n * q, u);
  }

  lemma DivExact(m: int, u: int)
    requires u > 0
    ensures m * u / u == m
  {
    var p := m * u / u;
    assert p * u <= m * u < p * u + u;
    assert (m + 1 - p) * u > 0 && (p + 1 - m) * u > 0;
    PositiveFactor(m + 1 - p, u);
    PositiveFactor(p + 1 - m, u);
  }

  // ----- what a receiver sees

  function Recognised(digits: string): nat {
    if |digits| == 0 then 0
    else Recognised(digits[..|digits| - 1]) + (if Code(digits[|digits| - 1]).Some? then 1 else 0)
  }

  /** 15 packets for each recognised digit, and none for anything else. */
  lemma {:induction false} PacketCount(digits: string, sync: nat -> int, u: int)
    requires u > 0
    ensures |Packets(digits, sync, u)| == PACKETS * Recognised(digits)
  {
    if |digits| > 0 { PacketCount(digits[..|digits| - 1], sync, u); }
  }

  /** One digit as RFC 4733 section 2.5.1.4 wants it: one timestamp, a marker first, the end three times. */
  ghost predicate WellSent(ps: seq<Packet>, code: byte, ts: int, u: int)
    requires u > 0
  {
    && |ps| == PACKETS
    && forall i :: 0 <= i < PACKETS ==>
         && ps[i].code == code && ps[i].ts == ts
         && ps[i].marker == (i == 0)
         && ps[i].end == (i >= PACKETS - 3)
         && ps[i].dur == Duration(if ps[i].end then TONE_TICKS else i + 1, u)
  }

  /** Every recognised digit of a string is sent well, at its place and with the timestamp of its first tick. */
  lemma {:induction false} DigitsWellSent(digits: string, j: nat, sync: nat -> int, u: int)
    requires u > 0 && j < |digits| && Code(digits[j]).Some?
    ensures var at := PACKETS * Recognised(digits[..j]);
            var all := Packets(digits, sync, u);
            && at + PACKETS <= |all|
            && WellSent(all[at..at + PACKETS], Code(digits[j]).value, sync(Ticks(digits[..j])), u)
    decreases |digits|
  {
    hide Duration;
    var before := digits[..|digits| - 1];
    PacketCount(before, sync, u);
    var at := PACKETS * Recognised(digits[..j]);
    var all := Packets(digits, sync, u);
    if j < |before| {
      assert before[..j] == digits[..j];
      DigitsWellSent(before, j, sync, u);
      assert all[at..at + PACKETS] == Packets(before, sync, u)[at..at + PACKETS];
    } else {
      assert all[at..at + PACKETS] == TonePackets(digits[j], sync(Ticks(before)), u, PACKETS);
    }
  }

  function Delays(digits: string): nat {
    if |digits| == 0 then 0
    else Delays(digits[..|digits| - 1]) + (if digits[|digits| - 1] == 'w' then 1 else 0)
  }

  /** A call takes 260 ms of tone and as much of pause for each digit, and 500 ms for each delay. */
  lemma {:induction false} TicksCount(digits: string)
    ensures Delays(digits) <= |digits|
    ensures Ticks(digits) == 26 * (|digits| - Delays(digits)) + 25 * Delays(digits)
  {
    if |digits| > 0 { TicksCount(digits[..|digits| - 1]); }
  }

  /** The audio of the j-th character: a delay is silent, a digit is its tone and then silence. */
  lemma {:induction false} AudioOfDigit(digits: string, j: nat)
    requires j < |digits|
    ensures var at, all := Ticks(digits[..j]), Audio(digits);
            if digits[j] == 'w' then at + 25 <= |all| && forall i :: at <= i < at + 25 ==> all[i] == None
            else && at + 26 <= |all| && (forall i :: at <= i < at + 13 ==> all[i] == Code(digits[j]))
                 && (forall i :: at + 13 <= i < at + 26 ==> all[i] == None)
    decreases |digits|
  {
    hide Ticks, Code;
    var before := digits[..|digits| - 1];
    if j < |before| {
      assert before[..j] == digits[..j];
      AudioOfDigit(before, j);
    }
  }

  /**
    Digits sent without audio get distinct timestamps: 26 ticks apart, with less than half a frame of
    jitter, the projected timestamps are at least 25 frames apart, more than the clock may fall behind.
   */
  lemma DigitsDistinct(w: Rtp.Writer, now: int, later: int)
    requires w.anchor.Some? && 2 * (later - now) >= (2 * DigitTicks('0') - 1) * STEP
    ensures Rtp.Project(w, later, false) - Rtp.Project(w, now, false) >= 25 * w.frameTS
    ensures w.frameTS > 0 ==> Rtp.Project(w, later, false) - Rtp.Project(w, now, false) > Rtp.Reset(w, false)
  {
    var a, b := Rtp.Frames(now - w.anchor.value.time), Rtp.Frames(later - w.anchor.value.time);
    assert b - a >= 25;
    assert b * w.frameTS - a * w.frameTS == (b - a) * w.frameTS;
    assert (b - a - 25) * w.frameTS >= 0;
  }
}
