/** The RTP writer of one SSRC and its streams, as the program keeps them. */
module Rtp {
  import opened Options
  import M = RtpModel

  type u16 = x: int | 0 <= x < 0x1_0000
  type u32 = x: int | 0 <= x < 0x1_0000_0000

  const DEF_FRAMES_PER_SEC: int := 50

  /** The result of an operation that may refuse. */
  datatype Result = Done | WriteFailed | WrongStream

  class SeqWriter {
    const clockRate: nat
    const frameTS: u32
    var seqNo: u16
    var auto: bool
    var anchorTime: Option<int>
    var anchorTS: u32
    var maxTS: u32
    ghost var log: seq<M.Sent>

    /** The writer as the model sees it, with wrapping timestamps. */
    ghost function View(): M.Writer
      reads this
    {
      M.Writer(frameTS, seqNo, maxTS,
               if anchorTime.None? then None else Some(M.Anchor(anchorTime.value, anchorTS)), auto, log)
    }

    constructor (clockRate: nat)
      requires clockRate / DEF_FRAMES_PER_SEC < 0x1_0000_0000
      ensures View() == M.NewWriter(clockRate / DEF_FRAMES_PER_SEC) && this.clockRate == clockRate
    {
      this.clockRate := clockRate;
      frameTS := clockRate / DEF_FRAMES_PER_SEC;
      seqNo, auto, anchorTime, anchorTS, maxTS, log := 0, false, None, 0, M.TIMESTAMP_OFFSET, [];
    }

    /** Wrapping conversion to 32 bits. */
    static function Low(x: int): (y: u32) {
      x % M.M32
    }

    /** Wrapping subtraction, read as a signed number. */
    static function Signed(a: u32, b: u32): (d: int)
      ensures d == M.Diff(a, b, true)
    {
      var d := Low(a - b);
      if d < M.HALF then d else d - M.M32
    }

    method ProjectAnchored(now: int) returns (ts: u32)
      requires anchorTime.Some?
      ensures ts == M.Wall(View(), now, true)
    {
      ts := Low(anchorTS + Low(Low(M.Frames(now - anchorTime.value)) * frameTS));
    }

    method ProjectWallclockTS(now: int) returns (ts: u32)
      ensures ts == M.Project(View(), now, true)
    {
      if anchorTime.None? { return maxTS; }
      ts := ProjectAnchored(now);
    }

    method CurTS(ts0: u32, now: int) returns (ts: u32)
      ensures ts == M.CurTS(View(), ts0, now, true)
    {
      var reset := Signed(Low(M.RESET_FRAMES * frameTS), 0);
      ts := ts0;
      if Signed(maxTS, ts) > 0 {
        ts := maxTS;
      }
      if anchorTime.None? { return; }
      var wall := ProjectAnchored(now);
      if Signed(wall, ts) > reset {
        ts := wall;
      }
    }

    /** ok is whether the writer downstream takes the packet. */
    method WriteEvent(isAuto: bool, typ: int, marker: bool, ts: u32, now: int, ok: bool) returns (r: Result)
      modifies this
      ensures View() == M.WriteEvent(old(View()), isAuto, typ, marker, ts, now, ok, true)
      ensures r == if ok then Done else WriteFailed
    {
      if anchorTime.None? {
        anchorTime := Some(now);
        anchorTS := ts;
      }
      if !ok { return WriteFailed; }
      log := log + [M.Sent(isAuto, ts, seqNo, typ, marker)];
      seqNo := if seqNo == 0xFFFF then 0 else seqNo + 1;
      if Signed(ts, maxTS) > 0 {
        maxTS := ts;
      }
      r := Done;
    }

    /** The automatic stream; None where the program panics: another clock rate, or a second such stream. */
    method NewStream(typ: int, rate: nat) returns (s: Option<Stream>)
      modifies this`auto
      ensures s.None? <==> rate != clockRate || old(auto)
      ensures View() == if s.None? then old(View()) else old(View()).(auto := true)
      ensures s.Some? ==> fresh(s.value) && s.value.s == this && !s.value.manual && s.value.ts == maxTS
    {
      if rate != clockRate || auto { return None; }
      auto := true;
      var t := new Stream(this, typ, false, maxTS);
      s := Some(t);
    }

    method NewManualStream(typ: int) returns (s: Stream)
      ensures fresh(s) && s.s == this && s.manual && s.ts == maxTS
    {
      s := new Stream(this, typ, true, maxTS);
    }
  }

  class Stream {
    const s: SeqWriter
    const typ: int
    const manual: bool
    var ts: u32

    constructor (s: SeqWriter, typ: int, manual: bool, ts: u32)
      ensures this.s == s && this.typ == typ && this.manual == manual && this.ts == ts
    {
      this.s, this.typ, this.manual, this.ts := s, typ, manual, ts;
    }

    /** The first critical section of WritePayload: the corrected timestamp. */
    method CorrectedTS(now: int) returns (cur: u32)
      requires !manual
      ensures cur == M.CurTS(s.View(), ts, now, true)
    {
      cur := s.CurTS(ts, now);
    }

    /** The second critical section: the packet goes out, and the stream moves on by a frame. */
    method WriteAt(cur: u32, marker: bool, now: int, ok: bool) returns (r: Result)
      requires !manual
      modifies this, s
      ensures s.View() == M.WriteEvent(old(s.View()), true, typ, marker, cur, now, ok, true)
      ensures ts == if ok then M.Norm(cur + s.frameTS, true) else old(ts)
      ensures r == if ok then Done else WriteFailed
    {
      r := s.WriteEvent(true, typ, marker, cur, now, ok);
      if r != Done { return; }
      ts := SeqWriter.Low(cur + s.frameTS);
    }

    /** Both critical sections with nothing in between; now and later are the two clock readings. */
    method WritePayload(marker: bool, now: int, later: int, ok: bool) returns (r: Result)
      modifies this, s
      ensures manual ==> r == WrongStream && s.View() == old(s.View()) && ts == old(ts)
      ensures !manual ==>
                var cur := M.CurTS(old(s.View()), old(ts), now, true);
                && s.View() == M.WriteEvent(old(s.View()), true, typ, marker, cur, later, ok, true)
                && ts == (if ok then M.Norm(cur + s.frameTS, true) else old(ts))
                && r == if ok then Done else WriteFailed
    {
      if manual { return WrongStream; }
      var cur := CorrectedTS(now);
      r := WriteAt(cur, marker, later, ok);
    }

    method WritePayloadAtCurrent(marker: bool, now: int, ok: bool) returns (r: Result)
      modifies s
      ensures !manual ==> r == WrongStream && s.View() == old(s.View())
      ensures manual ==> s.View() == M.WriteEvent(old(s.View()), false, typ, marker, ts, now, ok, true)
                         && r == if ok then Done else WriteFailed
    {
      if !manual { return WrongStream; }
      r := s.WriteEvent(false, typ, marker, ts, now, ok);
    }

    method SyncTimestamp(now: int) returns (r: Result)
      modifies this
      ensures r == if manual then Done else WrongStream
      ensures ts == if manual then M.Project(s.View(), now, true) else old(ts)
    {
      if !manual { return WrongStream; }
      ts := s.ProjectWallclockTS(now);
      r := Done;
    }
  }
}
