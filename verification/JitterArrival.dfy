/** What becomes of one packet pushed into the jitter buffer, in numbers. */
module JitterArrival {
  import opened Options
  import opened Seq16
  import opened JitterTypes
  import opened JitterList
  import opened JitterModel
  import JitterSafety
  import JitterWindow

  /** No packet that waits has the number. */
  ghost predicate Unheard(list: seq<Entry>, sn: u16) {
    forall i :: 0 <= i < |list| ==> list[i].SN() != sn
  }

  /** Not behind the playing position: a buffer that has played nothing has none. */
  predicate Playable(s: Play, sn: u16) {
    s.initialized ==> 1 <= Sub(sn, s.prevSN) <= 0x8000
  }

  /** The buffer does not tell lines apart and has played this SSRC, or no other. */
  predicate Follows(s: State, pkt: Packet) {
    !s.detectRestarts && (s.ssrc == None || s.ssrc == Some(pkt.ssrc))
  }

  /** The counters once the packet has been counted in. */
  function CountedIn(stats: Stats, pkt: Packet): Stats {
    stats.(pushed := stats.pushed + 1, paddingPushed := stats.paddingPushed + if pkt.padding then 1 else 0)
  }

  /**
    t is s with the packet waiting at place i: neighbours within range are 1..2999 apart, and a head of a
    partition is marked when what comes before it, in the list or played, is not within range.
   */
  ghost predicate Joins(s: Play, t: Play, pkt: Packet, at: int, i: nat) {
    && i <= |s.list|
    && var discont := if i == 0 then !s.initialized || !WithinRange(pkt.sn, s.prevSN)
                      else !WithinRange(pkt.sn, s.list[i - 1].SN());
    && var e := Entry(ExtPacket(at, pkt), pkt.partitionHead, pkt.partitionTail, pkt.partitionHead && discont);
    && t.list == s.list[..i] + [e] + s.list[i..]
    && (i > 0 ==> Adjacent(s.list[i - 1].SN(), pkt.sn))
    && (i < |s.list| ==> Adjacent(pkt.sn, s.list[i].SN()))
    && (t.initialized, t.prevSN, t.log) == (s.initialized, s.prevSN, s.log)
    && var c := CountedIn(s.stats, pkt);
    && t.stats == c.(reordered := c.reordered + if i < |s.list| then 1 else 0)
  }

  lemma PushAdmits(s: State, pkt: Packet, at: int)
    requires Follows(s, pkt) && !(pkt.padding && !s.play.initialized)
    ensures Push(s, pkt, at) == s.(ssrc := Some(pkt.ssrc), play := Admit(Arrive(s.play, pkt), pkt, at))
  {
    JitterSafety.PushSifts(s, pkt, at);
    JitterSafety.PlainSift(s.(play := Arrive(s.play, pkt), ssrc := Some(pkt.ssrc)), pkt, at);
    hide Push, Sift, Admit, Arrive;
  }

  lemma AdmitJoins(s: Play, pkt: Packet, at: int) returns (i: nat)
    requires Playable(s, pkt.sn) && Unheard(s.list, pkt.sn)
    ensures Joins(s, Admit(Arrive(s, pkt), pkt, at), pkt, at, i)
  {
    i := 0;
    var a := Arrive(s, pkt);
    AdmitEnqueues(a, pkt, at);
    hide Admit;
    if |s.list| > 0 {
      i := PlaceJoins(s, pkt, !s.initialized || !WithinRange(pkt.sn, s.prevSN));
      EnqueueJoins(s, pkt, at, i);
    } else {
      FirstJoins(s, pkt, at);
    }
  }

  lemma AdmitEnqueues(a: Play, pkt: Packet, at: int)
    requires Playable(a, pkt.sn) && Unheard(a.list, pkt.sn)
    ensures Admit(a, pkt, at) == Enqueue(a, pkt, at)
  {
    hide Enqueue, DiscardExpired, DiscardDuplicate;
  }

  lemma FirstJoins(s: Play, pkt: Packet, at: int)
    requires s.list == []
    ensures Joins(s, Enqueue(Arrive(s, pkt), pkt, at), pkt, at, 0)
  {
    hide WithinRange;
  }

  lemma EnqueueJoins(s: Play, pkt: Packet, at: int, i: nat)
    requires |s.list| > 0 && i <= |s.list|
    requires var discont := !s.initialized || !WithinRange(pkt.sn, s.prevSN);
             var marked := if i == 0 then discont else !WithinRange(pkt.sn, s.list[i - 1].SN());
             Place(s.list, pkt.sn, discont) == Insert(i, marked, i < |s.list|)
    requires i > 0 ==> Adjacent(s.list[i - 1].SN(), pkt.sn)
    requires i < |s.list| ==> Adjacent(pkt.sn, s.list[i].SN())
    ensures Joins(s, Enqueue(Arrive(s, pkt), pkt, at), pkt, at, i)
  {
    hide Place, Adjacent, WithinRange;
  }

  /** The place found for a packet that does not wait yet. */
  lemma PlaceJoins(s: Play, pkt: Packet, discont: bool) returns (i: nat)
    requires |s.list| > 0 && Unheard(s.list, pkt.sn)
    ensures i <= |s.list|
    ensures var marked := if i == 0 then discont else !WithinRange(pkt.sn, s.list[i - 1].SN());
            Place(s.list, pkt.sn, discont) == Insert(i, marked, i < |s.list|)
    ensures i > 0 ==> Adjacent(s.list[i - 1].SN(), pkt.sn)
    ensures i < |s.list| ==> Adjacent(pkt.sn, s.list[i].SN())
  {
    PlaceFits(s.list, pkt.sn, discont);
    PlaceMarks(s.list, pkt.sn, discont);
    hide Place, WithinRange, Adjacent;
    i := Place(s.list, pkt.sn, discont).index;
  }

  /** A packet ahead of the playing position that is not waiting yet is put on the list, and nothing else happens. */
  lemma AheadIsKept(s: State, pkt: Packet, at: int, t: State) returns (i: nat)
    requires t == Push(s, pkt, at) && Follows(s, pkt) && !(pkt.padding && !s.play.initialized)
    requires Playable(s.play, pkt.sn) && Unheard(s.play.list, pkt.sn)
    ensures Joins(s.play, t.play, pkt, at, i)
    ensures t == s.(ssrc := Some(pkt.ssrc), play := t.play)
  {
    PushAdmits(s, pkt, at);
    i := AdmitJoins(s.play, pkt, at);
    hide Push, Admit, Arrive, Joins;
  }

  /** A packet at or behind the playing position is dropped and reported, padding silently. */
  lemma BehindIsDropped(s: State, pkt: Packet, at: int, t: State)
    requires t == Push(s, pkt, at) && Follows(s, pkt)
    requires s.play.initialized && Sub(s.play.prevSN, pkt.sn) < 0x8000
    ensures var c, log := CountedIn(s.play.stats, pkt), s.play.log;
            t == s.(ssrc := Some(pkt.ssrc),
                    play := if pkt.padding then s.play.(stats := c, log := log.(paddingGone := log.paddingGone + 1))
                            else s.play.(stats := c.(dropped := c.dropped + 1),
                                         log := log.(reports := log.reports + [(c.lost, c.dropped + 1)])))
  {
    PushAdmits(s, pkt, at);
    hide Push;
  }

  /** A packet that waits already, at an end of the list or anywhere in the window, is counted and thrown away. */
  lemma DuplicateIsDropped(s: State, pkt: Packet, at: int, t: State, k: nat)
    requires t == Push(s, pkt, at) && Follows(s, pkt) && !(pkt.padding && !s.play.initialized)
    requires Playable(s.play, pkt.sn) && k < |s.play.list| && s.play.list[k].SN() == pkt.sn
    requires k == 0 || k == |s.play.list| - 1 || JitterWindow.Ascending(s.play.list, s.play.prevSN)
    ensures var c, log := CountedIn(s.play.stats, pkt), s.play.log;
            t == s.(ssrc := Some(pkt.ssrc),
                    play := if pkt.padding then s.play.(stats := c, log := log.(paddingGone := log.paddingGone + 1))
                            else s.play.(stats := c.(duplicate := c.duplicate + 1)))
  {
    PushAdmits(s, pkt, at);
    hide Push;
    if 0 < k < |s.play.list| - 1 {
      hide Place;
      FindsDuplicate(s.play, pkt.sn, k);
    }
  }

  lemma FindsDuplicate(s: Play, sn: u16, k: nat)
    requires JitterWindow.Ascending(s.list, s.prevSN) && 0 < k < |s.list| - 1 && s.list[k].SN() == sn
    ensures Place(s.list, sn, false) == Duplicate && WithinRange(sn, s.prevSN)
    ensures sn != s.list[0].SN() && sn != s.list[|s.list| - 1].SN()
  {
    var list, from := s.list, s.prevSN;
    JitterWindow.Compare(sn, list[0].SN(), from);
    JitterWindow.Compare(sn, list[|list| - 1].SN(), from);
    JitterWindow.PlaceOrders(list, sn, from);
    PlaceFits(list, sn, false);
    hide Place;
    var spot := Place(list, sn, false);
    if spot.Insert? { NoPlace(list, spot.index, sn, from, k); }
  }

  /** A number that waits already has no place between two entries. */
  lemma NoPlace(list: seq<Entry>, i: nat, sn: u16, from: u16, k: nat)
    requires JitterWindow.Ascending(list, from) && i <= |list| && k < |list| && list[k].SN() == sn
    ensures !JitterWindow.Between(list, i, sn, from)
  {
    assert i <= k ==> Sub(list[i].SN(), from) <= Sub(sn, from);
  }

  /** Padding that comes before anything has been played is counted and thrown away. */
  lemma EarlyPaddingIsDropped(s: State, pkt: Packet, at: int, t: State)
    requires t == Push(s, pkt, at) && pkt.padding && !s.play.initialized
    ensures t == s.(play := s.play.(stats := CountedIn(s.play.stats, pkt),
                                    log := s.play.log.(paddingGone := s.play.log.paddingGone + 1)))
  {
  }
}
