/** What the list of the jitter buffer means: the samples in it, and where a packet goes. */
module JitterList {
  import opened Seq16
  import opened JitterTypes

  // ----- samples

  /** b continues the sample that a is in. */
  predicate Succeeds(a: Entry, b: Entry) {
    !a.end && b.SN() == Next(a.SN())
  }

  ghost predicate Consecutive(list: seq<Entry>, k: nat)
    requires k <= |list|
  {
    forall i, j :: 0 <= i && j == i + 1 && j < k ==> Succeeds(list[i], list[j])
  }

  /** The first k entries form a sample: head to first tail, numbered consecutively. */
  ghost predicate CompleteRun(list: seq<Entry>, k: nat) {
    && 1 <= k <= |list|
    && list[0].start
    && list[k - 1].end
    && Consecutive(list, k)
  }

  /** Length of the sample at the head of the list, 0 when it is incomplete. */
  function RunLength(list: seq<Entry>): (k: nat)
    ensures k <= |list|
    ensures k > 0 ==> CompleteRun(list, k)
    ensures k == 0 ==> forall j: nat :: !CompleteRun(list, j)
  {
    if |list| == 0 || !list[0].start then 0 else RunFrom(list, 0)
  }

  function RunFrom(list: seq<Entry>, i: nat): (k: nat)
    requires i < |list| && list[0].start && Consecutive(list, i + 1)
    ensures k <= |list|
    ensures k > 0 ==> CompleteRun(list, k)
    ensures k == 0 ==> forall j: nat :: !CompleteRun(list, j)
    decreases |list| - i
  {
    if list[i].end then
      i + 1
    else if i + 1 == |list| || list[i + 1].SN() != Next(list[i].SN()) then
      OnlyFirstEnd(list, i);
      0
    else
      RunFrom(list, i + 1)
  }

  /** A sample cannot end before entry i, nor go on past it. */
  lemma OnlyFirstEnd(list: seq<Entry>, i: nat)
    requires i < |list| && Consecutive(list, i + 1) && !list[i].end
    requires i + 1 == |list| || list[i + 1].SN() != Next(list[i].SN())
    ensures forall k: nat :: !CompleteRun(list, k)
  {
    forall j | 0 <= j < i ensures !list[j].end {
      assert Succeeds(list[j], list[j + 1]);
    }
    assert i + 1 < |list| ==> !Succeeds(list[i], list[i + 1]);
  }

  function NonPadding(es: seq<Entry>): seq<ExtPacket> {
    if |es| == 0 then []
    else NonPadding(es[..|es| - 1]) + (if es[|es| - 1].ext.packet.padding then [] else [es[|es| - 1].ext])
  }

  lemma NonPaddingNext(es: seq<Entry>, n: nat)
    requires n < |es|
    ensures NonPadding(es[..n + 1]) == NonPadding(es[..n]) + (if es[n].ext.packet.padding then [] else [es[n].ext])
  {
    assert es[..n + 1][..n] == es[..n];
  }

  /** Within a complete sample only the last packet ends it. */
  lemma EndsLast(es: seq<Entry>, k: nat, n: nat)
    requires CompleteRun(es, k) && n < k
    ensures es[n].end == (n + 1 == k)
  {
    assert n + 1 < k ==> Succeeds(es[n], es[n + 1]);
  }

  // ----- places

  /** Where a new packet goes. Lost would be a search that ran off the list. */
  datatype Spot = Duplicate | Insert(index: nat, discont: bool, reordered: bool) | Lost

  /** The search from the tail, at index i: the first entry that sn is not before, or is out of range of. */
  function FromTail(list: seq<Entry>, sn: u16, i: int): (spot: Spot)
    requires -1 <= i < |list|
    ensures spot.Insert? ==> 1 <= spot.index <= i + 1 && spot.reordered
    decreases i + 1
  {
    if i < 0 then Lost
    else
      var c := list[i].SN();
      if sn == c then Duplicate
      else if !Before(sn, c) || !WithinRange(sn, c) then Insert(i + 1, !WithinRange(sn, c), true)
      else FromTail(list, sn, i - 1)
  }

  /** The search from the head, at index i: the first entry that sn is before, or is out of range of. */
  function FromHead(list: seq<Entry>, sn: u16, i: nat): (spot: Spot)
    requires i <= |list|
    ensures spot.Insert? ==> i <= spot.index < |list| && spot.reordered && !spot.discont
    decreases |list| - i
  {
    if i == |list| then Lost
    else
      var c := list[i].SN();
      if sn == c then Duplicate
      else if Before(sn, c) || !WithinRange(sn, c) then Insert(i, false, true)
      else FromHead(list, sn, i + 1)
  }

  /** discont is the flag a packet gets when it becomes the head. */
  function Place(list: seq<Entry>, sn: u16, discont: bool): (spot: Spot)
    requires |list| > 0
    ensures spot.Insert? ==> spot.index <= |list|
  {
    var head, tail := list[0].SN(), list[|list| - 1].SN();
    if Before(sn, head) && WithinRange(sn, head) then Insert(0, discont, true)
    else if !Before(sn, tail) && WithinRange(sn, tail) then Insert(|list|, false, false)
    else if WithinRange(sn, tail) then FromTail(list, sn, |list| - 2)
    else if WithinRange(sn, head) then FromHead(list, sn, 1)
    else Insert(|list|, true, false)
  }

  /** The search from the tail ends before it runs off the list, between entries that sn fits. */
  lemma {:induction false} FromTailFits(list: seq<Entry>, sn: u16, i: int)
    requires -1 <= i < |list| - 1
    requires 1 <= Sub(list[i + 1].SN(), sn) < RANGE
    requires !(Before(sn, list[0].SN()) && WithinRange(sn, list[0].SN()))
    ensures var spot := FromTail(list, sn, i);
            && (spot.Insert? ==> && Adjacent(list[spot.index - 1].SN(), sn)
                                 && Adjacent(sn, list[spot.index].SN()))
            && (spot.Duplicate? ==> exists j :: 0 <= j < |list| && list[j].SN() == sn)
            && !spot.Lost?
    decreases i + 1
  {
    if i >= 0 {
      var c := list[i].SN();
      if sn != c && Before(sn, c) && WithinRange(sn, c) { FromTailFits(list, sn, i - 1); }
    }
  }

  /** The search from the head ends before it runs off the list, between entries that sn fits. */
  lemma {:induction false} FromHeadFits(list: seq<Entry>, sn: u16, i: nat)
    requires 1 <= i <= |list|
    requires 1 <= Sub(sn, list[i - 1].SN()) < RANGE
    requires !WithinRange(sn, list[|list| - 1].SN())
    ensures var spot := FromHead(list, sn, i);
            && (spot.Insert? ==> && Adjacent(list[spot.index - 1].SN(), sn)
                                 && Adjacent(sn, list[spot.index].SN()))
            && (spot.Duplicate? ==> exists j :: 0 <= j < |list| && list[j].SN() == sn)
            && !spot.Lost?
    decreases |list| - i
  {
    if i < |list| {
      var c := list[i].SN();
      if sn != c && !Before(sn, c) && WithinRange(sn, c) { FromHeadFits(list, sn, i + 1); }
    }
  }

  /** Both searches always end by linking or freeing the packet, whatever the list holds. */
  lemma PlaceFits(list: seq<Entry>, sn: u16, discont: bool)
    requires |list| > 0 && sn != list[0].SN() && sn != list[|list| - 1].SN()
    ensures var spot := Place(list, sn, discont);
            && (spot.Insert? && spot.index > 0 ==> Adjacent(list[spot.index - 1].SN(), sn))
            && (spot.Insert? && spot.index < |list| ==> Adjacent(sn, list[spot.index].SN()))
            && (spot.Duplicate? ==> exists j :: 0 <= j < |list| && list[j].SN() == sn)
            && !spot.Lost?
  {
    var head, tail := list[0].SN(), list[|list| - 1].SN();
    if Before(sn, head) && WithinRange(sn, head) {
    } else if !Before(sn, tail) && WithinRange(sn, tail) {
    } else if WithinRange(sn, tail) {
      FromTailFits(list, sn, |list| - 2);
    } else if WithinRange(sn, head) {
      FromHeadFits(list, sn, 1);
    }
  }

  lemma {:induction false} FromTailMarks(list: seq<Entry>, sn: u16, i: int)
    requires -1 <= i < |list|
    ensures var spot := FromTail(list, sn, i);
            spot.Insert? ==> (spot.discont <==> !WithinRange(sn, list[spot.index - 1].SN()))
    decreases i + 1
  {
    if i >= 0 { FromTailMarks(list, sn, i - 1); }
  }

  lemma {:induction false} FromHeadMarks(list: seq<Entry>, sn: u16, i: nat)
    requires 1 <= i <= |list| && WithinRange(sn, list[i - 1].SN())
    ensures var spot := FromHead(list, sn, i);
            spot.Insert? ==> WithinRange(sn, list[spot.index - 1].SN())
    decreases |list| - i
  {
    if i < |list| && WithinRange(sn, list[i].SN()) { FromHeadMarks(list, sn, i + 1); }
  }

  /** A packet is marked when it is out of range of the one before it, and reordered when one comes after it. */
  lemma PlaceMarks(list: seq<Entry>, sn: u16, discont: bool)
    requires |list| > 0
    ensures var spot := Place(list, sn, discont);
            spot.Insert? ==>
              && (spot.discont <==> if spot.index == 0 then discont else !WithinRange(sn, list[spot.index - 1].SN()))
              && (spot.reordered <==> spot.index < |list|)
  {
    FromTailMarks(list, sn, |list| - 2);
    if WithinRange(sn, list[0].SN()) { FromHeadMarks(list, sn, 1); }
  }

  /** The list with the packet in its place, if it has one. */
  function Placed(list: seq<Entry>, pkt: Packet, receivedAt: int, discont: bool): seq<Entry> {
    if |list| == 0 then [NewEntry(pkt, receivedAt, discont)]
    else
      var spot := Place(list, pkt.sn, discont);
      if spot.Insert? then InsertAt(list, spot.index, NewEntry(pkt, receivedAt, spot.discont)) else list
  }
}
