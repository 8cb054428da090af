/** Packets as the jitter buffer sees them. */
module JitterTypes {
  import opened Options
  import opened Seq16

  /**
    An RTP packet. partitionHead and partitionTail are the depacketizer's answers for its payload.
    origin stands for the identity of the packet object; no branch looks at it.
   */
  datatype Packet = Packet(origin: int, ssrc: int, sn: u16, padding: bool, partitionHead: bool, partitionTail: bool)

  datatype ExtPacket = ExtPacket(receivedAt: int, packet: Packet)

  datatype Entry = Entry(ext: ExtPacket, start: bool, end: bool, discont: bool) {
    function SN(): u16 { ext.packet.sn }
  }

  function NewEntry(pkt: Packet, receivedAt: int, discont: bool): Entry {
    Entry(ExtPacket(receivedAt, pkt), pkt.partitionHead, pkt.partitionTail, discont && pkt.partitionHead)
  }

  function InsertAt<T>(list: seq<T>, i: nat, e: T): (r: seq<T>)
    requires i <= |list|
    ensures |r| == |list| + 1
    ensures forall j :: 0 <= j < |r| ==> r[j] == if j < i then list[j] else if j == i then e else list[j - 1]
  {
    list[..i] + [e] + list[i..]
  }
}
