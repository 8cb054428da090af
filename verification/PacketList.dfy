/** The linked structure of the jitter buffer: a doubly linked list of packets and a pool of free ones. */
module PacketList {
  import opened Seq16
  import opened JitterTypes
  import opened JitterList

  const NO_PACKET := ExtPacket(0, Packet(0, 0, 0, false, false, false))

  class Node {
    var ext: ExtPacket
    var prev: Node?
    var next: Node?
    var start: bool
    var end: bool
    var discont: bool

    constructor ()
      ensures next == null
    {
      ext, prev, next, start, end, discont := NO_PACKET, null, null, false, false, false;
    }

    ghost function View(): Entry
      reads this
    {
      Entry(ext, start, end, discont)
    }

    method Fill(pkt: Packet, receivedAt: int)
      modifies this
      ensures View() == NewEntry(pkt, receivedAt, false) && prev == null && next == null
    {
      prev, next, discont := null, null, false;
      start := pkt.partitionHead;
      end := pkt.partitionTail;
      ext := ExtPacket(receivedAt, pkt);
    }

    method Clear(rest: Node?)
      modifies this
      ensures next == rest
    {
      prev := null;
      ext := NO_PACKET;
      next := rest;
    }
  }

  /** The nodes form a doubly linked list that holds the entries. */
  ghost predicate Chain(ns: seq<Node>, es: seq<Entry>)
    reads ns
  {
    && |es| == |ns|
    && (forall i :: 0 <= i < |ns| ==> ns[i].View() == es[i])
    && (forall i {:trigger ns[i].prev} :: 0 <= i < |ns| ==> ns[i].prev == if i == 0 then null else ns[i - 1])
    && (forall i {:trigger ns[i].next} :: 0 <= i < |ns| ==> ns[i].next == if i == |ns| - 1 then null else ns[i + 1])
  }

  /** The nodes form a singly linked list. */
  ghost predicate Stack(ns: seq<Node>)
    reads ns
  {
    forall i {:trigger ns[i].next} :: 0 <= i < |ns| ==> ns[i].next == if i == |ns| - 1 then null else ns[i + 1]
  }

  ghost predicate Distinct(ns: seq<Node>) {
    forall i, j :: 0 <= i < j < |ns| ==> ns[i] != ns[j]
  }

  /** No node is in two places. */
  ghost predicate Apart(ns: seq<Node>, sp: seq<Node>, all: set<Node>) {
    && Distinct(ns) && Distinct(sp)
    && (forall i :: 0 <= i < |ns| ==> ns[i] in all)
    && (forall i :: 0 <= i < |sp| ==> sp[i] in all && sp[i] !in ns)
  }

  /** Links p between two neighbours. */
  method LinkBetween(a: Node, p: Node, b: Node)
    requires a != p && p != b && a != b
    modifies a, p, b
    ensures p.prev == a && p.next == b && a.next == p && b.prev == p
    ensures a.prev == old(a.prev) && b.next == old(b.next)
    ensures a.View() == old(a.View()) && p.View() == old(p.View()) && b.View() == old(b.View())
  {
    p.prev := a;
    p.next := b;
    b.prev := p;
    a.next := p;
  }

  lemma ApartRest(ns: seq<Node>, sp: seq<Node>, all: set<Node>)
    requires Apart(ns, sp, all) && |sp| > 0
    ensures Apart(ns, sp[1..], all) && sp[0] !in ns && sp[0] !in sp[1..]
  {
  }

  lemma StackRest(sp: seq<Node>)
    requires Stack(sp) && |sp| > 0
    ensures Stack(sp[1..])
  {
  }

  /** The links of a chain into which p has been spliced as node i. */
  ghost predicate Spliced(ns: seq<Node>, es: seq<Entry>, i: nat, p: Node)
    requires i <= |ns|
    reads ns, p
  {
    && |es| == |ns|
    && (forall j :: 0 <= j < |ns| ==> ns[j].View() == es[j])
    && (forall j {:trigger ns[j].prev} :: 0 <= j < |ns| ==>
          ns[j].prev == if j == i then p else if j == 0 then null else ns[j - 1])
    && (forall j {:trigger ns[j].next} :: 0 <= j < |ns| ==>
          ns[j].next == if j == i - 1 then p else if j == |ns| - 1 then null else ns[j + 1])
    && p.prev == (if i == 0 then null else ns[i - 1])
    && p.next == (if i == |ns| then null else ns[i])
  }

  lemma ChainInsert(ns: seq<Node>, es: seq<Entry>, i: nat, p: Node)
    requires i <= |ns| && Spliced(ns, es, i, p)
    ensures Chain(InsertAt(ns, i, p), InsertAt(es, i, p.View()))
  {
  }

  lemma ApartInsert(ns: seq<Node>, sp: seq<Node>, all: set<Node>, i: nat, p: Node)
    requires Apart(ns, sp, all) && i <= |ns| && p in all && p !in ns && p !in sp
    ensures Apart(InsertAt(ns, i, p), sp, all)
  {
  }

  class PacketList {
    var head: Node?
    var tail: Node?
    var pool: Node?
    var size: int

    ghost var nodes: seq<Node>      // the list, head first
    ghost var entries: seq<Entry>   // what the nodes of the list hold
    ghost var spare: seq<Node>      // the pool, next to be used first
    ghost var Repr: set<Node>

    /** Both lists are well formed and share no node. */
    ghost predicate Linked()
      reads this, Repr
    {
      && Apart(nodes, spare, Repr)
      && Chain(nodes, entries)
      && Stack(spare)
      && head == (if |nodes| == 0 then null else nodes[0])
      && tail == (if |nodes| == 0 then null else nodes[|nodes| - 1])
      && pool == (if |spare| == 0 then null else spare[0])
    }

    ghost predicate Valid()
      reads this, Repr
    {
      && Linked()
      && size == |nodes| == |entries|
      && (head == null <==> |entries| == 0)
      && (head != null ==> head in Repr && head.View() == entries[0])
      && (tail == null <==> |entries| == 0)
      && (tail != null ==> tail in Repr && tail.View() == entries[|entries| - 1])
    }

    /** A node taken from the pool or off the list, and not yet put back. */
    ghost predicate Loose(p: Node)
      reads this
    {
      p in Repr && p !in nodes && p !in spare
    }

    constructor ()
      ensures Valid() && fresh(Repr) && entries == []
    {
      head, tail, pool, size := null, null, null, 0;
      nodes, entries, spare, Repr := [], [], [], {};
    }

    method NewPacket(pkt: Packet, receivedAt: int) returns (p: Node)
      requires Valid()
      modifies this`size, this`pool, this`spare, this`Repr, Repr
      ensures Linked() && size == |nodes| + 1 && Loose(p)
      ensures old(Repr) <= Repr && fresh(Repr - old(Repr))
      ensures p.View() == NewEntry(pkt, receivedAt, false) && p.prev == null && p.next == null
      ensures spare == if |old(spare)| == 0 then [] else old(spare)[1..]
    {
      size := size + 1;
      if pool == null {
        p := new Node();
        Repr := Repr + {p};
      } else {
        p := pool;
        ApartRest(nodes, spare, Repr);
        StackRest(spare);
        spare := spare[1..];
      }
      pool := p.next;
      p.Fill(pkt, receivedAt);
    }

    method Free(p: Node)
      requires Linked() && Loose(p)
      modifies this`size, this`pool, this`spare, p
      ensures Linked() && size == old(size) - 1
      ensures spare == [p] + old(spare)
    {
      size := size - 1;
      p.Clear(pool);
      pool := p;
      spare := [p] + spare;
    }

    /** Unlinks the head; its node stays loose until it is freed. */
    method PopHead() returns (c: Node)
      requires Linked() && |nodes| > 0
      modifies this`head, this`tail, this`nodes, this`entries, Repr
      ensures Linked() && Loose(c) && c == old(nodes[0]) && c.View() == old(entries[0])
      ensures nodes == old(nodes)[1..] && entries == old(entries)[1..]
    {
      c := head;
      head := c.next;
      if head == null {
        tail := null;
      } else {
        head.prev := null;
      }
      nodes, entries := nodes[1..], entries[1..];
    }

    /** The first packet of an empty list. */
    method Start(p: Node)
      requires Linked() && Loose(p) && |nodes| == 0 && p.next == null && p.prev == null
      modifies this`head, this`tail, this`nodes, this`entries
      ensures Linked() && nodes == [p] && entries == [p.View()]
    {
      head := p;
      tail := p;
      nodes, entries := [p], [p.View()];
    }

    method Mark(p: Node, discont: bool)
      requires Linked() && Loose(p)
      modifies p`discont
      ensures Linked() && p.View() == old(p.View()).(discont := discont && p.start)
    {
      p.discont := discont && p.start;
    }

    method Prepend(p: Node)
      requires Linked() && Loose(p) && |nodes| > 0 && p.prev == null
      modifies this`head, this`nodes, this`entries, Repr
      ensures Linked() && nodes == InsertAt(old(nodes), 0, p)
      ensures entries == InsertAt(old(entries), 0, old(p.View()))
    {
      ApartInsert(nodes, spare, Repr, 0, p);
      head.prev := p;
      p.next := head;
      head := p;
      assert Spliced(nodes, entries, 0, p) && Stack(spare);
      ChainInsert(nodes, entries, 0, p);
      hide Chain, Stack, Spliced, Apart;
      nodes, entries := InsertAt(nodes, 0, p), InsertAt(entries, 0, p.View());
    }

    method Append(p: Node)
      requires Linked() && Loose(p) && |nodes| > 0 && p.next == null
      modifies this`tail, this`nodes, this`entries, Repr
      ensures Linked() && nodes == InsertAt(old(nodes), |old(nodes)|, p)
      ensures entries == InsertAt(old(entries), |old(entries)|, old(p.View()))
    {
      ApartInsert(nodes, spare, Repr, |nodes|, p);
      p.prev := tail;
      tail.next := p;
      tail := p;
      assert Spliced(nodes, entries, |nodes|, p) && Stack(spare);
      ChainInsert(nodes, entries, |nodes|, p);
      hide Chain, Stack, Spliced, Apart;
      nodes, entries := InsertAt(nodes, |nodes|, p), InsertAt(entries, |entries|, p.View());
    }

    /** Links p between the neighbours a and b, as the searches do after c and before c. */
    method InsertBetween(a: Node, p: Node, b: Node, ghost i: nat)
      requires Linked() && Loose(p) && 0 < i < |nodes| && a == nodes[i - 1] && b == nodes[i]
      modifies this`nodes, this`entries, Repr
      ensures Linked() && nodes == InsertAt(old(nodes), i, p)
      ensures entries == InsertAt(old(entries), i, old(p.View()))
    {
      ApartInsert(nodes, spare, Repr, i, p);
      LinkBetween(a, p, b);
      assert Spliced(nodes, entries, i, p) && Stack(spare);
      ChainInsert(nodes, entries, i, p);
      hide Chain, Stack, Spliced, Apart;
      nodes, entries := InsertAt(nodes, i, p), InsertAt(entries, i, p.View());
    }

    // ----- walking the list

    /** Whether the head starts a complete sample. */
    method HeadIsComplete() returns (complete: bool)
      requires Valid() && |entries| > 0
      ensures complete == (RunLength(entries) > 0)
    {
      if !head.start { return false; }
      if head.end { return true; }
      var c := head;
      ghost var i := 0;
      while c.next != null
        invariant 0 <= i < |nodes| && c == nodes[i] && !entries[i].end && Consecutive(entries, i + 1)
        invariant RunLength(entries) == RunFrom(entries, i)
        decreases |nodes| - i
      {
        assert c.next == nodes[i + 1] && nodes[i + 1].View() == entries[i + 1];
        if c.next.ext.packet.sn != Next(c.ext.packet.sn) { return false; }
        if c.next.end { return true; }
        c := c.next;
        i := i + 1;
      }
      return false;
    }

    /** Takes the head off the list and frees it. */
    method TakeHead() returns (e: Entry)
      requires Valid() && |entries| > 0
      modifies this, Repr
      ensures Valid() && Repr == old(Repr)
      ensures e == old(entries)[0] && entries == old(entries)[1..]
    {
      var c := PopHead();
      e := Entry(c.ext, c.start, c.end, c.discont);
      Free(c);
    }

    /** Takes packets off the list up to and including the first that ends a sample. */
    method TakeSample() returns (sample: seq<ExtPacket>, n: nat, last: u16)
      requires Valid() && RunLength(entries) > 0
      modifies this, Repr
      ensures Valid() && Repr == old(Repr)
      ensures n == RunLength(old(entries)) && entries == old(entries)[n..]
      ensures sample == NonPadding(old(entries)[..n]) && last == old(entries)[n - 1].SN()
    {
      ghost var es := entries;
      ghost var k := RunLength(entries);
      sample, n, last := [], 0, 0;
      var end := false;
      while !end
        invariant 0 <= n <= k && end == (n == k)
        invariant Valid() && Repr == old(Repr) && entries == es[n..]
        invariant sample == NonPadding(es[..n])
        invariant n > 0 ==> last == es[n - 1].SN()
        decreases k - n
      {
        EndsLast(es, k, n);
        NonPaddingNext(es, n);
        var c := TakeHead();
        last := c.SN();
        end := c.end;
        if !c.ext.packet.padding {
          sample := sample + [c.ext];
        }
        n := n + 1;
      }
    }

    lemma Ends()
      requires Linked() && |nodes| > 0
      ensures head != null && tail != null && head in Repr && tail in Repr && |entries| > 0
      ensures head.View() == entries[0] && tail.View() == entries[|entries| - 1]
    {
    }

    lemma Whole()
      requires Linked() && size == |nodes|
      ensures Valid()
    {
    }

    // ----- placing a packet

    /** Inserts after the first packet, searching from the tail, that p is not before or is out of range of. */
    method InsertFromTail(p: Node, discont0: bool) returns (duplicate: bool)
      requires Linked() && size == |nodes| + 1 && Loose(p) && |nodes| > 0
      requires p.View() == NewEntry(p.ext.packet, p.ext.receivedAt, false)
      requires !FromTail(entries, p.View().SN(), |entries| - 2).Lost?
      modifies this, Repr
      ensures Valid() && Repr == old(Repr)
      ensures var spot := FromTail(old(entries), old(p.ext.packet.sn), |old(entries)| - 2);
              && duplicate == spot.Duplicate?
              && entries == if duplicate then old(entries) else
                   InsertAt(old(entries), spot.index, NewEntry(old(p.ext.packet), old(p.ext.receivedAt), spot.discont))
    {
      hide Apart, Stack, InsertAt;
      var discont := discont0;
      var sn := p.ext.packet.sn;
      var c := tail.prev;
      ghost var i := |nodes| - 2;
      while c != null
        invariant -1 <= i < |nodes| - 1 && c == if i < 0 then null else nodes[i]
        invariant FromTail(entries, sn, |entries| - 2) == FromTail(entries, sn, i)
        decreases i + 1
      {
        assert c.View() == entries[i];
        if sn == c.ext.packet.sn {
          Free(p);
          Whole();
          return true;
        }
        discont := !WithinRange(sn, c.ext.packet.sn);
        if !Before(sn, c.ext.packet.sn) || discont {
          Mark(p, discont);
          InsertBetween(c, p, c.next, i + 1);
          Whole();
          return false;
        }
        c := c.prev;
        i := i - 1;
      }
      assert false;
    }

    /** Inserts before the first packet, searching from the head, that p is before or is out of range of. */
    method InsertFromHead(p: Node) returns (duplicate: bool)
      requires Linked() && size == |nodes| + 1 && Loose(p) && |nodes| > 0
      requires !FromHead(entries, p.View().SN(), 1).Lost?
      modifies this, Repr
      ensures Valid() && Repr == old(Repr)
      ensures var spot := FromHead(old(entries), old(p.ext.packet.sn), 1);
              && duplicate == spot.Duplicate?
              && entries == if duplicate then old(entries) else InsertAt(old(entries), spot.index, old(p.View()))
    {
      hide Apart, Stack, InsertAt;
      var sn := p.ext.packet.sn;
      var c := head.next;
      ghost var i := 1;
      while c != null
        invariant 1 <= i <= |nodes| && c == if i == |nodes| then null else nodes[i]
        invariant FromHead(entries, sn, 1) == FromHead(entries, sn, i)
        decreases |nodes| - i
      {
        assert c.View() == entries[i];
        if sn == c.ext.packet.sn {
          Free(p);
          Whole();
          return true;
        }
        var discont := !WithinRange(sn, c.ext.packet.sn);
        if Before(sn, c.ext.packet.sn) || discont {
          InsertBetween(c.prev, p, c, i);
          Whole();
          return false;
        }
        c := c.next;
        i := i + 1;
      }
      assert false;
    }

    /** Links a packet whose number neither the first nor the last packet has. */
    method LinkAmong(p: Node, discont: bool) returns (duplicate: bool, reordered: bool)
      requires Linked() && size == |nodes| + 1 && Loose(p) && |nodes| > 0 && p.prev == null && p.next == null
      requires p.View() == NewEntry(p.ext.packet, p.ext.receivedAt, false)
      requires p.ext.packet.sn != entries[0].SN() && p.ext.packet.sn != entries[|entries| - 1].SN()
      modifies this, Repr
      ensures Valid() && Repr == old(Repr)
      ensures var spot := Place(old(entries), old(p.ext.packet.sn), discont);
              && duplicate == spot.Duplicate? && reordered == (spot.Insert? && spot.reordered)
              && entries == if !spot.Insert? then old(entries) else
                   InsertAt(old(entries), spot.index, NewEntry(old(p.ext.packet), old(p.ext.receivedAt), spot.discont))
    {
      Ends();
      hide Linked, InsertAt, FromTail, FromHead;
      duplicate, reordered := false, false;
      var sn := p.ext.packet.sn;
      PlaceFits(entries, sn, discont);
      var headSN, tailSN := head.ext.packet.sn, tail.ext.packet.sn;
      if Before(sn, headSN) && WithinRange(sn, headSN) {
        reordered := true;
        Mark(p, discont);
        Prepend(p);
      } else if !Before(sn, tailSN) && WithinRange(sn, tailSN) {
        Append(p);
      } else if WithinRange(sn, tailSN) {
        duplicate := InsertFromTail(p, discont);
        reordered := !duplicate;
      } else if WithinRange(sn, headSN) {
        duplicate := InsertFromHead(p);
        reordered := !duplicate;
      } else {
        Mark(p, true);
        Append(p);
      }
    }

    /** Takes a node for the packet and links it; discont is the flag it gets as the head of the list. */
    method Enqueue(pkt: Packet, receivedAt: int, discont: bool) returns (duplicate: bool, reordered: bool)
      requires Valid()
      requires |entries| > 0 ==> pkt.sn != entries[0].SN() && pkt.sn != entries[|entries| - 1].SN()
      modifies this, Repr
      ensures Valid() && old(Repr) <= Repr && fresh(Repr - old(Repr))
      ensures entries == Placed(old(entries), pkt, receivedAt, discont)
      ensures if |old(entries)| == 0 then !duplicate && !reordered else
                var spot := Place(old(entries), pkt.sn, discont);
                duplicate == spot.Duplicate? && reordered == (spot.Insert? && spot.reordered)
    {
      ghost var es := entries;
      if |es| > 0 { PlaceFits(es, pkt.sn, discont); }
      var p := NewPacket(pkt, receivedAt);
      if head == null {
        Mark(p, discont);
        Start(p);
        duplicate, reordered := false, false;
      } else {
        duplicate, reordered := LinkAmong(p, discont);
      }
    }
  }
}
