/** The ring buffer: bulk operations over a wrapped array, proved to refine a bounded sequence. */
module Ring {

  /** The last n elements of a sequence, or all of them. */
  function LastN<T>(s: seq<T>, n: nat): (r: seq<T>)
    ensures |r| <= n && |r| <= |s|
  {
    if |s| <= n then s else s[|s| - n..]
  }

  /** What pushing the elements of p one by one leaves of the contents c. */
  function PushAll<T>(c: seq<T>, p: seq<T>, n: nat): seq<T> {
    if |p| == 0 then c else LastN(PushAll(c, p[..|p| - 1], n) + [p[|p| - 1]], n)
  }

  /** Writing in bulk is the same as pushing each element. */
  lemma {:induction false} WriteIsPushes<T>(c: seq<T>, p: seq<T>, n: nat)
    requires |c| <= n
    ensures PushAll(c, p, n) == LastN(c + p, n)
  {
    if |p| == 0 {
      assert c + p == c;
    } else {
      var q := p[..|p| - 1];
      WriteIsPushes(c, q, n);
      assert c + p == (c + q) + [p[|p| - 1]];
      LastTwice(c + q, [p[|p| - 1]], n);
    }
  }

  lemma LastTwice<T>(a: seq<T>, b: seq<T>, n: nat)
    ensures LastN(LastN(a, n) + b, n) == LastN(a + b, n)
  {
    if |a| > n { assert LastN(a, n) + b == (a + b)[|a| - n..]; }
  }

  lemma LastOfPush<T>(c: seq<T>, v: T, n: nat)
    requires |c| <= n && n > 0
    ensures LastN(c + [v], n) == if |c| == n then c[1..] + [v] else c + [v]
  {
  }

  /** Splitting a write in two changes nothing. */
  lemma WriteSplits<T>(c: seq<T>, p: seq<T>, q: seq<T>, n: nat)
    ensures LastN(LastN(c + p, n) + q, n) == LastN(c + (p + q), n)
  {
    LastTwice(c + p, q, n);
    assert (c + p) + q == c + (p + q);
  }

  /** Position n places after r in a ring of the given size. */
  function Advance(r: nat, n: nat, size: nat): (k: nat)
    requires r < size && n <= size
    ensures k < size
  {
    if r + n < size then r + n else r + n - size
  }

  lemma AdvanceIsModulo(r: nat, n: nat, size: nat)
    requires r < size && n <= size
    ensures Advance(r, n, size) == (r + n) % size
  {
    if r + n < size {
    } else {
      assert (r + n) % size == (r + n - size) % size;
    }
  }

  /** The len elements of the array b from position r on, wrapping around. */
  function Around<T>(b: seq<T>, r: nat, len: nat): (c: seq<T>)
    requires r < |b| && len <= |b|
    ensures |c| == len
    ensures forall i :: 0 <= i < len ==> c[i] == b[Advance(r, i, |b|)]
  {
    if r + len <= |b| then b[r..r + len] else b[r..] + b[..r + len - |b|]
  }

  lemma AroundDrop<T>(b: seq<T>, r: nat, len: nat, k: nat)
    requires r < |b| && k <= len <= |b|
    ensures Around(b, Advance(r, k, |b|), len - k) == Around(b, r, len)[k..]
  {
    hide Around;
    var c, d := Around(b, Advance(r, k, |b|), len - k), Around(b, r, len)[k..];
    forall i | 0 <= i < len - k ensures c[i] == d[i] {
      assert Advance(Advance(r, k, |b|), i, |b|) == Advance(r, k + i, |b|);
      assert d[i] == Around(b, r, len)[k + i];
    }
  }

  lemma AroundAll<T>(b: seq<T>)
    requires |b| > 0
    ensures Around(b, 0, |b|) == b
  {
  }

  lemma AroundTake<T>(b: seq<T>, r: nat, len: nat, k: nat)
    requires r < |b| && k <= len <= |b| && r + k <= |b|
    ensures Around(b, r, len)[..k] == b[r..r + k]
  {
  }

  /** b with v copied in at position w. */
  function Copied<T>(b: seq<T>, w: nat, v: seq<T>): (c: seq<T>)
    requires w + |v| <= |b|
    ensures |c| == |b|
  {
    b[..w] + v + b[w + |v|..]
  }

  /** Copying in right after the elements, as far as the end of the array, appends to them. */
  lemma AroundAppend<T>(b: seq<T>, r: nat, len: nat, v: seq<T>)
    requires r < |b| && len + |v| <= |b| && len < |b|
    requires Advance(r, len, |b|) + |v| <= |b|
    ensures Around(Copied(b, Advance(r, len, |b|), v), r, len + |v|) == Around(b, r, len) + v
  {
    var w := Advance(r, len, |b|);
    var c := Copied(b, w, v);
    if r + len >= |b| {
      assert c[r..] == b[r..];
      assert c[..w + |v|] == b[..w] + v;
    } else {
      assert c[r..w + |v|] == b[r..w] + v;
    }
  }

  /** Reading m and then k elements of c is reading m + k of them. */
  lemma TwoChunks<T>(c: seq<T>, m: nat, k: nat, p: seq<T>)
    requires m + k <= |c| && m + k <= |p|
    ensures Copied(Copied(p, 0, c[..m]), m, c[m..][..k]) == Copied(p, 0, c[..m + k])
    ensures c[m..][k..] == c[m + k..]
  {
    var q, r := Copied(Copied(p, 0, c[..m]), m, c[m..][..k]), Copied(p, 0, c[..m + k]);
    forall i | 0 <= i < |p| ensures q[i] == r[i] { }
  }

  class Buffer<T(0)> {
    const buf: array<T>
    var write: nat
    var read: nat
    var full: bool

    ghost predicate Valid()
      reads this
    {
      read < buf.Length && write < buf.Length && (full ==> read == write)
    }

    constructor (size: nat)
      requires size > 0
      ensures Valid() && fresh(buf) && buf.Length == size && Contents() == []
    {
      buf := new T[size];
      write, read, full := 0, 0, false;
    }

    function Len(): (n: nat)
      requires Valid()
      reads this
    {
      if read == write then (if full then buf.Length else 0)
      else if read < write then write - read
      else write - read + buf.Length
    }

    /** The buffered elements, oldest first. */
    ghost function Contents(): (c: seq<T>)
      requires Valid()
      reads this, buf
      ensures |c| == Len()
    {
      Around(buf[..], read, Len())
    }

    method TryPeek() returns (v: T, ok: bool)
      requires Valid()
      ensures ok == (|Contents()| > 0)
      ensures ok ==> v == Contents()[0]
    {
      if !full && read == write {
        v := *;
        return v, false;
      }
      return buf[read], true;
    }

    method TryPop() returns (v: T, ok: bool)
      requires Valid()
      modifies this
      ensures Valid()
      ensures ok == (|old(Contents())| > 0)
      ensures if ok then old(Contents()) == [v] + Contents() else Contents() == old(Contents())
    {
      if !full && read == write {
        v := *;
        return v, false;
      }
      AroundDrop(buf[..], read, Len(), 1);
      hide Around;
      full := false;
      v := buf[read];
      read := Advance(read, 1, buf.Length);
      ok := true;
    }

    /** Stores an element after the len ones that are kept. */
    method PutLast(v: T, ghost len: nat)
      requires read < buf.Length && len < buf.Length && write == Advance(read, len, buf.Length)
      modifies this`write, buf
      ensures write == Advance(read, len + 1, buf.Length)
      ensures Around(buf[..], read, len + 1) == Around(old(buf[..]), read, len) + [v]
    {
      AroundAppend(buf[..], read, len, [v]);
      buf[write] := v;
      assert buf[..] == Copied(old(buf[..]), write, [v]);
      write := Advance(write, 1, buf.Length);
    }

    method TryPush(v: T) returns (ok: bool)
      requires Valid()
      modifies this, buf
      ensures Valid()
      ensures ok == (|old(Contents())| < buf.Length)
      ensures Contents() == if ok then old(Contents()) + [v] else old(Contents())
    {
      hide Around;
      if full { return false; }
      PutLast(v, Len());
      full := write == read;
      ok := true;
    }

    /** Adds an element, discarding the oldest if the buffer is full. */
    method Push(v: T)
      requires Valid()
      modifies this, buf
      ensures Valid()
      ensures Contents() == LastN(old(Contents()) + [v], buf.Length)
    {
      hide LastN, Around;
      ghost var c := Contents();
      LastOfPush(c, v, buf.Length);
      if full {
        AroundDrop(buf[..], read, Len(), 1);
        read := Advance(read, 1, buf.Length);
      }
      PutLast(v, if full then |c| - 1 else |c|);
      full := write == read;
    }

    /** copy(p[at:], buf[from:end]) */
    method CopyOut(p: array<T>, at: nat, from: nat, end: nat) returns (n: nat)
      requires at <= p.Length && from <= end <= buf.Length && p != buf
      modifies p
      ensures n == if p.Length - at <= end - from then p.Length - at else end - from
      ensures p[..] == Copied(old(p[..]), at, buf[from..from + n])
    {
      n := 0;
      while n < p.Length - at && n < end - from
        invariant n <= p.Length - at && n <= end - from
        invariant p[..at] == old(p[..at]) && p[at..at + n] == buf[from..from + n] && p[at + n..] == old(p[at + n..])
      {
        p[at + n] := buf[from + n];
        n := n + 1;
      }
      assert p[..] == p[..at] + p[at..at + n] + p[at + n..];
    }

    /** copy(buf[at:], p) */
    method CopyIn(at: nat, p: seq<T>) returns (n: nat)
      requires at <= buf.Length
      modifies buf
      ensures n == if buf.Length - at <= |p| then buf.Length - at else |p|
      ensures buf[..] == Copied(old(buf[..]), at, p[..n])
    {
      n := 0;
      while n < buf.Length - at && n < |p|
        invariant n <= buf.Length - at && n <= |p|
        invariant buf[..at] == old(buf[..at]) && buf[at..at + n] == p[..n] && buf[at + n..] == old(buf[at + n..])
      {
        buf[at + n] := p[n];
        n := n + 1;
      }
      assert buf[..] == buf[..at] + buf[at..at + n] + buf[at + n..];
    }

    /** One copy of a read: takes elements up to the end of the array or of the elements. */
    method ReadChunk(p: array<T>, at: nat, end: nat, ghost len: nat) returns (dn: nat)
      requires at <= p.Length && p != buf && read < end <= buf.Length && end - read <= len <= buf.Length
      modifies this`read, p
      ensures dn == if p.Length - at <= end - old(read) then p.Length - at else end - old(read)
      ensures read == Advance(old(read), dn, buf.Length)
      ensures p[..] == Copied(old(p[..]), at, Around(buf[..], old(read), len)[..dn])
      ensures Around(buf[..], read, len - dn) == Around(buf[..], old(read), len)[dn..]
    {
      dn := CopyOut(p, at, read, end);
      AroundTake(buf[..], read, len, dn);
      AroundDrop(buf[..], read, len, dn);
      assert buf[..][read..read + dn] == buf[read..read + dn];
      read := Advance(read, dn, buf.Length);
    }

    /** The copies of a read from len elements, of which there are some. */
    method ReadChunks(p: array<T>, ghost len: nat) returns (n: nat)
      requires p.Length > 0 && p != buf && read < buf.Length && 0 < len <= buf.Length
      requires write == Advance(read, len, buf.Length)
      modifies this`read, p
      ensures n == if p.Length <= len then p.Length else len
      ensures read == Advance(old(read), n, buf.Length)
      ensures p[..] == Copied(old(p[..]), 0, Around(buf[..], old(read), len)[..n])
      ensures Around(buf[..], read, len - n) == Around(buf[..], old(read), len)[n..]
    {
      hide Around, Copied;
      ghost var c := Around(buf[..], read, len);
      var end := if read < write then write else buf.Length;
      n := ReadChunk(p, 0, end, len);
      if n == p.Length || read == write {
        return;
      }
      ghost var m := n;
      var dn := ReadChunk(p, n, write, len - n);
      n := n + dn;
      TwoChunks(c, m, dn, old(p[..]));
    }

    /** Reads as many elements as p holds or are buffered; eof says that p could hold some but none are. */
    method Read(p: array<T>) returns (n: nat, eof: bool)
      requires Valid() && p != buf
      modifies this, p
      ensures Valid()
      ensures n == if p.Length <= |old(Contents())| then p.Length else |old(Contents())|
      ensures eof == (p.Length > 0 && |old(Contents())| == 0)
      ensures p[..] == Copied(old(p[..]), 0, old(Contents())[..n])
      ensures Contents() == old(Contents())[n..]
    {
      hide Around;
      if p.Length == 0 {
        return 0, false;
      } else if Len() == 0 {
        return 0, true;
      }
      ghost var len := Len();
      eof := false;
      full := false;
      n := ReadChunks(p, len);
    }

    /** One copy of a write: fills the array as far as its end. */
    method WriteChunk(p: seq<T>, ghost len: nat) returns (dn: nat)
      requires read < buf.Length && len < buf.Length && len + |p| <= buf.Length
      requires write == Advance(read, len, buf.Length)
      modifies this`write, buf
      ensures dn == if buf.Length - old(write) <= |p| then buf.Length - old(write) else |p|
      ensures write == Advance(read, len + dn, buf.Length)
      ensures Around(buf[..], read, len + dn) == Around(old(buf[..]), read, len) + p[..dn]
    {
      dn := if buf.Length - write <= |p| then buf.Length - write else |p|;
      AroundAppend(buf[..], read, len, p[..dn]);
      dn := CopyIn(write, p);
      write := Advance(write, dn, buf.Length);
    }

    /** The part of a write after p was cut to the capacity, when p does not fill the whole buffer. */
    method Append(p: seq<T>, ghost len: nat)
      requires read < buf.Length && 0 < |p| && len + |p| <= buf.Length && |p| < buf.Length
      requires write == Advance(read, len, buf.Length)
      modifies this`write, this`full, buf
      ensures Valid()
      ensures Contents() == Around(old(buf[..]), read, len) + p
    {
      hide Around;
      var dn := WriteChunk(p, len);
      var rest := p[dn..];
      if |rest| > 0 {
        var dn2 := WriteChunk(rest, len + dn);
        assert p[..dn] + rest[..dn2] == p;
      }
      full := write == read;
    }

    method Fill(p: seq<T>)
      requires |p| == buf.Length > 0
      modifies this, buf
      ensures Valid() && Contents() == p
    {
      var _ := CopyIn(0, p);
      assert buf[..] == p;
      read, write, full := 0, 0, true;
      AroundAll(buf[..]);
    }

    /** Writes all elements, discarding the oldest ones that no longer fit. */
    method Write(p: seq<T>) returns (n: nat)
      requires Valid()
      modifies this, buf
      ensures Valid()
      ensures n == |p|
      ensures Contents() == LastN(old(Contents()) + p, buf.Length)
    {
      hide Around;
      if |p| == 0 {
        return 0;
      }
      ghost var c := Contents();
      ghost var len := Len();
      n := |p|;
      var rest := p;
      if |p| > buf.Length {
        rest := p[|p| - buf.Length..];
      }
      if Len() + |rest| >= buf.Length {
        if |rest| == buf.Length {
          Fill(rest);
          assert rest == LastN(c + p, buf.Length);
          return;
        }
        ghost var k := Len() + |rest| - buf.Length;
        AroundDrop(buf[..], read, len, k);
        len := len - k;
        read := Advance(read, Len() + |rest| - buf.Length, buf.Length);
      }
      Append(rest, len);
    }
  }
}
