/** The on-device console record ring: a byte array of `capacity` bytes in
  * which records (an 11-byte packed header — a 64-bit millisecond time
  * stamp, a direction byte and a 16-bit payload length, all little-endian —
  * followed by the payload) are written at `head` and dropped at `tail`,
  * both wrapping at the capacity. The ring is empty when `head == tail`, and
  * one byte always stays free so that a full ring can be told apart.
  *
  * The abstract state is the ghost sequence `records`: the bytes from
  * `tail` round to `head` are exactly their serialisation. The mutex, the
  * clock and the allocator are parameters or left out. */
module ConsoleBuffer {
  import opened CTypes

  const HeaderSize := 11
  const MinCapacity := 4096
  const DefaultCapacity := 64 * 1024
  const MaxRecordLen := 0xFFFF

  datatype Record = Record(ts: u64, dir: u8, payload: seq<u8>)

  // ------------------------------------------------------ encoding

  /** `256^n`. */
  function Pow256(n: nat): (p: nat)
    ensures p >= 1
  {
    if n == 0 then 1 else 256 * Pow256(n - 1)
  }

  lemma Pow256Of8()
    ensures Pow256(8) == 0x1_0000_0000_0000_0000
  {
    assert Pow256(2) == 0x1_0000;
    assert Pow256(4) == 0x1_0000_0000;
    assert Pow256(6) == 0x1_0000_0000_0000;
  }

  /** The `n` low bytes of `x`, least significant first. */
  function LE(x: nat, n: nat): (b: seq<u8>)
    ensures |b| == n
  {
    if n == 0 then [] else [x % 256] + LE(x / 256, n - 1)
  }

  function FromLE(b: seq<u8>): (x: nat)
    ensures x < Pow256(|b|)
  {
    if b == [] then 0 else b[0] as int + 256 * FromLE(b[1..])
  }

  lemma {:induction false} FromLEOfLE(x: nat, n: nat)
    requires x < Pow256(n)
    ensures FromLE(LE(x, n)) == x
    decreases n
  {
    if n > 0 {
      var b := LE(x, n);
      assert b[1..] == LE(x / 256, n - 1);
      assert x / 256 < Pow256(n - 1);
      FromLEOfLE(x / 256, n - 1);
    }
  }

  /** The packed header of a record. */
  function Header(r: Record): (h: seq<u8>)
    ensures |h| == HeaderSize
  {
    LE(r.ts, 8) + [r.dir] + LE(|r.payload|, 2)
  }

  /** The fields the C code reads back out of a header. */
  function HeaderTs(h: seq<u8>): u64
    requires |h| == HeaderSize
  {
    Pow256Of8();
    FromLE(h[..8])
  }

  function HeaderDir(h: seq<u8>): u8
    requires |h| == HeaderSize
  {
    h[8]
  }

  function HeaderLen(h: seq<u8>): (n: nat)
    requires |h| == HeaderSize
    ensures n <= MaxRecordLen
  {
    h[9] as int + 256 * h[10] as int
  }

  /** A header reads back as the record it was made from. */
  lemma HeaderRoundTrip(r: Record)
    requires |r.payload| <= MaxRecordLen
    ensures HeaderTs(Header(r)) == r.ts
    ensures HeaderDir(Header(r)) == r.dir
    ensures HeaderLen(Header(r)) == |r.payload|
  {
    var h := Header(r);
    assert h[..8] == LE(r.ts, 8);
    Pow256Of8();
    FromLEOfLE(r.ts, 8);
    var n := |r.payload|;
    assert h[9..] == LE(n, 2);
    assert LE(n, 2)[1..] == LE(n / 256, 1);
  }

  /** The bytes a sequence of records occupies, oldest first. */
  function Serialize(rs: seq<Record>): (b: seq<u8>)
    ensures rs != [] ==> |b| >= HeaderSize
  {
    if rs == [] then [] else Header(rs[0]) + rs[0].payload + Serialize(rs[1..])
  }

  lemma {:induction false} SerializeSnoc(rs: seq<Record>, r: Record)
    ensures Serialize(rs + [r]) == Serialize(rs) + Header(r) + r.payload
    decreases |rs|
  {
    if rs == [] {
      assert rs + [r] == [r];
    } else {
      assert (rs + [r])[1..] == rs[1..] + [r];
      SerializeSnoc(rs[1..], r);
    }
  }

  predicate Fits(rs: seq<Record>) {
    forall i :: 0 <= i < |rs| ==> |rs[i].payload| <= MaxRecordLen
  }

  // ------------------------------------------------------ ring arithmetic

  /** `wrap_add`: one subtraction of the modulus at most. */
  function WrapAdd(a: nat, b: nat, mod: nat): (r: nat)
    ensures a < mod && b <= mod ==> r < mod
    ensures a + b < mod ==> r == a + b
    ensures a + b >= mod ==> r == a + b - mod
  {
    if a + b >= mod then a + b - mod else a + b
  }

  /** A position `x` in `[0, 2 * cap)` brought into the ring. */
  function Wrap(x: nat, cap: nat): (r: nat)
    requires x < 2 * cap
    ensures r < cap
  {
    if x >= cap then x - cap else x
  }

  /** The bytes in use between `tail` and `head`. */
  function Used(tail: nat, head: nat, cap: nat): (n: nat)
    requires tail < cap && head < cap
    ensures n < cap
  {
    if head >= tail then head - tail else cap - tail + head
  }

  /** The `free_space` computation of `console_buffer_append`. */
  function FreeSpace(tail: nat, head: nat, cap: nat): (f: nat)
    requires tail < cap && head < cap
    ensures f == cap - 1 - Used(tail, head, cap)
  {
    if tail > head then tail - head - 1 else cap - head + tail - 1
  }

  /** How far `p` lies after `from`, going round the ring. */
  function Offset(from: nat, p: nat, cap: nat): (d: nat)
    requires from < cap && p < cap
    ensures d < cap
  {
    if p >= from then p - from else p + cap - from
  }

  /** `n` bytes read at `pos` the way the C code does: one copy, or two
    * when they run past the end of the array. */
  function ReadAt(b: seq<u8>, cap: nat, pos: nat, n: nat): (r: seq<u8>)
    requires |b| == cap && pos < cap && n <= cap
    ensures |r| == n
  {
    if cap - pos >= n then b[pos..pos + n] else b[pos..] + b[..n - (cap - pos)]
  }

  /** The byte `k` places after `from`, going round the ring. */
  function At(b: seq<u8>, cap: nat, from: nat, k: nat): u8
    requires |b| == cap && from < cap && k < cap
  {
    b[Wrap(from + k, cap)]
  }

  /** The array `b` holds `bytes` from `tail` round to `head`. */
  predicate Holds(b: seq<u8>, cap: nat, tail: nat, head: nat, bytes: seq<u8>) {
    |b| == cap && tail < cap && head < cap && |bytes| == Used(tail, head, cap) &&
    forall k {:trigger At(b, cap, tail, k)} :: 0 <= k < |bytes| ==> At(b, cap, tail, k) == bytes[k]
  }

  /** Reading `m` bytes at `tail` the way the C code does (one copy, or two
    * when the bytes wrap) yields the first `m` bytes held. */
  lemma HoldsRead(b: seq<u8>, cap: nat, tail: nat, head: nat, bytes: seq<u8>, m: nat)
    requires Holds(b, cap, tail, head, bytes) && m <= |bytes|
    ensures ReadAt(b, cap, tail, m) == bytes[..m]
  {
    var got := ReadAt(b, cap, tail, m);
    forall j | 0 <= j < m ensures got[j] == bytes[j] {
      assert At(b, cap, tail, j) == bytes[j];
      if j < cap - tail {
        assert Wrap(tail + j, cap) == tail + j;
      } else {
        assert Wrap(tail + j, cap) == j - (cap - tail);
      }
    }
  }

  /** Advancing `tail` past `m` held bytes leaves the rest held. */
  lemma HoldsDrop(b: seq<u8>, cap: nat, tail: nat, head: nat, bytes: seq<u8>, m: nat)
    requires Holds(b, cap, tail, head, bytes) && m <= |bytes|
    ensures Holds(b, cap, Wrap(tail + m, cap), head, bytes[m..])
  {
    var t := Wrap(tail + m, cap);
    forall k | 0 <= k < |bytes| - m ensures At(b, cap, t, k) == bytes[m..][k] {
      assert At(b, cap, tail, m + k) == bytes[m + k];
      assert Wrap(t + k, cap) == Wrap(tail + (m + k), cap);
    }
  }

  /** `b'` is `b` with `added` written from `pos` on, round the ring. */
  predicate Written(b: seq<u8>, b': seq<u8>, cap: nat, pos: nat, added: seq<u8>) {
    |b| == cap && |b'| == cap && pos < cap &&
    forall p :: 0 <= p < cap ==>
      b'[p] == if Offset(pos, p, cap) < |added| then added[Offset(pos, p, cap)] else b[p]
  }

  /** Writing `added` at `head` (the bytes after it round the ring replaced)
    * appends it to what is held, as long as one byte stays free. */
  lemma HoldsAppend(b: seq<u8>, b': seq<u8>, cap: nat, tail: nat, head: nat, bytes: seq<u8>, added: seq<u8>)
    requires Holds(b, cap, tail, head, bytes) && |bytes| + |added| <= cap - 1
    requires Written(b, b', cap, head, added)
    ensures Holds(b', cap, tail, Wrap(head + |added|, cap), bytes + added)
  {
    var d := |bytes|;
    var all := bytes + added;
    forall k | 0 <= k < |all| ensures At(b', cap, tail, k) == all[k] {
      var p := Wrap(tail + k, cap);
      if k < d {
        assert At(b, cap, tail, k) == bytes[k];
        assert Offset(head, p, cap) == k - d + cap;
      } else {
        assert Offset(head, p, cap) == k - d;
      }
    }
  }

  /** Writing a record's header and then its payload at the write position
    * appends the record to those held. */
  lemma AppendRecord(b0: seq<u8>, b1: seq<u8>, b2: seq<u8>, cap: nat, tail: nat, head: nat,
                     rs: seq<Record>, r: Record)
    requires Holds(b0, cap, tail, head, Serialize(rs))
    requires |Serialize(rs)| + HeaderSize + |r.payload| <= cap - 1
    requires Written(b0, b1, cap, head, Header(r))
    requires Written(b1, b2, cap, Wrap(head + HeaderSize, cap), r.payload)
    ensures Holds(b2, cap, tail, Wrap(Wrap(head + HeaderSize, cap) + |r.payload|, cap), Serialize(rs + [r]))
  {
    var bytes := Serialize(rs);
    HoldsAppend(b0, b1, cap, tail, head, bytes, Header(r));
    HoldsAppend(b1, b2, cap, tail, Wrap(head + HeaderSize, cap), bytes + Header(r), r.payload);
    SerializeSnoc(rs, r);
  }

  lemma FitsSnoc(rs: seq<Record>, r: Record)
    requires Fits(rs) && |r.payload| <= MaxRecordLen
    ensures Fits(rs + [r])
  {
  }

  /** The first record's header and payload open the serialisation. */
  lemma SerializeFirst(rs: seq<Record>)
    requires rs != []
    ensures var b := Serialize(rs); var m := HeaderSize + |rs[0].payload|;
      |b| >= m && b[..HeaderSize] == Header(rs[0]) && b[m..] == Serialize(rs[1..])
  {
    var b := Serialize(rs);
    assert b == Header(rs[0]) + rs[0].payload + Serialize(rs[1..]);
  }

  /** Where `drop_oldest_record_no_lock` moves `tail`: past the header read
    * at `tail` (in one copy or two) and the payload length it gives. */
  function NextRecord(b: seq<u8>, cap: nat, tail: nat): (t: nat)
    requires |b| == cap && tail < cap && HeaderSize <= cap
  {
    if cap - tail >= HeaderSize then
      WrapAdd(tail, HeaderSize + HeaderLen(b[tail..tail + HeaderSize]), cap)
    else
      WrapAdd(HeaderSize - (cap - tail), HeaderLen(b[tail..] + b[..HeaderSize - (cap - tail)]), cap)
  }

  /** Dropping the oldest record leaves the others held. */
  lemma DropStep(b: seq<u8>, cap: nat, tail: nat, head: nat, rs: seq<Record>)
    requires Holds(b, cap, tail, head, Serialize(rs)) && rs != [] && Fits(rs) && HeaderSize <= cap
    ensures Holds(b, cap, NextRecord(b, cap, tail), head, Serialize(rs[1..]))
  {
    var bytes := Serialize(rs);
    SerializeFirst(rs);
    HoldsRead(b, cap, tail, head, bytes, HeaderSize);
    HeaderRoundTrip(rs[0]);
    var m := HeaderSize + |rs[0].payload|;
    assert NextRecord(b, cap, tail) == Wrap(tail + m, cap);
    HoldsDrop(b, cap, tail, head, bytes, m);
  }

  /** What is held is empty exactly when the read position has reached
    * the write position. */
  lemma HoldsEmpty(b: seq<u8>, cap: nat, pos: nat, head: nat, rs: seq<Record>)
    requires Holds(b, cap, pos, head, Serialize(rs))
    ensures pos == head <==> rs == []
  {
  }

  /** Reading a header and then the payload length it gives, at the read
    * position, yields the first record held; the rest stay held after it. */
  lemma RecordBytes(rs: seq<Record>)
    requires rs != []
    ensures var bytes := Serialize(rs); var n := |rs[0].payload|;
      |bytes| >= HeaderSize + n &&
      bytes[..HeaderSize] == Header(rs[0]) && bytes[HeaderSize..][..n] == rs[0].payload &&
      bytes[HeaderSize..][n..] == Serialize(rs[1..])
  {
    var bytes := Serialize(rs);
    assert bytes == Header(rs[0]) + rs[0].payload + Serialize(rs[1..]);
  }

  lemma RecordAt(b: seq<u8>, cap: nat, pos: nat, head: nat, rs: seq<Record>)
    requires Holds(b, cap, pos, head, Serialize(rs)) && rs != []
    ensures var p1 := Wrap(pos + HeaderSize, cap); var n := |rs[0].payload|;
      ReadAt(b, cap, pos, HeaderSize) == Header(rs[0]) && p1 < cap && n <= cap &&
      ReadAt(b, cap, p1, n) == rs[0].payload &&
      Holds(b, cap, Wrap(p1 + n, cap), head, Serialize(rs[1..]))
  {
    var bytes := Serialize(rs);
    var n := |rs[0].payload|;
    RecordBytes(rs);
    TakeFront(b, cap, pos, head, bytes, HeaderSize);
    var rest := bytes[HeaderSize..];
    var p1 := Wrap(pos + HeaderSize, cap);
    TakeFront(b, cap, p1, head, rest, n);
    assert rest[n..] == Serialize(rs[1..]);
  }

  /** The record `console_buffer_iterate` rebuilds from a header and the
    * payload read after it. */
  lemma DecodeRecord(h: seq<u8>, payload: seq<u8>, r: Record)
    requires h == Header(r) && payload == r.payload && |payload| <= MaxRecordLen
    ensures HeaderLen(h) == |payload|
    ensures Record(HeaderTs(h), HeaderDir(h), payload) == r
  {
    HeaderRoundTrip(r);
  }

  /** One step of the walk from record `i`: record `i` is handed over, and
    * the walk ends with it when the callback says stop. */
  lemma VisitAdvance(rs: seq<Record>, stop: Record -> bool, failAt: nat, i: nat, v: seq<Record>)
    requires i < |rs| && i < failAt
    requires Visit(rs, stop, failAt) == v + Visit(rs[i..], stop, failAt - i)
    ensures stop(rs[i]) ==> Visit(rs, stop, failAt) == v + [rs[i]]
    ensures !stop(rs[i]) ==>
      Visit(rs, stop, failAt) == (v + [rs[i]]) + Visit(rs[i + 1..], stop, failAt - (i + 1))
  {
    var rest := rs[i..];
    assert rest[0] == rs[i] && rest[1..] == rs[i + 1..];
  }

  /** The walk has nothing left once the records or the allocations run out. */
  lemma VisitDone(rs: seq<Record>, stop: Record -> bool, failAt: nat, i: nat, v: seq<Record>)
    requires i <= |rs| && i <= failAt && (i == |rs| || i == failAt)
    requires Visit(rs, stop, failAt) == v + Visit(rs[i..], stop, failAt - i)
    ensures Visit(rs, stop, failAt) == v
  {
  }

  /** Reading the first `m` held bytes and moving past them. */
  lemma TakeFront(b: seq<u8>, cap: nat, pos: nat, head: nat, bytes: seq<u8>, m: nat)
    requires Holds(b, cap, pos, head, bytes) && m <= |bytes|
    ensures ReadAt(b, cap, pos, m) == bytes[..m]
    ensures Holds(b, cap, Wrap(pos + m, cap), head, bytes[m..])
  {
    HoldsRead(b, cap, pos, head, bytes, m);
    HoldsDrop(b, cap, pos, head, bytes, m);
  }

  /** What the free-space test of `console_buffer_append` tells about the
    * records held: enough room means none has to go; too little means
    * there is an oldest record, and dropping it keeps the eviction target. */
  lemma RoomFacts(b: seq<u8>, cap: nat, tail: nat, head: nat, rs: seq<Record>, total: nat)
    requires Holds(b, cap, tail, head, Serialize(rs)) && total <= cap - 1
    ensures FreeSpace(tail, head, cap) >= total ==>
      |Serialize(rs)| + total <= cap - 1 && Evict(rs, total, cap) == rs
    ensures FreeSpace(tail, head, cap) < total ==>
      rs != [] && Evict(rs, total, cap) == Evict(rs[1..], total, cap)
  {
  }

  // ------------------------------------------------------ record lengths

  /** The payload length `console_buffer_append` stores, as written: the
    * 16-bit field is the only bound. */
  function StoredLenAsWritten(len: nat): (r: nat)
    ensures r <= len && r <= MaxRecordLen
    ensures len <= MaxRecordLen ==> r == len
  {
    Min(len, MaxRecordLen)
  }

  /** The length actually stored: also short enough that header and
    * payload fit in an empty ring with the free byte kept. */
  function StoredLen(len: nat, cap: nat): (r: nat)
    requires cap >= MinCapacity
    ensures r <= len && r <= MaxRecordLen && HeaderSize + r <= cap - 1
    ensures HeaderSize + StoredLenAsWritten(len) <= cap - 1 ==> r == StoredLenAsWritten(len)
  {
    Min(StoredLenAsWritten(len), cap - 1 - HeaderSize)
  }

  /** One copy into the ring as written: the next write position, and
    * whether the second copy runs past the end of the array. */
  function CopyAsWritten(pos: nat, n: nat, cap: nat): (r: (nat, bool))
    requires pos < cap
  {
    if cap - pos >= n then (WrapAdd(pos, n, cap), false)
    else (n - (cap - pos), n - (cap - pos) > cap)
  }

  /** In an empty 4096-byte ring, as written, a 4085-byte record fills the
    * ring completely: the loop making room stops because the ring is empty,
    * and the write ends where it began, so `head == tail` and the record
    * reads as absent. A payload of 8182 bytes or more writes past the end of
    * the array. */
  lemma OversizeRecordAsWritten()
    ensures var len := StoredLenAsWritten(4085);
      FreeSpace(0, 0, 4096) < HeaderSize + len &&
      CopyAsWritten(0, HeaderSize, 4096) == (11, false) &&
      CopyAsWritten(11, len, 4096) == (0, false)
    ensures var len := StoredLenAsWritten(8182);
      CopyAsWritten(11, len, 4096).1
  {
  }

  /** The oldest records `console_buffer_append` drops so `total` more bytes
    * fit with the free byte kept, the ring emptying at worst. */
  function Evict(rs: seq<Record>, total: nat, cap: nat): (kept: seq<Record>)
    requires total <= cap - 1
    ensures |Serialize(kept)| + total <= cap - 1
    ensures exists k :: 0 <= k <= |rs| && kept == rs[k..]
    ensures |Serialize(rs)| + total <= cap - 1 ==> kept == rs
    decreases |rs|
  {
    if rs == [] then assert rs[0..] == rs; rs
    else if |Serialize(rs)| + total <= cap - 1 then assert rs[0..] == rs; rs
    else
      var k' := Evict(rs[1..], total, cap);
      assert exists k :: 0 <= k <= |rs| && k' == rs[k..] by {
        var j :| 0 <= j <= |rs[1..]| && k' == rs[1..][j..];
        assert k' == rs[j + 1..];
      }
      k'
  }

  /** Only what has to go is dropped: the record before the kept ones
    * would not have fitted. */
  lemma {:induction false} EvictMinimal(rs: seq<Record>, total: nat, cap: nat, k: nat)
    requires total <= cap - 1 && 0 < k <= |rs| && Evict(rs, total, cap) == rs[k..]
    ensures |Serialize(rs[k - 1..])| + total > cap - 1
    decreases |rs|
  {
    if |Serialize(rs)| + total <= cap - 1 {
      assert false;
    } else if k == 1 {
      assert rs[0..] == rs;
    } else {
      assert rs[1..][k - 1..] == rs[k..];
      EvictMinimal(rs[1..], total, cap, k - 1);
      assert rs[1..][k - 2..] == rs[k - 1..];
    }
  }

  /** The records `console_buffer_iterate` hands to the callback: oldest
    * first, up to and including the first one it answers non-zero to; the
    * walk also ends, before the callback, at record `failAt`, whose copy
    * could not be allocated. */
  function Visit(rs: seq<Record>, stop: Record -> bool, failAt: nat): (v: seq<Record>)
    decreases |rs|
  {
    if rs == [] || failAt == 0 then []
    else if stop(rs[0]) then [rs[0]]
    else [rs[0]] + Visit(rs[1..], stop, failAt - 1)
  }

  /** The walk hands over the oldest records in order, none of them but the
    * last answered with a stop, and ends early only at a stop. */
  lemma {:induction false} VisitShape(rs: seq<Record>, stop: Record -> bool, failAt: nat)
    ensures var v := Visit(rs, stop, failAt);
      v <= rs && |v| <= failAt &&
      (forall i :: 0 <= i < |v| - 1 ==> !stop(v[i])) &&
      (|v| < |rs| && |v| < failAt ==> |v| > 0 && stop(v[|v| - 1]))
    decreases |rs|
  {
    if rs != [] && failAt != 0 && !stop(rs[0]) {
      VisitShape(rs[1..], stop, failAt - 1);
      var w := Visit(rs[1..], stop, failAt - 1);
      var v := Visit(rs, stop, failAt);
      assert v == [rs[0]] + w;
      forall i | 0 <= i < |v| - 1 ensures !stop(v[i]) {
        if i > 0 { assert v[i] == w[i - 1]; }
      }
    }
  }

  class Ring {
    var buf: array<u8>
    var capacity: nat
    var head: nat
    var tail: nat
    var inited: bool
    ghost var records: seq<Record>

    ghost predicate Valid()
      reads this, buf
    {
      (inited ==>
        buf.Length == capacity && capacity >= MinCapacity && Fits(records) &&
        Holds(buf[..], capacity, tail, head, Serialize(records))) &&
      (!inited ==> records == [])
    }

    /** The zero-initialised static ring. */
    constructor ()
      ensures Valid() && !inited
    {
      buf := new u8[0];
      capacity := 0;
      head := 0;
      tail := 0;
      inited := false;
      records := [];
    }

    /** `console_buffer_init`: `alloc` says whether either allocation
      * succeeded and `mutexOk` whether the mutex was created. */
    method Init(requested: nat, alloc: bool, mutexOk: bool) returns (ok: bool)
      requires Valid()
      modifies this
      ensures Valid()
      ensures old(inited) ==> (ok && inited && capacity == old(capacity) && head == old(head) &&
        tail == old(tail) && buf == old(buf) && records == old(records))
      ensures !old(inited) && !alloc ==> !ok && !inited
      ensures !old(inited) && alloc ==> (ok == mutexOk && inited == mutexOk &&
        capacity == Max(requested, MinCapacity) && head == 0 && tail == 0)
      ensures records == old(records)
      ensures buf == old(buf) || fresh(buf)
    {
      if inited {
        return true;
      }
      var cap := requested;
      if cap < MinCapacity {
        cap := MinCapacity;
      }
      if !alloc {
        return false;
      }
      buf := new u8[cap];
      capacity := cap;
      head := 0;
      tail := 0;
      inited := mutexOk;
      ok := inited;
    }

    /** `drop_oldest_record_no_lock`. */
    method DropOldest()
      requires inited && Valid()
      modifies this`tail, this`records
      ensures Valid()
      ensures old(records) == [] ==> records == [] && tail == old(tail)
      ensures old(records) != [] ==> records == old(records)[1..]
    {
      if head == tail {
        return;
      }
      ghost var b := buf[..];
      if capacity - tail >= HeaderSize {
        var h := buf[tail..tail + HeaderSize];
        tail := WrapAdd(tail, HeaderSize + HeaderLen(h), capacity);
      } else {
        var part := capacity - tail;
        var h := buf[tail..] + buf[..HeaderSize - part];
        tail := HeaderSize - part;
        tail := WrapAdd(tail, HeaderLen(h), capacity);
      }
      DropStep(b, capacity, old(tail), head, records);
      records := records[1..];
    }

    /** Copy `bytes` into the ring at `pos`, splitting the copy at the end of
      * the array; the next write position is returned. */
    method CopyIn(pos: nat, bytes: seq<u8>) returns (next: nat)
      requires buf.Length == capacity && pos < capacity && |bytes| <= capacity
      modifies buf
      ensures next == Wrap(pos + |bytes|, capacity)
      ensures Written(old(buf[..]), buf[..], capacity, pos, bytes)
    {
      var n := |bytes|;
      if capacity - pos >= n {
        forall k | 0 <= k < n {
          buf[pos + k] := bytes[k];
        }
        next := WrapAdd(pos, n, capacity);
      } else {
        var part := capacity - pos;
        forall k | 0 <= k < part {
          buf[pos + k] := bytes[k];
        }
        forall k | 0 <= k < n - part {
          buf[k] := bytes[part + k];
        }
        next := n - part;
      }
    }

    /** Append one record of `hdr` and `payload` to a ring with room for it. */
    method WriteRecord(r: Record)
      requires inited && Valid()
      requires |r.payload| <= MaxRecordLen
      requires |Serialize(records)| + HeaderSize + |r.payload| <= capacity - 1
      modifies this`head, this`records, buf
      ensures Valid()
      ensures records == old(records) + [r]
    {
      ghost var b0 := buf[..];
      head := CopyIn(head, Header(r));
      ghost var b1 := buf[..];
      head := CopyIn(head, r.payload);
      AppendRecord(b0, b1, buf[..], capacity, tail, old(head), records, r);
      FitsSnoc(records, r);
      records := records + [r];
    }

    /** The loop of `console_buffer_append` that drops the oldest records
      * until `total` bytes are free or the ring is empty. */
    method MakeRoom(total: nat)
      requires inited && Valid() && total <= capacity - 1
      modifies this`tail, this`records
      ensures inited && Valid()
      ensures records == Evict(old(records), total, capacity)
      ensures |Serialize(records)| + total <= capacity - 1
    {
      ghost var start := records;
      while true
        invariant inited && Valid()
        invariant Evict(records, total, capacity) == Evict(start, total, capacity)
        decreases |records|
      {
        RoomFacts(buf[..], capacity, tail, head, records, total);
        var free := FreeSpace(tail, head, capacity);
        if free >= total {
          return;
        }
        DropOldest();
        if head == tail {
          HoldsEmpty(buf[..], capacity, tail, head, records);
          return;
        }
      }
    }

    /** `console_buffer_append(data, len, dir)` at time `nowMs`, with the
      * payload length corrected by `StoredLen`. A NULL or empty `data` is
      * ignored; an uninitialised ring is first initialised with 64 KiB, and
      * `alloc`/`mutexOk` say how that goes. */
    method Append(data: Option<seq<u8>>, dir: u8, nowMs: u64, alloc: bool, mutexOk: bool)
      requires Valid()
      modifies this, buf
      ensures Valid()
      ensures (data.None? || data.value == []) ==> records == old(records) && inited == old(inited)
      ensures old(inited) ==> inited && capacity == old(capacity)
      ensures data.Some? && data.value != [] && !inited ==> records == []
      ensures data.Some? && data.value != [] && inited ==>
        var len := StoredLen(|data.value|, capacity);
        records == Evict(old(records), HeaderSize + len, capacity) +
          [Record(nowMs, dir, data.value[..len])]
    {
      if data.None? || data.value == [] {
        return;
      }
      if !inited {
        var ok := Init(DefaultCapacity, alloc, mutexOk);
        if !ok {
          return;
        }
      }
      var len := StoredLen(|data.value|, capacity);
      Store(Record(nowMs, dir, data.value[..len]));
    }

    /** The part of `console_buffer_append` that runs under the mutex:
      * make room for `r`, then write it. */
    method Store(r: Record)
      requires inited && Valid()
      requires |r.payload| <= MaxRecordLen && HeaderSize + |r.payload| <= capacity - 1
      modifies this`head, this`tail, this`records, buf
      ensures inited && Valid()
      ensures records == Evict(old(records), HeaderSize + |r.payload|, capacity) + [r]
    {
      MakeRoom(HeaderSize + |r.payload|);
      WriteRecord(r);
    }

    /** Read `n` bytes at `pos` the way the C code does. */
    method CopyOut(pos: nat, n: nat) returns (bytes: seq<u8>, next: nat)
      requires buf.Length == capacity && pos < capacity && n <= capacity
      ensures bytes == ReadAt(buf[..], capacity, pos, n)
      ensures next == Wrap(pos + n, capacity)
    {
      if capacity - pos >= n {
        bytes := buf[pos..pos + n];
        next := WrapAdd(pos, n, capacity);
      } else {
        var part := capacity - pos;
        bytes := buf[pos..] + buf[..n - part];
        next := n - part;
      }
    }

    /** The header read at `pos`, the first of the records `rs` held from
      * there, and the position after it. */
    method ReadHeader(pos: nat, ghost rs: seq<Record>) returns (h: seq<u8>, next: nat)
      requires buf.Length == capacity && Holds(buf[..], capacity, pos, head, Serialize(rs)) && rs != []
      requires Fits(rs)
      ensures h == Header(rs[0]) && HeaderLen(h) == |rs[0].payload|
      ensures next == Wrap(pos + HeaderSize, capacity) && next < capacity
    {
      RecordAt(buf[..], capacity, pos, head, rs);
      h, next := CopyOut(pos, HeaderSize);
      HeaderRoundTrip(rs[0]);
    }

    /** The first record of `rs`, rebuilt from its header `h` and the
      * payload read at `p1`; the others stay held from the position after. */
    method ReadPayload(pos: nat, h: seq<u8>, p1: nat, ghost rs: seq<Record>) returns (got: Record, next: nat)
      requires buf.Length == capacity && Holds(buf[..], capacity, pos, head, Serialize(rs)) && rs != []
      requires Fits(rs)
      requires h == Header(rs[0]) && HeaderLen(h) == |rs[0].payload| && p1 == Wrap(pos + HeaderSize, capacity)
      ensures got == rs[0]
      ensures Holds(buf[..], capacity, next, head, Serialize(rs[1..]))
    {
      RecordAt(buf[..], capacity, pos, head, rs);
      var payload;
      payload, next := CopyOut(p1, HeaderLen(h));
      DecodeRecord(h, payload, rs[0]);
      got := Record(HeaderTs(h), HeaderDir(h), payload);
    }

    /** `console_buffer_iterate(cb, ctx)`: the records handed to the
      * callback, in order. `None` is a NULL callback. */
    method Iterate(cb: Option<Record -> bool>, failAt: nat) returns (visited: seq<Record>)
      requires Valid()
      ensures cb.None? || !inited ==> visited == []
      ensures cb.Some? && inited ==> visited == Visit(records, cb.value, failAt)
    {
      visited := [];
      if cb.None? || !inited {
        return;
      }
      var stop := cb.value;
      var pos := tail;
      var i := 0;
      while pos != head
        invariant 0 <= i <= |records| && i <= failAt
        invariant Holds(buf[..], capacity, pos, head, Serialize(records[i..]))
        invariant Visit(records, stop, failAt) == visited + Visit(records[i..], stop, failAt - i)
        decreases |records| - i
      {
        ghost var rest := records[i..];
        HoldsEmpty(buf[..], capacity, pos, head, rest);
        assert Fits(rest);
        var h, p1 := ReadHeader(pos, rest);
        if i == failAt {
          VisitDone(records, stop, failAt, i, visited);
          return;
        }
        var got, p2 := ReadPayload(pos, h, p1, rest);
        assert got == records[i] && rest[1..] == records[i + 1..];
        VisitAdvance(records, stop, failAt, i, visited);
        visited := visited + [got];
        pos := p2;
        i := i + 1;
        if stop(got) {
          return;
        }
      }
      HoldsEmpty(buf[..], capacity, pos, head, records[i..]);
      VisitDone(records, stop, failAt, i, visited);
    }
  }
}
