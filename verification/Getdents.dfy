/**
  Directory paging of linux/dispatch.rs: the packed linux_dirent64 records, the greedy
  page fill and the cursor. Integers are stored little-endian, as on the supported targets.
 */
module Getdents {
  import opened Wrappers
  import opened Paths

  datatype DirEntry = DirEntry(name: Bytes, inode: nat, fileType: byte)

  datatype OpenDirectory = OpenDirectory(path: Path, entries: seq<DirEntry>, cursor: nat)

  /** What a directory listing returns on Linux: NUL-free names of at most 255 bytes. */
  ghost predicate GoodEntry(e: DirEntry) {
    NulFree(e.name) && |e.name| <= 255 && e.inode < Power256(8)
  }

  ghost predicate GoodEntries(es: seq<DirEntry>) {
    |es| < Power256(7) && forall i :: 0 <= i < |es| ==> GoodEntry(es[i])
  }

  // ----- Encoding -----

  function Power256(k: nat): nat {
    if k == 0 then 1 else 256 * Power256(k - 1)
  }

  function LittleEndian(n: nat, k: nat): (r: Bytes)
    ensures |r| == k
  {
    if k == 0 then [] else [n % 256] + LittleEndian(n / 256, k - 1)
  }

  function FromLittleEndian(s: Bytes): nat {
    if s == [] then 0 else s[0] + 256 * FromLittleEndian(s[1..])
  }

  function Zeros(n: nat): (r: Bytes)
    ensures |r| == n && forall i :: 0 <= i < n ==> r[i] == 0
  {
    seq(n, i => 0)
  }

  /** 19 bytes of header, the name and its NUL, rounded up to a multiple of eight. */
  function RecordLength(name: Bytes): (n: nat)
    ensures n % 8 == 0 && |name| + 20 <= n <= |name| + 27
  {
    (19 + |name| + 1 + 7) / 8 * 8
  }

  function Record(e: DirEntry, next: nat): (r: Bytes)
    ensures |r| == RecordLength(e.name)
  {
    LittleEndian(e.inode, 8) + LittleEndian(next, 8) + LittleEndian(RecordLength(e.name) % 0x1_0000, 2)
    + [e.fileType] + e.name + Zeros(RecordLength(e.name) - 19 - |e.name|)
  }

  method DirentRecord(e: DirEntry, next: nat) returns (r: Bytes)
    ensures r == Record(e, next)
  {
    var length := RecordLength(e.name);
    var record := new byte[length](_ => 0);
    var inode, offset := LittleEndian(e.inode, 8), LittleEndian(next, 8);
    var size := LittleEndian(length % 0x1_0000, 2);
    forall i | 0 <= i < 8 { record[i] := inode[i]; }
    forall i | 0 <= i < 8 { record[8 + i] := offset[i]; }
    forall i | 0 <= i < 2 { record[16 + i] := size[i]; }
    record[18] := e.fileType;
    forall i | 0 <= i < |e.name| { record[19 + i] := e.name[i]; }
    record[19 + |e.name|] := 0;
    r := record[..];
  }

  /** The records of `es[lo..hi]`, packed; each carries the offset of its successor. */
  function Encode(es: seq<DirEntry>, lo: nat, hi: nat): Bytes
    requires lo <= hi <= |es|
    decreases hi - lo
  {
    if lo == hi then [] else Record(es[lo], lo + 1) + Encode(es, lo + 1, hi)
  }

  // ----- Paging -----

  /** Where the greedy fill stops when `room` bytes are left. */
  function NextCursor(es: seq<DirEntry>, cursor: nat, room: nat): (next: nat)
    requires cursor <= |es|
    ensures cursor <= next <= |es|
    decreases |es| - cursor
  {
    if cursor < |es| && RecordLength(es[cursor].name) <= room
    then NextCursor(es, cursor + 1, room - RecordLength(es[cursor].name))
    else cursor
  }

  lemma Associative(a: Bytes, b: Bytes, c: Bytes)
    ensures a + (b + c) == (a + b) + c
  {
  }

  lemma {:induction false} EncodeSplit(es: seq<DirEntry>, lo: nat, mid: nat, hi: nat)
    requires lo <= mid <= hi <= |es|
    ensures Encode(es, lo, hi) == Encode(es, lo, mid) + Encode(es, mid, hi)
    decreases mid - lo
  {
    if lo < mid {
      EncodeSplit(es, lo + 1, mid, hi);
      Associative(Record(es[lo], lo + 1), Encode(es, lo + 1, mid), Encode(es, mid, hi));
    } else {
      assert Encode(es, lo, mid) + Encode(es, mid, hi) == Encode(es, mid, hi);
    }
  }

  method FillPage(es: seq<DirEntry>, cursor: nat, capacity: nat) returns (output: Bytes, next: nat)
    requires cursor <= |es|
    ensures next == NextCursor(es, cursor, capacity)
    ensures output == Encode(es, cursor, next)
    ensures |output| <= capacity
  {
    output, next := [], cursor;
    while next < |es|
      invariant cursor <= next <= |es|
      invariant output == Encode(es, cursor, next) && |output| <= capacity
      invariant NextCursor(es, cursor, capacity) == NextCursor(es, next, capacity - |output|)
    {
      var record := DirentRecord(es[next], next + 1);
      if |output| + |record| > capacity {
        break;
      }
      EncodeSplit(es, cursor, next, next + 1);
      assert Encode(es, next, next + 1) == record + Encode(es, next + 1, next + 1) == record;
      output := output + record;
      next := next + 1;
    }
  }

  datatype PageReply = Delivered(output: Bytes) | TooSmall | WriteFailed(errno: int)

  /** One call: the cursor moves before the write into the tracee is known to succeed. */
  function Page(d: OpenDirectory, capacity: nat, write: Option<int>): (OpenDirectory, PageReply)
    requires d.cursor <= |d.entries|
  {
    var next := NextCursor(d.entries, d.cursor, capacity);
    var d' := d.(cursor := next);
    if next == d.cursor && d.cursor < |d.entries| then (d', TooSmall)
    else match write
      case Some(errno) => (d', WriteFailed(errno))
      case None => (d', Delivered(Encode(d.entries, d.cursor, next)))
  }

  // ----- Decoding -----

  datatype Decoded = Decoded(inode: nat, offset: nat, fileType: byte, name: Bytes)

  function BeforeNul(s: Bytes): Bytes {
    if s == [] || s[0] == 0 then [] else [s[0]] + BeforeNul(s[1..])
  }

  /** A reader that steps by the stored record length; `None` when a record is malformed. */
  function Decode(s: Bytes): Option<seq<Decoded>>
    decreases |s|
  {
    if s == [] then Some([])
    else if |s| < 24 then None
    else
      var length := FromLittleEndian(s[16..18]);
      if length < 24 || length > |s| then None
      else match Decode(s[length..])
        case None => None
        case Some(rest) =>
          Some([Decoded(FromLittleEndian(s[..8]), FromLittleEndian(s[8..16]), s[18], BeforeNul(s[19..length]))] + rest)
  }

  lemma {:induction false} LittleEndianRoundTrip(n: nat, k: nat)
    requires n < Power256(k)
    ensures FromLittleEndian(LittleEndian(n, k)) == n
  {
    if k > 0 {
      LittleEndianRoundTrip(n / 256, k - 1);
      assert LittleEndian(n, k)[1..] == LittleEndian(n / 256, k - 1);
    }
  }

  lemma {:induction false} NameRoundTrip(name: Bytes, rest: Bytes)
    requires NulFree(name) && rest != [] && rest[0] == 0
    ensures BeforeNul(name + rest) == name
  {
    if name == [] {
      assert name + rest == rest;
    } else {
      assert (name + rest)[1..] == name[1..] + rest;
      NameRoundTrip(name[1..], rest);
    }
  }

  function Expected(es: seq<DirEntry>, lo: nat, hi: nat): seq<Decoded>
    requires lo <= hi <= |es|
  {
    seq(hi - lo, i requires 0 <= i < hi - lo =>
      Decoded(es[lo + i].inode, lo + i + 1, es[lo + i].fileType, es[lo + i].name))
  }

  lemma ExpectedCons(es: seq<DirEntry>, lo: nat, hi: nat)
    requires lo < hi <= |es|
    ensures Expected(es, lo, hi) ==
            [Decoded(es[lo].inode, lo + 1, es[lo].fileType, es[lo].name)] + Expected(es, lo + 1, hi)
  {
  }

  lemma {:induction false} RecordHeader(e: DirEntry, next: nat, tail: Bytes)
    ensures var s := Record(e, next) + tail;
            |s| >= 16 && s[..8] == LittleEndian(e.inode, 8) && s[8..16] == LittleEndian(next, 8)
  {
    var rest := LittleEndian(RecordLength(e.name) % 0x1_0000, 2) + [e.fileType] + e.name
                + Zeros(RecordLength(e.name) - 19 - |e.name|) + tail;
    assert Record(e, next) + tail == LittleEndian(e.inode, 8) + LittleEndian(next, 8) + rest;
  }

  lemma RecordSizeAndType(e: DirEntry, next: nat, tail: Bytes)
    requires |e.name| <= 255
    ensures var s := Record(e, next) + tail;
            |s| >= 19 && s[16..18] == LittleEndian(RecordLength(e.name), 2) && s[18] == e.fileType
  {
    var before := LittleEndian(e.inode, 8) + LittleEndian(next, 8);
    var after := e.name + Zeros(RecordLength(e.name) - 19 - |e.name|) + tail;
    assert Record(e, next) + tail == before + LittleEndian(RecordLength(e.name), 2) + [e.fileType] + after;
  }

  lemma RecordName(e: DirEntry, next: nat, tail: Bytes)
    requires |e.name| <= 255
    ensures var s := Record(e, next) + tail;
            var n := RecordLength(e.name);
            && 24 <= n <= 280 && n <= |s| && n - 19 - |e.name| >= 1
            && s[19..n] == e.name + Zeros(n - 19 - |e.name|)
            && s[n..] == tail
  {
    var n := RecordLength(e.name);
    var before := LittleEndian(e.inode, 8) + LittleEndian(next, 8) + LittleEndian(n % 0x1_0000, 2) + [e.fileType];
    assert |before| == 19 && Record(e, next) + tail == before + (e.name + Zeros(n - 19 - |e.name|)) + tail;
  }

  lemma RecordFields(e: DirEntry, next: nat, tail: Bytes)
    requires GoodEntry(e) && next < Power256(8)
    ensures var s := Record(e, next) + tail;
            var n := RecordLength(e.name);
            && 24 <= n <= 280 && n <= |s|
            && FromLittleEndian(s[..8]) == e.inode
            && FromLittleEndian(s[8..16]) == next
            && FromLittleEndian(s[16..18]) == n
            && s[18] == e.fileType
            && BeforeNul(s[19..n]) == e.name
            && s[n..] == tail
  {
    var n := RecordLength(e.name);
    RecordHeader(e, next, tail);
    RecordSizeAndType(e, next, tail);
    RecordName(e, next, tail);
    assert Power256(2) == 65536 by { assert Power256(1) == 256; }
    LittleEndianRoundTrip(e.inode, 8);
    LittleEndianRoundTrip(next, 8);
    LittleEndianRoundTrip(n, 2);
    NameRoundTrip(e.name, Zeros(n - 19 - |e.name|));
  }

  lemma {:induction false} DecodeCons(e: DirEntry, next: nat, tail: Bytes)
    requires GoodEntry(e) && next < Power256(8) && Decode(tail).Some?
    ensures Decode(Record(e, next) + tail) ==
            Some([Decoded(e.inode, next, e.fileType, e.name)] + Decode(tail).value)
  {
    RecordFields(e, next, tail);
  }

  lemma OffsetFits(n: nat)
    requires n < Power256(7)
    ensures n + 1 < Power256(8)
  {
    assert Power256(8) == 256 * Power256(7);
  }

  lemma EncodeCons(es: seq<DirEntry>, lo: nat, hi: nat)
    requires lo < hi <= |es|
    ensures Encode(es, lo, hi) == Record(es[lo], lo + 1) + Encode(es, lo + 1, hi)
  {
  }

  lemma DecodeStep(es: seq<DirEntry>, lo: nat, hi: nat)
    requires lo < hi <= |es| && GoodEntry(es[lo]) && lo < Power256(7)
    requires Decode(Encode(es, lo + 1, hi)) == Some(Expected(es, lo + 1, hi))
    ensures Decode(Encode(es, lo, hi)) == Some(Expected(es, lo, hi))
  {
    OffsetFits(lo);
    EncodeCons(es, lo, hi);
    DecodeCons(es[lo], lo + 1, Encode(es, lo + 1, hi));
    ExpectedCons(es, lo, hi);
  }

  /** A page decodes to its entries, once each and in order, with offsets counting up by one. */
  lemma {:induction false} DecodePage(es: seq<DirEntry>, lo: nat, hi: nat)
    requires lo <= hi <= |es| && GoodEntries(es)
    ensures Decode(Encode(es, lo, hi)) == Some(Expected(es, lo, hi))
    decreases hi - lo
  {
    if lo < hi {
      DecodePage(es, lo + 1, hi);
      DecodeStep(es, lo, hi);
    } else {
      assert Expected(es, lo, hi) == [];
    }
  }

  lemma SumAligned(a: nat, b: nat)
    requires a % 8 == 0 && b % 8 == 0
    ensures (a + b) % 8 == 0
  {
  }

  lemma PageLength(es: seq<DirEntry>, lo: nat, hi: nat)
    requires lo < hi <= |es|
    ensures |Encode(es, lo, hi)| == RecordLength(es[lo].name) + |Encode(es, lo + 1, hi)|
  {
  }

  lemma {:induction false} PageAligned(es: seq<DirEntry>, lo: nat, hi: nat)
    requires lo <= hi <= |es|
    ensures |Encode(es, lo, hi)| % 8 == 0
    decreases hi - lo
  {
    if lo < hi {
      PageLength(es, lo, hi);
      PageAligned(es, lo + 1, hi);
      SumAligned(RecordLength(es[lo].name), |Encode(es, lo + 1, hi)|);
    }
  }

  // ----- Whole reading sessions -----

  datatype Call = Call(capacity: nat, write: Option<int>)

  function Session(d: OpenDirectory, calls: seq<Call>): (r: (OpenDirectory, Bytes))
    requires d.cursor <= |d.entries|
    ensures r.0.entries == d.entries && d.cursor <= r.0.cursor <= |d.entries|
    decreases |calls|
  {
    if calls == [] then (d, [])
    else
      var (d', reply) := Page(d, calls[0].capacity, calls[0].write);
      var (last, output) := Session(d', calls[1..]);
      (last, (if reply.Delivered? then reply.output else []) + output)
  }

  /** Some write failed while it carried records. */
  ghost predicate LosesAPage(d: OpenDirectory, calls: seq<Call>)
    requires d.cursor <= |d.entries|
    decreases |calls|
  {
    calls != [] &&
    var (d', reply) := Page(d, calls[0].capacity, calls[0].write);
    (reply.WriteFailed? && d'.cursor > d.cursor) || LosesAPage(d', calls[1..])
  }

  lemma {:induction false} DeliveredLength(d: OpenDirectory, calls: seq<Call>)
    requires d.cursor <= |d.entries|
    ensures |Session(d, calls).1| <= |Encode(d.entries, d.cursor, Session(d, calls).0.cursor)|
    ensures LosesAPage(d, calls) ==>
              |Session(d, calls).1| < |Encode(d.entries, d.cursor, Session(d, calls).0.cursor)|
    ensures !LosesAPage(d, calls) ==>
              Session(d, calls).1 == Encode(d.entries, d.cursor, Session(d, calls).0.cursor)
    decreases |calls|
  {
    if calls != [] {
      var (d', reply) := Page(d, calls[0].capacity, calls[0].write);
      DeliveredLength(d', calls[1..]);
      EncodeSplit(d.entries, d.cursor, d'.cursor, Session(d', calls[1..]).0.cursor);
      if d'.cursor > d.cursor {
        assert |Encode(d.entries, d.cursor, d'.cursor)| >= |Record(d.entries[d.cursor], d.cursor + 1)|;
      }
    }
  }

  /**
    What the reader received is the encoding of exactly the entries the cursor passed,
    if and only if no write failed while carrying records.
   */
  lemma {:induction false} ConservationExactly(d: OpenDirectory, calls: seq<Call>)
    requires d.cursor <= |d.entries|
    ensures Session(d, calls).1 == Encode(d.entries, d.cursor, Session(d, calls).0.cursor) <==> !LosesAPage(d, calls)
  {
    DeliveredLength(d, calls);
  }

  /** A reader whose writes all arrived decodes every entry the cursor passed, across page boundaries. */
  lemma {:induction false} SessionDecodes(d: OpenDirectory, calls: seq<Call>)
    requires d.cursor <= |d.entries| && GoodEntries(d.entries) && !LosesAPage(d, calls)
    ensures Decode(Session(d, calls).1) == Some(Expected(d.entries, d.cursor, Session(d, calls).0.cursor))
  {
    ConservationExactly(d, calls);
    DecodePage(d.entries, d.cursor, Session(d, calls).0.cursor);
  }

  /** A failed write hides its entries: this reader never receives the one name of the directory. */
  lemma FailedWriteLosesEntries()
    ensures var d := OpenDirectory([], [DirEntry([97], 1, 8)], 0);
            var calls := [Call(280, Some(14)), Call(280, None)];
            && Session(d, calls).1 == []
            && Session(d, calls).0.cursor == 1
  {
    var d := OpenDirectory([], [DirEntry([97], 1, 8)], 0);
    var calls := [Call(280, Some(14)), Call(280, None)];
    assert NextCursor(d.entries, 0, 280) == NextCursor(d.entries, 1, 256) == 1;
    assert calls[1..] == [Call(280, None)] && calls[1..][1..] == [];
  }

  lemma {:induction false} CursorStops(es: seq<DirEntry>, cursor: nat, room: nat)
    requires cursor <= |es|
    ensures |Encode(es, cursor, NextCursor(es, cursor, room))| <= room
    ensures NextCursor(es, cursor, room) == cursor <==> cursor == |es| || RecordLength(es[cursor].name) > room
    ensures NextCursor(es, cursor, room) < |es| ==>
              |Encode(es, cursor, NextCursor(es, cursor, room))|
              + RecordLength(es[NextCursor(es, cursor, room)].name) > room
    decreases |es| - cursor
  {
    if cursor < |es| && RecordLength(es[cursor].name) <= room {
      CursorStops(es, cursor + 1, room - RecordLength(es[cursor].name));
    }
  }

  /**
    A call delivers nothing exactly at the end and refuses exactly when the next record does
    not fit, leaving the cursor; otherwise it delivers the longest run of records that fits.
   */
  lemma PageProgress(d: OpenDirectory, capacity: nat)
    requires d.cursor <= |d.entries|
    ensures var (d', reply) := Page(d, capacity, None);
            && (reply == Delivered([]) <==> d.cursor == |d.entries|)
            && (reply == TooSmall <==> d.cursor < |d.entries| && RecordLength(d.entries[d.cursor].name) > capacity)
            && (reply == TooSmall ==> d' == d)
            && (reply.Delivered? ==> |reply.output| <= capacity)
            && (reply.Delivered? && d'.cursor < |d.entries| ==>
                  |reply.output| + RecordLength(d.entries[d'.cursor].name) > capacity)
            && (d.cursor < |d.entries| && GoodEntries(d.entries) && capacity >= 280 ==> d'.cursor > d.cursor)
  {
    CursorStops(d.entries, d.cursor, capacity);
  }

  /** With 280-byte buffers and successful writes, one call per remaining entry reaches the end. */
  lemma {:induction false} ReaderFinishes(d: OpenDirectory, calls: seq<Call>)
    requires d.cursor <= |d.entries| && GoodEntries(d.entries)
    requires forall i :: 0 <= i < |calls| ==> calls[i].capacity >= 280 && calls[i].write.None?
    requires |calls| >= |d.entries| - d.cursor
    ensures Session(d, calls).0.cursor == |d.entries|
    ensures Session(d, calls).1 == Encode(d.entries, d.cursor, |d.entries|)
    decreases |calls|
  {
    if calls != [] {
      PageProgress(d, calls[0].capacity);
      var d' := Page(d, calls[0].capacity, None).0;
      ReaderFinishes(d', calls[1..]);
      EncodeSplit(d.entries, d.cursor, d'.cursor, |d.entries|);
    }
  }
}
