/** The append-only journal: record layout, the append path with region growth, and the
    reader that the format documentation implies. The mapped file is a byte sequence. */
module Journal {
  import opened Bytes
  import opened Crc32
  import opened Modular
  import opened Options

  // ----- little-endian numbers -----

  function Pow256(k: nat): (p: nat)
    ensures p > 0
  {
    if k == 0 then 1 else 256 * Pow256(k - 1)
  }

  /** The low k bytes of n, least significant first. */
  function Encode(n: nat, k: nat): (bs: seq<byte>)
    ensures |bs| == k
  {
    if k == 0 then [] else [(n % 256) as byte] + Encode(n / 256, k - 1)
  }

  function Decode(bs: seq<byte>): nat {
    if bs == [] then 0 else bs[0] as int + 256 * Decode(bs[1..])
  }

  lemma {:induction false} NumberRoundTrip(n: nat, k: nat)
    requires n < Pow256(k)
    ensures Decode(Encode(n, k)) == n
  {
    if k > 0 {
      ByteValue(n % 256);
      NumberRoundTrip(n / 256, k - 1);
    }
  }

  /** Byte i of a field holds the i-th digit to the base 256, the lowest first. */
  lemma {:induction false} LittleEndian(n: nat, k: nat, i: nat)
    requires i < k
    ensures Encode(n, k)[i] as int == n / Pow256(i) % 256
  {
    ByteValue(n % 256);
    if i > 0 {
      LittleEndian(n / 256, k - 1, i - 1);
      DivideTwice(n, Pow256(i - 1));
    }
  }

  lemma {:induction false} DecodeBound(bs: seq<byte>)
    ensures Decode(bs) < Pow256(|bs|)
  {
    if bs != [] {
      DecodeBound(bs[1..]);
    }
  }

  /** The other way round: bytes are the encoding of the number they hold. */
  lemma {:induction false} BytesRoundTrip(bs: seq<byte>)
    ensures Decode(bs) < Pow256(|bs|) && Encode(Decode(bs), |bs|) == bs
  {
    hide Pow256, Encode;
    DecodeBound(bs);
    if bs != [] {
      BytesRoundTrip(bs[1..]);
      EncodeLow(bs[0], Decode(bs[1..]), |bs| - 1);
    }
  }

  lemma EncodeLow(b: byte, high: nat, k: nat)
    ensures Encode(b as int + 256 * high, k + 1) == [b] + Encode(high, k)
  {
    LowByte(b, high);
  }

  lemma LowByte(b: byte, high: nat)
    ensures var n := b as int + 256 * high; n / 256 == high && n % 256 == b as int && (n % 256) as byte == b
  {
    var n := b as int + 256 * high;
    ModUnique(n, 256, high, b as int);
    ByteRoundTrip(b);
  }

  // ----- records -----

  /** New, filled, cancelled, rejected order; trade; snapshot. */
  const KINDS := {1, 2, 3, 4, 5, 99}

  datatype Record = Record(timestamp: nat, kind: nat, sequence: nat, payload: seq<byte>) {
    /** The fields fit the widths of the header. */
    ghost predicate Fits() {
      && timestamp < Pow256(8) && kind in KINDS && sequence < Pow256(8) && |payload| < Pow256(4)
    }
  }

  const HEADER := 32
  const ZEROS4: seq<byte> := [0, 0, 0, 0]

  /** The header up to its checksum field. */
  function Prefix(r: Record): (bs: seq<byte>)
    ensures |bs| == 24
  {
    Encode(r.timestamp, 8) + Encode(r.kind, 4) + Encode(|r.payload|, 4) + Encode(r.sequence, 8)
  }

  function CrcBytes(c: bv32): (bs: seq<byte>)
    ensures |bs| == 4
  {
    Encode(c as int, 4)
  }

  /** Checksum of a record, its own field counted as zero and the reserved word being zero. */
  function RecordCrc(prefix: seq<byte>, payload: seq<byte>): bv32 {
    Checksum(prefix + ZEROS4 + ZEROS4 + payload)
  }

  function RecordBytes(r: Record): (bs: seq<byte>)
    ensures |bs| == HEADER + |r.payload|
  {
    Prefix(r) + CrcBytes(RecordCrc(Prefix(r), r.payload)) + ZEROS4 + r.payload
  }

  function LogBytes(rs: seq<Record>): seq<byte> {
    if rs == [] then [] else RecordBytes(rs[0]) + LogBytes(rs[1..])
  }

  // ----- the reader -----

  /** Parse and check the record at the front; give it with what follows it. */
  function ReadRecord(bs: seq<byte>): (r: Option<(Record, seq<byte>)>)
    ensures r.Some? ==> |r.value.1| < |bs|
  {
    if |bs| < HEADER then None
    else
      var size := Decode(bs[12..16]);
      if |bs| - HEADER < size then None
      else
        var payload := bs[HEADER..HEADER + size];
        if Decode(bs[8..12]) !in KINDS || bs[28..32] != ZEROS4
          || bs[24..28] != CrcBytes(RecordCrc(bs[..24], payload)) then None
        else Some((Record(Decode(bs[..8]), Decode(bs[8..12]), Decode(bs[16..24]), payload), bs[HEADER + size..]))
  }

  /** Replay: all records up to the first that does not check out. */
  function ReadAll(bs: seq<byte>): seq<Record>
    decreases |bs|
  {
    match ReadRecord(bs)
    case None => []
    case Some((r, rest)) => [r] + ReadAll(rest)
  }

  /** Where the fields of a record's bytes are. */
  lemma Layout(r: Record, rest: seq<byte>)
    ensures var bs := RecordBytes(r) + rest;
      && bs[..24] == Prefix(r) && bs[24..28] == CrcBytes(RecordCrc(Prefix(r), r.payload)) && bs[28..32] == ZEROS4
      && bs[HEADER..HEADER + |r.payload|] == r.payload && bs[HEADER + |r.payload|..] == rest
    ensures var bs := RecordBytes(r) + rest;
      && bs[..8] == Encode(r.timestamp, 8) && bs[8..12] == Encode(r.kind, 4)
      && bs[12..16] == Encode(|r.payload|, 4) && bs[16..24] == Encode(r.sequence, 8)
  {
    hide CrcBytes, RecordCrc, Encode;
    var bs := RecordBytes(r) + rest;
    assert bs[..24] == Prefix(r);
    assert bs[..8] == bs[..24][..8] && bs[8..12] == bs[..24][8..12];
    assert bs[12..16] == bs[..24][12..16] && bs[16..24] == bs[..24][16..24];
  }

  lemma RecordRoundTrip(r: Record, rest: seq<byte>)
    requires r.Fits()
    ensures ReadRecord(RecordBytes(r) + rest) == Some((r, rest))
  {
    hide CrcBytes, RecordCrc, Encode, Decode, RecordBytes;
    Layout(r, rest);
    NumberRoundTrip(r.timestamp, 8);
    assert r.kind < 256 <= Pow256(4);
    NumberRoundTrip(r.kind, 4);
    NumberRoundTrip(|r.payload|, 4);
    NumberRoundTrip(r.sequence, 8);
  }

  /** The reader accepts nothing but the bytes of a record that fits. */
  lemma ReaderIsSound(bs: seq<byte>)
    requires ReadRecord(bs).Some?
    ensures var (r, rest) := ReadRecord(bs).value; r.Fits() && bs == RecordBytes(r) + rest
  {
    hide CrcBytes, RecordCrc, Encode, Decode;
    BytesRoundTrip(bs[..8]);
    BytesRoundTrip(bs[12..16]);
    BytesRoundTrip(bs[8..12]);
    BytesRoundTrip(bs[16..24]);
    var (r, rest) := ReadRecord(bs).value;
    assert bs[..24] == bs[..8] + bs[8..12] + bs[12..16] + bs[16..24];
    assert bs == bs[..24] + bs[24..28] + bs[28..32] + r.payload + rest;
  }

  ghost predicate AllFit(rs: seq<Record>) {
    forall i :: 0 <= i < |rs| ==> rs[i].Fits()
  }

  /** A log is read back record by record, and reading goes on with whatever follows it. */
  lemma {:induction false} LogRoundTrip(rs: seq<Record>, rest: seq<byte>)
    requires AllFit(rs)
    ensures ReadAll(LogBytes(rs) + rest) == rs + ReadAll(rest)
  {
    hide RecordBytes, ReadRecord;
    if rs == [] {
      assert LogBytes(rs) + rest == rest;
    } else {
      assert LogBytes(rs) + rest == RecordBytes(rs[0]) + (LogBytes(rs[1..]) + rest);
      RecordRoundTrip(rs[0], LogBytes(rs[1..]) + rest);
      LogRoundTrip(rs[1..], rest);
    }
  }

  lemma WholeLog(rs: seq<Record>)
    requires AllFit(rs)
    ensures ReadAll(LogBytes(rs)) == rs
  {
    LogRoundTrip(rs, []);
    assert LogBytes(rs) + [] == LogBytes(rs) && ReadAll([]) == [];
  }

  /** What a replay returns stood in the bytes from their beginning. */
  lemma {:induction false} ReplayIsPrefix(bs: seq<byte>)
    ensures AllFit(ReadAll(bs)) && LogBytes(ReadAll(bs)) <= bs
    decreases |bs|
  {
    hide RecordBytes, ReadRecord;
    if ReadRecord(bs).Some? {
      var (r, rest) := ReadRecord(bs).value;
      ReaderIsSound(bs);
      ReplayIsPrefix(rest);
      assert ReadAll(bs)[1..] == ReadAll(rest);
    }
  }

  lemma {:induction false} LogBytesAppend(rs: seq<Record>, r: Record)
    ensures LogBytes(rs + [r]) == LogBytes(rs) + RecordBytes(r)
  {
    hide RecordBytes;
    if rs == [] {
      assert rs + [r] == [r] && [r][1..] == [];
      assert RecordBytes(r) + LogBytes([]) == RecordBytes(r) && LogBytes(rs) + RecordBytes(r) == RecordBytes(r);
    } else {
      LogBytesAppend(rs[1..], r);
      assert (rs + [r])[0] == rs[0] && (rs + [r])[1..] == rs[1..] + [r];
      var a, b, c := RecordBytes(rs[0]), LogBytes(rs[1..]), RecordBytes(r);
      assert a + (b + c) == (a + b) + c;
    }
  }

  // ----- corruption -----

  lemma WordRoundTrip(c: bv32)
    ensures (c as int) as bv32 == c
  {
  }

  lemma CrcRoundTrip(c: bv32)
    ensures Decode(CrcBytes(c)) == c as int
  {
    hide Encode, Decode;
    assert Pow256(4) == 0x1_0000_0000 by {
      assert Pow256(2) == 0x1_0000;
    }
    NumberRoundTrip(c as int, 4);
  }

  /** What is stored as checksum: that of the record's own bytes with the checksum field zero. */
  lemma StoredChecksum(r: Record)
    ensures var bs := RecordBytes(r);
      Decode(bs[24..28]) == Checksum(bs[..24] + [0, 0, 0, 0] + bs[28..]) as int
  {
    hide CrcBytes, Checksum, Decode, RecordBytes;
    var bs := RecordBytes(r);
    Layout(r, []);
    assert bs + [] == bs;
    CrcRoundTrip(RecordCrc(Prefix(r), r.payload));
    assert bs[28..] == bs[28..32] + bs[HEADER..];
    assert bs[..24] + [0, 0, 0, 0] + bs[28..] == Prefix(r) + ZEROS4 + ZEROS4 + r.payload;
  }

  lemma CrcBytesInjective(c: bv32, d: bv32)
    requires CrcBytes(c) == CrcBytes(d)
    ensures c == d
  {
    hide CrcBytes;
    CrcRoundTrip(c);
    CrcRoundTrip(d);
    WordRoundTrip(c);
    WordRoundTrip(d);
  }

  /** The bytes that a record's checksum is taken over. */
  function Covered(bs: seq<byte>): (c: seq<byte>)
    requires |bs| >= HEADER
    ensures |c| == |bs|
  {
    bs[..24] + ZEROS4 + ZEROS4 + bs[HEADER..]
  }

  /** A stored record that was altered within four consecutive bytes, anywhere outside its
      size and checksum fields, is rejected. */
  lemma CorruptionDetected(r: Record, damaged: seq<byte>, i: nat, rest: seq<byte>)
    requires r.Fits() && |damaged| == |RecordBytes(r)| && damaged != RecordBytes(r)
    requires forall k :: 0 <= k < |damaged| && damaged[k] != RecordBytes(r)[k] ==>
      i <= k < i + 4 && !(12 <= k < 16) && !(24 <= k < 28)
    ensures ReadRecord(damaged + rest) == None
  {
    hide CrcBytes, RecordCrc, Encode, Decode, RecordBytes;
    var good, bad := RecordBytes(r), damaged + rest;
    Layout(r, []);
    assert good + [] == good;
    NumberRoundTrip(|r.payload|, 4);
    assert bad[12..16] == good[12..16] && bad[24..28] == good[24..28];
    assert bad[HEADER..|good|] == damaged[HEADER..] && bad[..24] == damaged[..24] && bad[28..32] == damaged[28..32];
    if damaged[28..32] == ZEROS4 {
      if Covered(good) == Covered(damaged) {
        CoveredDetermines(good, damaged);
      } else {
        ChecksumsDiffer(good, damaged, i);
      }
    }
  }

  lemma CoveredDetermines(a: seq<byte>, b: seq<byte>)
    requires |a| == |b| >= HEADER && a[24..28] == b[24..28] && a[28..32] == b[28..32]
    requires Covered(a) == Covered(b)
    ensures a == b
  {
    assert a[..24] == Covered(a)[..24] && b[..24] == Covered(b)[..24];
    assert a[HEADER..] == Covered(a)[HEADER..] && b[HEADER..] == Covered(b)[HEADER..];
    assert a == a[..24] + a[24..28] + a[28..32] + a[HEADER..];
    assert b == b[..24] + b[24..28] + b[28..32] + b[HEADER..];
  }

  lemma ChecksumsDiffer(good: seq<byte>, bad: seq<byte>, i: nat)
    requires |bad| == |good| >= HEADER && Covered(good) != Covered(bad)
    requires forall k :: 0 <= k < |bad| && bad[k] != good[k] ==> i <= k < i + 4
    ensures CrcBytes(RecordCrc(good[..24], good[HEADER..])) != CrcBytes(RecordCrc(bad[..24], bad[HEADER..]))
  {
    hide CrcBytes, Checksum;
    DetectsLocalChange(Covered(good), Covered(bad), i);
    if CrcBytes(RecordCrc(good[..24], good[HEADER..])) == CrcBytes(RecordCrc(bad[..24], bad[HEADER..])) {
      CrcBytesInjective(RecordCrc(good[..24], good[HEADER..]), RecordCrc(bad[..24], bad[HEADER..]));
    }
  }

  // ----- the journal object -----

  function Zeros(n: nat): (z: seq<byte>)
    ensures |z| == n
  {
    seq(n, _ => 0 as byte)
  }

  /** The region after making room for a record: at most one extension. */
  function Extended(size: nat, offset: nat, total: nat, unit: nat): nat {
    if offset + total > size then size + unit else size
  }

  /** In an open journal, which is never smaller than one unit, one extension is always
      enough exactly for records of at most one unit, header included: a longer one runs off
      the region when the journal is full, as it is right after opening. */
  lemma OneExtensionSufficesIff(total: nat, unit: nat)
    ensures total <= unit <==>
      forall size: nat, offset: nat :: unit <= size && offset <= size ==>
        offset + total <= Extended(size, offset, total, unit)
  {
    if total > unit {
      assert unit + total > Extended(unit, unit, total, unit);
    }
  }

  /** Copying bytes into the region. */
  function WriteAt(region: seq<byte>, at: nat, bytes: seq<byte>): seq<byte>
    requires at + |bytes| <= |region|
  {
    region[..at] + bytes + region[at + |bytes|..]
  }

  lemma WriteKeeps(region: seq<byte>, at: nat, bytes: seq<byte>, start: nat)
    requires start <= at && at + |bytes| <= |region|
    ensures var region' := WriteAt(region, at, bytes);
      && |region'| == |region|
      && region'[..at] == region[..at]
      && region'[start..at + |bytes|] == region[start..at] + bytes
  {
  }

  lemma GrowthKeeps(region: seq<byte>, unit: nat, start: nat, at: nat)
    requires start <= at <= |region|
    ensures (region + Zeros(unit))[start..at] == region[start..at]
    ensures (region + Zeros(unit))[..at] == region[..at]
  {
  }

  /** Header and payload of the next record: the checksum is taken over the header with a
      zero checksum field, continued over the payload, and then put in place. */
  method Build(now: nat, kind: nat, sequence: nat, payload: seq<byte>, crc: Crc) returns (bytes: seq<byte>)
    requires crc.Valid()
    modifies crc`initialized, crc.table
    ensures crc.Valid()
    ensures bytes == RecordBytes(Record(now, kind, sequence, payload))
  {
    hide RecordBytes, Checksum, Register, CrcBytes, Encode;
    var prefix := Encode(now, 8) + Encode(kind, 4) + Encode(|payload|, 4) + Encode(sequence, 8);
    var c := crc.Update(ALL_ONES, prefix + ZEROS4 + ZEROS4);
    if |payload| > 0 {
      c := crc.Update(c, payload);
    }
    bytes := prefix + CrcBytes(c ^ ALL_ONES) + ZEROS4 + payload;
    Assembled(Record(now, kind, sequence, payload), prefix, c, bytes);
  }

  /** The size of the mapped file after opening. */
  function OpenSize(file: nat, unit: nat): nat {
    if file < unit then unit else file
  }

  class JournalFile {
    const unit: nat
    const openedAt: nat
    var region: seq<byte>
    var offset: nat
    var sequence: nat
    var bytesWritten: nat
    ghost const file: seq<byte>
    ghost var records: seq<Record>

    ghost predicate Valid()
      reads this
    {
      && openedAt == OpenSize(|file|, unit) <= offset <= |region|
      && region[..openedAt] == file + Zeros(openedAt - |file|)
      && region[openedAt..offset] == LogBytes(records)
      && bytesWritten == offset - openedAt
      && sequence == |records| % Pow256(8)
      && AllFit(records)
      && (forall i :: 0 <= i < |records| ==> records[i].sequence == i % Pow256(8))
    }

    /** Opening maps the file, grown to at least one unit, and writes from its end. */
    constructor (file: seq<byte>, unit: nat)
      ensures Valid() && records == [] && this.unit == unit && this.file == file
      ensures offset == openedAt == |region| == if |file| < unit then unit else |file|
      ensures file <= region
    {
      this.unit, this.file := unit, file;
      var bytes := if |file| < unit then file + Zeros(unit - |file|) else file;
      region, offset, openedAt := bytes, |bytes|, |bytes|;
      sequence, bytesWritten, records := 0, 0, [];
    }

    /** Append a record stamped `now`. The record must not outgrow one extension, which
        is as far as the append path makes room. */
    method Append(now: nat, kind: nat, payload: seq<byte>, crc: Crc) returns (ghost r: Record)
      requires Valid() && crc.Valid()
      requires now < Pow256(8) && kind in KINDS && |payload| < Pow256(4)
      requires offset + HEADER + |payload| <= |region| + unit
      modifies this, crc`initialized, crc.table
      ensures Valid() && crc.Valid()
      ensures r == Record(now, kind, old(|records|) % Pow256(8), payload)
      ensures records == old(records) + [r]
      ensures offset == old(offset) + HEADER + |payload| && bytesWritten == old(bytesWritten) + HEADER + |payload|
      ensures |region| == Extended(old(|region|), old(offset), HEADER + |payload|, unit)
      ensures region[..old(offset)] == old(region)[..old(offset)]
    {
      hide RecordBytes, LogBytes, WriteAt, Pow256, OpenSize, Zeros;
      r := Record(now, kind, sequence, payload);
      var bytes := Build(now, kind, sequence, payload, crc);
      sequence := (sequence + 1) % Pow256(8);
      if offset + |bytes| > |region| {
        GrowthKeeps(region, unit, openedAt, offset);
        region := region + Zeros(unit);
      }
      WriteKeeps(region, offset, bytes, openedAt);
      region := WriteAt(region, offset, bytes);
      offset := offset + |bytes|;
      bytesWritten := bytesWritten + |bytes|;
      records := records + [r];
      LogBytesAppend(old(records), r);
      ModNext(|old(records)|, Pow256(8));
    }

    /** Reading back from where this session began gives exactly what it appended. */
    lemma Replays()
      requires Valid()
      ensures ReadAll(region[openedAt..offset]) == records
    {
      WholeLog(records);
    }

    /** The recovery that the documentation names, a replay from the beginning of the file:
        once something has been appended to a file that holds a log, it gives that log and
        everything appended exactly when the file was at least one unit long at open. */
    lemma ReplayFromStartIff(before: seq<Record>)
      requires Valid() && AllFit(before) && file == LogBytes(before) && records != []
      ensures ReadAll(region[..offset]) == before + records <==> |file| >= unit
    {
      hide LogBytes, ReadAll;
      assert region[..offset] == region[..openedAt] + region[openedAt..offset];
      PaddedReplayIff(before, records, openedAt - |file|);
    }
  }

  /** The bytes put together by the append path are the record's bytes. */
  lemma Assembled(r: Record, prefix: seq<byte>, c: bv32, bytes: seq<byte>)
    requires prefix == Prefix(r)
    requires c == (if |r.payload| > 0 then Register(Register(ALL_ONES, prefix + ZEROS4 + ZEROS4), r.payload)
                   else Register(ALL_ONES, prefix + ZEROS4 + ZEROS4))
    requires bytes == prefix + CrcBytes(c ^ ALL_ONES) + ZEROS4 + r.payload
    ensures bytes == RecordBytes(r)
  {
    hide Register, CrcBytes, Prefix;
    RegisterConcat(ALL_ONES, prefix + ZEROS4 + ZEROS4, r.payload);
    if |r.payload| == 0 {
      assert prefix + ZEROS4 + ZEROS4 + r.payload == prefix + ZEROS4 + ZEROS4;
    }
  }

  // ----- replay from the beginning -----

  /** A log that is a prefix of itself behind some zeros is all zeros. */
  lemma {:induction false} ShiftedIsZero(log: seq<byte>, pad: nat, i: nat)
    requires pad > 0 && log <= Zeros(pad) + log && i < |log|
    ensures log[i] == 0
  {
    assert log[i] == (Zeros(pad) + log)[i];
    if i >= pad {
      ShiftedIsZero(log, pad, i - pad);
    }
  }

  lemma KindIsNotZero(r: Record, rest: seq<byte>)
    requires r.Fits()
    ensures (RecordBytes(r) + rest)[8..12] != ZEROS4
  {
    hide RecordBytes, Encode, Decode;
    Layout(r, rest);
    assert r.kind < 256 <= Pow256(4);
    NumberRoundTrip(r.kind, 4);
    ZeroDecodes();
  }

  lemma ZeroDecodes()
    ensures Decode(ZEROS4) == 0
  {
    assert ZEROS4[1..] == [0, 0, 0] && [0 as byte, 0, 0][1..] == [0, 0];
    assert [0 as byte, 0][1..] == [0] && [0 as byte][1..] == [];
  }

  /** Behind any padding a replay does not give the log. */
  lemma PaddingHidesLog(rs: seq<Record>, pad: nat)
    requires AllFit(rs) && rs != [] && pad > 0
    ensures ReadAll(Zeros(pad) + LogBytes(rs)) != rs
  {
    hide ReadRecord, RecordBytes;
    var log := LogBytes(rs);
    if ReadAll(Zeros(pad) + log) == rs {
      ReplayIsPrefix(Zeros(pad) + log);
      KindIsNotZero(rs[0], LogBytes(rs[1..]));
      ShiftedKind(log, pad);
    }
  }

  lemma ShiftedKind(log: seq<byte>, pad: nat)
    requires pad > 0 && log <= Zeros(pad) + log && |log| >= 12
    ensures log[8..12] == ZEROS4
  {
    forall i | 8 <= i < 12 ensures log[i] == 0 {
      ShiftedIsZero(log, pad, i);
    }
  }

  /** Records start at the size the file had when it was opened. What grew the file to that
      size is zeros, and a replay of the whole file succeeds exactly without them. */
  lemma PaddedReplayIff(before: seq<Record>, rs: seq<Record>, pad: nat)
    requires AllFit(before) && AllFit(rs) && rs != []
    ensures ReadAll(LogBytes(before) + Zeros(pad) + LogBytes(rs)) == before + rs <==> pad == 0
  {
    hide ReadAll, LogBytes, Zeros, AllFit;
    var tail := Zeros(pad) + LogBytes(rs);
    assert LogBytes(before) + Zeros(pad) + LogBytes(rs) == LogBytes(before) + tail;
    LogRoundTrip(before, tail);
    assert (before + ReadAll(tail))[|before|..] == ReadAll(tail) && (before + rs)[|before|..] == rs;
    if pad == 0 {
      assert tail == LogBytes(rs);
      WholeLog(rs);
    } else {
      PaddingHidesLog(rs, pad);
    }
  }

  /** With a padding that reaches into the kind field, as every new journal has, a replay
      gives what the file held before and nothing of what was appended. */
  lemma PaddedReplayStops(before: seq<Record>, pad: nat, log: seq<byte>)
    requires AllFit(before) && pad >= 12
    ensures ReadAll(LogBytes(before) + Zeros(pad) + log) == before
  {
    hide LogBytes, RecordCrc, CrcBytes, Decode;
    var tail := Zeros(pad) + log;
    assert LogBytes(before) + Zeros(pad) + log == LogBytes(before) + tail;
    LogRoundTrip(before, tail);
    assert tail[8..12] == ZEROS4;
    ZeroDecodes();
  }
}
