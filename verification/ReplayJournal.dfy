/** The append-only journal of consumed replay nonces, down to its bytes. */
module ReplayJournal {
  import opened Prelude

  const DIGEST_BYTES: nat := 32
  const RECORD_BYTES: nat := 40
  const MAX_RECORDS: nat := 1_000_000
  const MAGIC: Bytes := [0x44, 0x57, 0x4e, 0x52]

  /** The checksum of the magic and a digest, as four bytes. */
  type Checksum = Bytes -> Bytes

  ghost predicate FourBytes(crc: Checksum)
  {
    forall d :: |crc(d)| == 4
  }

  function Record(crc: Checksum, digest: Bytes): Bytes
  {
    MAGIC + digest + crc(digest)
  }

  function RecordAt(data: Bytes, i: nat): (r: Bytes)
    requires (i + 1) * RECORD_BYTES <= |data|
    ensures |r| == RECORD_BYTES
  {
    data[i * RECORD_BYTES..(i + 1) * RECORD_BYTES]
  }

  function DigestOf(record: Bytes): Bytes
    requires |record| == RECORD_BYTES
  {
    record[4..36]
  }

  predicate Intact(crc: Checksum, record: Bytes)
    requires |record| == RECORD_BYTES
  {
    record[..4] == MAGIC && record[36..] == crc(DigestOf(record))
  }

  datatype Scan = Clean | Found | Corrupt

  /** What reading the records from index i on comes to. */
  function ScanFrom(crc: Checksum, data: Bytes, digest: Bytes, i: nat): Scan
    requires |data| % RECORD_BYTES == 0 && i * RECORD_BYTES <= |data|
    decreases |data| - i * RECORD_BYTES
  {
    if i * RECORD_BYTES == |data| then Clean
    else if !Intact(crc, RecordAt(data, i)) then Corrupt
    else if DigestOf(RecordAt(data, i)) == digest then Found
    else ScanFrom(crc, data, digest, i + 1)
  }

  /** Accepted, refused as already used, or an exception. */
  datatype Reply = Accepted | Used | Failed

  /** How the append goes: how many of its bytes reach the file, and whether the sync returns. */
  datatype Append = Append(written: nat, synced: bool)

  /** Why a consume stops before it writes; None when it goes on to append. */
  function Stops(crc: Checksum, data: Bytes, digest: Bytes): Option<Reply>
  {
    if |digest| != DIGEST_BYTES || |data| % RECORD_BYTES != 0 || |data| / RECORD_BYTES > MAX_RECORDS then Some(Failed)
    else match ScanFrom(crc, data, digest, 0)
      case Corrupt => Some(Failed)
      case Found => Some(Used)
      case Clean => if |data| / RECORD_BYTES >= MAX_RECORDS then Some(Failed) else None
  }

  function Taken(record: Bytes, append: Append): Bytes
  {
    record[..if append.written < |record| then append.written else |record|]
  }

  function Consumed(crc: Checksum, data: Bytes, digest: Bytes, append: Append): (Bytes, Reply)
  {
    var stop := Stops(crc, data, digest);
    if stop.Some? then (data, stop.value)
    else
      var record := Record(crc, digest);
      (data + Taken(record, append), if append.written >= |record| && append.synced then Accepted else Failed)
  }

  class Journal {
    var data: Bytes

    constructor (data: Bytes)
      ensures this.data == data
    {
      this.data := data;
    }

    /** One consume under the file lock; a crash or an I/O failure stops the append part way. */
    method Consume(crc: Checksum, digest: Bytes, append: Append) returns (r: Reply)
      modifies this
      ensures (data, r) == Consumed(crc, old(data), digest, append)
    {
      if |digest| != DIGEST_BYTES { return Failed; }
      var size := |data|;
      if size % RECORD_BYTES != 0 || size / RECORD_BYTES > MAX_RECORDS { return Failed; }
      var count := size / RECORD_BYTES;
      for index := 0 to count
        invariant data == old(data)
        invariant ScanFrom(crc, data, digest, 0) == ScanFrom(crc, data, digest, index)
      {
        var record := RecordAt(data, index);
        if !Intact(crc, record) { return Failed; }
        if DigestOf(record) == digest { return Used; }
      }
      if count >= MAX_RECORDS { return Failed; }
      var record := Record(crc, digest);
      data := data + Taken(record, append);
      return if append.written >= |record| && append.synced then Accepted else Failed;
    }
  }

  // --------------------------------------------------------------------- runs

  function Encoded(crc: Checksum, digests: seq<Bytes>): Bytes
  {
    if digests == [] then [] else Encoded(crc, digests[..|digests| - 1]) + Record(crc, digests[|digests| - 1])
  }

  ghost predicate Sized(digests: seq<Bytes>)
  {
    forall i | 0 <= i < |digests| :: |digests[i]| == DIGEST_BYTES
  }

  lemma {:induction false} EncodedLength(crc: Checksum, digests: seq<Bytes>)
    requires FourBytes(crc) && Sized(digests)
    ensures |Encoded(crc, digests)| == |digests| * RECORD_BYTES
  {
    if digests != [] { EncodedLength(crc, digests[..|digests| - 1]); }
  }

  lemma {:induction false} EncodedAt(crc: Checksum, digests: seq<Bytes>, i: nat)
    requires FourBytes(crc) && Sized(digests) && i < |digests|
    ensures |Encoded(crc, digests)| == |digests| * RECORD_BYTES
    ensures RecordAt(Encoded(crc, digests), i) == Record(crc, digests[i])
  {
    var n := |digests| - 1;
    var fewer := digests[..n];
    EncodedLength(crc, digests);
    EncodedLength(crc, fewer);
    if i < n {
      EncodedAt(crc, fewer, i);
      assert RecordAt(Encoded(crc, digests), i) == RecordAt(Encoded(crc, fewer), i);
    }
  }

  lemma RecordReads(crc: Checksum, digest: Bytes)
    requires FourBytes(crc) && |digest| == DIGEST_BYTES
    ensures |Record(crc, digest)| == RECORD_BYTES && Intact(crc, Record(crc, digest))
    ensures DigestOf(Record(crc, digest)) == digest
    ensures Record(crc, digest)[..4] == MAGIC && Record(crc, digest)[4..36] == digest
    ensures Record(crc, digest)[36..] == crc(digest)
  {
    var r := Record(crc, digest);
    assert r[4..36] == digest && r[36..] == crc(digest) && r[..4] == MAGIC;
  }

  /** Scanning whole records finds a digest exactly when it is among them. */
  lemma {:induction false} ScanEncoded(crc: Checksum, digests: seq<Bytes>, digest: Bytes, i: nat)
    requires FourBytes(crc) && Sized(digests) && i <= |digests| && |Encoded(crc, digests)| == |digests| * RECORD_BYTES
    ensures ScanFrom(crc, Encoded(crc, digests), digest, i) == if digest in digests[i..] then Found else Clean
    decreases |digests| - i
  {
    hide Encoded, Record, Intact, RecordAt, FourBytes;
    if i < |digests| {
      EncodedAt(crc, digests, i);
      RecordReads(crc, digests[i]);
      ScanEncoded(crc, digests, digest, i + 1);
      assert digests[i..] == [digests[i]] + digests[i + 1..];
    }
  }

  /**
   * The journal as it reads, how much of it has been synced, and, as history, every digest that
   * was accepted, in order.
   */
  datatype World = World(data: Bytes, synced: nat, accepted: seq<Bytes>)

  /** A consume, or a crash that keeps the synced part and any amount of what came after it. */
  datatype Step = Consume(digest: Bytes, append: Append) | Crash(keep: nat)

  const EMPTY: World := World([], 0, [])

  function Next(crc: Checksum, w: World, s: Step): World
  {
    match s
    case Consume(digest, append) =>
      var (data, reply) := Consumed(crc, w.data, digest, append);
      if reply.Accepted? then World(data, |data|, w.accepted + [digest]) else w.(data := data)
    case Crash(keep) => if w.synced <= keep <= |w.data| then w.(data := w.data[..keep]) else w
  }

  function Run(crc: Checksum, w: World, steps: seq<Step>): World
    decreases |steps|
  {
    if steps == [] then w else Run(crc, Next(crc, w, steps[0]), steps[1..])
  }

  ghost predicate Distinct(digests: seq<Bytes>)
  {
    forall i, j | 0 <= i < j < |digests| :: digests[i] != digests[j]
  }

  /** Whole records of different digests, then perhaps a torn one; every accepted digest is in a synced record. */
  ghost predicate Inv(crc: Checksum, w: World, digests: seq<Bytes>, tail: Bytes)
  {
    && w.data == Encoded(crc, digests) + tail && |tail| < RECORD_BYTES
    && Sized(digests) && Distinct(digests) && |digests| <= MAX_RECORDS
    && w.synced % RECORD_BYTES == 0 && w.synced / RECORD_BYTES <= |digests|
    && Distinct(w.accepted) && |w.accepted| <= w.synced / RECORD_BYTES
    && forall i | 0 <= i < |w.accepted| :: w.accepted[i] in digests[..w.synced / RECORD_BYTES]
  }

  lemma TornFails(crc: Checksum, w: World, digests: seq<Bytes>, tail: Bytes, digest: Bytes, append: Append)
    requires FourBytes(crc) && Inv(crc, w, digests, tail) && tail != []
    ensures Consumed(crc, w.data, digest, append) == (w.data, Failed)
  {
    hide Encoded, FourBytes;
    EncodedLength(crc, digests);
    assert |w.data| % RECORD_BYTES == |tail|;
  }

  lemma WholeStops(crc: Checksum, digests: seq<Bytes>, digest: Bytes)
    requires FourBytes(crc) && Sized(digests) && |digests| <= MAX_RECORDS
    ensures Stops(crc, Encoded(crc, digests), digest) ==
            if |digest| != DIGEST_BYTES then Some(Failed)
            else if digest in digests then Some(Used)
            else if |digests| >= MAX_RECORDS then Some(Failed) else None
  {
    hide Encoded, FourBytes, ScanFrom;
    EncodedLength(crc, digests);
    assert |Encoded(crc, digests)| / RECORD_BYTES == |digests| && |Encoded(crc, digests)| % RECORD_BYTES == 0;
    ScanEncoded(crc, digests, digest, 0);
    assert digests[0..] == digests;
  }

  /** There is room for this digest and it is not in the journal yet. */
  predicate Unused(digests: seq<Bytes>, digest: Bytes)
  {
    |digest| == DIGEST_BYTES && digest !in digests && |digests| < MAX_RECORDS
  }

  /**
   * Every answer of a consume over whole records: used exactly when the digest is among them,
   * accepted exactly when it is not, there is room and its record is written and synced; and what
   * it leaves in the file.
   */
  lemma ConsumeExactly(crc: Checksum, digests: seq<Bytes>, digest: Bytes, append: Append)
    requires FourBytes(crc) && Sized(digests) && |digests| <= MAX_RECORDS
    ensures var reply := Consumed(crc, Encoded(crc, digests), digest, append).1;
            && (reply.Used? <==> |digest| == DIGEST_BYTES && digest in digests)
            && (reply.Accepted? <==> Unused(digests, digest) && append.written >= RECORD_BYTES && append.synced)
    ensures Consumed(crc, Encoded(crc, digests), digest, append).0
            == if !Unused(digests, digest) then Encoded(crc, digests)
               else if append.written >= RECORD_BYTES then Encoded(crc, digests + [digest])
               else Encoded(crc, digests) + Record(crc, digest)[..append.written]
  {
    hide Encoded, FourBytes, Stops, Record, Taken;
    WholeStops(crc, digests, digest);
    if Unused(digests, digest) {
      RecordReads(crc, digest);
      TakenIs(Record(crc, digest), append);
      EncodedMore(crc, digests, digest);
    }
  }

  lemma TakenIs(record: Bytes, append: Append)
    ensures Taken(record, append) == if append.written >= |record| then record else record[..append.written]
  {
    assert record[..|record|] == record;
  }

  lemma EncodedMore(crc: Checksum, digests: seq<Bytes>, digest: Bytes)
    ensures Encoded(crc, digests + [digest]) == Encoded(crc, digests) + Record(crc, digest)
  {
    assert (digests + [digest])[..|digests|] == digests;
  }

  /** One consume keeps the journal in shape, with one more record, a torn one, or as it was. */
  lemma ConsumeKeeps(crc: Checksum, w: World, digest: Bytes, append: Append, digests: seq<Bytes>, tail: Bytes)
    returns (d: seq<Bytes>, t: Bytes)
    requires FourBytes(crc) && Inv(crc, w, digests, tail)
    ensures Inv(crc, Next(crc, w, Consume(digest, append)), d, t)
    ensures tail != [] ==> d == digests && t == tail
  {
    hide Encoded, FourBytes, Stops;
    d, t := digests, tail;
    if tail != [] {
      TornFails(crc, w, digests, tail, digest, append);
      return;
    }
    assert w.data == Encoded(crc, digests);
    WholeStops(crc, digests, digest);
    if Stops(crc, w.data, digest).Some? { return; }
    RecordReads(crc, digest);
    var record := Record(crc, digest);
    var taken := Taken(record, append);
    if |taken| < RECORD_BYTES { return digests, taken; }
    assert taken == record;
    d, t := digests + [digest], [];
    AppendRecord(crc, digests, digest);
    EncodedLength(crc, digests);
    assert w.data + record == Encoded(crc, d) + [];
    SyncedStays(w, digests, d);
  }

  /** What was in the synced records still is; a sync covers the whole journal. */
  lemma SyncedStays(w: World, digests: seq<Bytes>, d: seq<Bytes>)
    requires |d| == |digests| + 1 && d[..|digests|] == digests && w.synced / RECORD_BYTES <= |digests|
    requires forall i | 0 <= i < |w.accepted| :: w.accepted[i] in digests[..w.synced / RECORD_BYTES]
    ensures forall i | 0 <= i < |w.accepted| ::
              w.accepted[i] in d[..w.synced / RECORD_BYTES] && w.accepted[i] in d[..|d|]
    ensures d[|digests|] in d[..|d|]
  {
    var m := w.synced / RECORD_BYTES;
    assert d[..m] == digests[..m];
    forall i | 0 <= i < |w.accepted| ensures w.accepted[i] in d[..|d|] {
      var k :| 0 <= k < m && digests[k] == w.accepted[i];
      assert d[k] == digests[k];
    }
  }

  lemma AppendRecord(crc: Checksum, digests: seq<Bytes>, digest: Bytes)
    ensures Encoded(crc, digests + [digest]) == Encoded(crc, digests) + Record(crc, digest)
  {
    assert (digests + [digest])[..|digests|] == digests;
  }

  /** The first records of an encoded journal are the encoding of its first digests. */
  lemma {:induction false} EncodedPrefix(crc: Checksum, digests: seq<Bytes>, n: nat)
    requires FourBytes(crc) && Sized(digests) && n <= |digests|
    ensures |Encoded(crc, digests)| == |digests| * RECORD_BYTES
    ensures Encoded(crc, digests)[..n * RECORD_BYTES] == Encoded(crc, digests[..n])
  {
    EncodedLength(crc, digests);
    EncodedLength(crc, digests[..n]);
    if n == |digests| {
      assert digests[..n] == digests;
    } else {
      var fewer := digests[..|digests| - 1];
      EncodedPrefix(crc, fewer, n);
      assert fewer[..n] == digests[..n];
      assert Encoded(crc, digests)[..n * RECORD_BYTES] == Encoded(crc, fewer)[..n * RECORD_BYTES];
    }
  }

  /** A crash that keeps the synced part leaves whole records and perhaps a torn one, with every accepted digest. */
  lemma CrashKeeps(crc: Checksum, w: World, keep: nat, digests: seq<Bytes>, tail: Bytes)
    returns (d: seq<Bytes>, t: Bytes)
    requires FourBytes(crc) && Inv(crc, w, digests, tail)
    ensures Inv(crc, Next(crc, w, Crash(keep)), d, t)
  {
    hide Encoded, FourBytes;
    d, t := digests, tail;
    EncodedLength(crc, digests);
    if w.synced <= keep <= |w.data| {
      var whole := |digests| * RECORD_BYTES;
      if keep >= whole {
        t := tail[..keep - whole];
        assert w.data[..keep] == Encoded(crc, digests) + t;
      } else {
        var n := keep / RECORD_BYTES;
        d := digests[..n];
        EncodedPrefix(crc, digests, n);
        t := w.data[n * RECORD_BYTES..keep];
        assert w.data[..keep] == w.data[..n * RECORD_BYTES] + t;
        assert w.data[..n * RECORD_BYTES] == Encoded(crc, digests)[..n * RECORD_BYTES];
        assert d[..w.synced / RECORD_BYTES] == digests[..w.synced / RECORD_BYTES];
      }
    }
  }

  lemma {:induction false} RunKeeps(crc: Checksum, w: World, steps: seq<Step>, digests: seq<Bytes>, tail: Bytes)
    returns (d: seq<Bytes>, t: Bytes)
    requires FourBytes(crc) && Inv(crc, w, digests, tail)
    ensures Inv(crc, Run(crc, w, steps), d, t)
    ensures tail != [] && (forall i | 0 <= i < |steps| :: steps[i].Consume?) ==> d == digests && t == tail
    decreases |steps|
  {
    hide Inv, Next, FourBytes;
    d, t := digests, tail;
    if steps != [] {
      if steps[0].Consume? { d, t := ConsumeKeeps(crc, w, steps[0].digest, steps[0].append, d, t); }
      else { d, t := CrashKeeps(crc, w, steps[0].keep, d, t); }
      d, t := RunKeeps(crc, Next(crc, w, steps[0]), steps[1..], d, t);
    }
  }

  /**
   * Over every run from an empty journal, with appends that get any distance, syncs that fail,
   * and crashes that lose any part of what was never synced, however long ago it was written: no
   * digest is accepted twice, and at most a million ever are.
   */
  lemma NeverAcceptedTwice(crc: Checksum, steps: seq<Step>)
    requires FourBytes(crc)
    ensures var w := Run(crc, EMPTY, steps); Distinct(w.accepted) && |w.accepted| <= MAX_RECORDS
  {
    hide Run;
    var d, t := RunKeeps(crc, EMPTY, steps, [], []);
  }

  /** Once a torn record ends the journal, every later consume fails and changes nothing. */
  lemma TornStaysClosed(crc: Checksum, steps: seq<Step>, more: seq<Step>, digest: Bytes, append: Append)
    requires FourBytes(crc) && |Run(crc, EMPTY, steps).data| % RECORD_BYTES != 0
    requires forall i | 0 <= i < |more| :: more[i].Consume?
    ensures var w := Run(crc, Run(crc, EMPTY, steps), more);
            Consumed(crc, w.data, digest, append) == (w.data, Failed) && w.data == Run(crc, EMPTY, steps).data
  {
    hide Run, FourBytes, Encoded, Consumed;
    var w := Run(crc, EMPTY, steps);
    assert Encoded(crc, []) + [] == [] by { NothingEncoded(crc); }
    var d, t := RunKeeps(crc, EMPTY, steps, [], []);
    EncodedLength(crc, d);
    assert t != [];
    var d', t' := RunKeeps(crc, w, more, d, t);
    TornFails(crc, Run(crc, w, more), d', t', digest, append);
  }

  lemma NothingEncoded(crc: Checksum)
    ensures Encoded(crc, []) == []
  {
  }
}
