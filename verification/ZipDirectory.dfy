/** The ZIP structure check `preflight` of android-platform-tools-extract.py: the search for
    the end record and the walk over the central directory (PKWARE APPNOTE.TXT, sections
    4.3.16 and 4.3.12). */
module ZipDirectory {
  import opened Octets
  import opened Outcomes

  const END_SIGNATURE: Bytes := [0x50, 0x4B, 5, 6]
  const ENTRY_SIGNATURE: Bytes := [0x50, 0x4B, 1, 2]
  const TAIL_BYTES := 65557
  const MAX_CENTRAL_BYTES := 16 * 1024 * 1024

  function U16(b: Bytes, at: nat): nat
    requires at + 2 <= |b|
  {
    var low: int, high: int := b[at], b[at + 1];
    low + 256 * high
  }

  function U32(b: Bytes, at: nat): nat
    requires at + 4 <= |b|
  {
    U16(b, at) + 65536 * U16(b, at + 2)
  }

  predicate SignatureAt(b: Bytes, signature: Bytes, at: int) {
    0 <= at && at + |signature| <= |b| && b[at..at + |signature|] == signature
  }

  // ------------------------------------------------------------- the end record

  /** An end record whose comment reaches exactly to the end. */
  predicate EndRecordAt(tail: Bytes, p: int) {
    SignatureAt(tail, END_SIGNATURE, p) && p + 22 <= |tail| && p + 22 + U16(tail, p + 20) == |tail|
  }

  /** bytes.rfind(END_SIGNATURE, 0, limit). */
  method FindBackwards(tail: Bytes, limit: nat) returns (p: int)
    requires limit <= |tail|
    ensures p < 0 ==> forall q :: q + 4 <= limit ==> !SignatureAt(tail, END_SIGNATURE, q)
    ensures p >= 0 ==> p + 4 <= limit && SignatureAt(tail, END_SIGNATURE, p)
    ensures p >= 0 ==> forall q :: p < q && q + 4 <= limit ==> !SignatureAt(tail, END_SIGNATURE, q)
  {
    p := limit - 4;
    while p >= 0
      invariant p + 4 <= limit
      invariant forall q :: p < q && q + 4 <= limit ==> !SignatureAt(tail, END_SIGNATURE, q)
    {
      if SignatureAt(tail, END_SIGNATURE, p) {
        return;
      }
      p := p - 1;
    }
    p := -1;
  }

  /** Two occurrences of the signature do not overlap. */
  lemma SignaturesApart(tail: Bytes, p: int, q: int)
    requires SignatureAt(tail, END_SIGNATURE, p) && SignatureAt(tail, END_SIGNATURE, q) && p < q
    ensures p + 4 <= q
  {
    SignatureBytes(tail, p);
    SignatureBytes(tail, q);
  }

  lemma SignatureBytes(tail: Bytes, p: int)
    requires SignatureAt(tail, END_SIGNATURE, p)
    ensures tail[p] == 0x50 && tail[p + 1] == 0x4B && tail[p + 2] == 5 && tail[p + 3] == 6
  {
    var four := tail[p..p + 4];
    assert four[0] == tail[p] && four[1] == tail[p + 1] && four[2] == tail[p + 2] && four[3] == tail[p + 3];
  }

  /** The search loop finds the last end record that reaches the end, if there is one. */
  method FindEndRecord(tail: Bytes) returns (p: int)
    ensures p < 0 ==> forall q :: !EndRecordAt(tail, q)
    ensures p >= 0 ==> EndRecordAt(tail, p) && forall q :: q > p ==> !EndRecordAt(tail, q)
  {
    p := |tail|;
    while true
      invariant 0 <= p <= |tail|
      invariant forall q :: q + 4 > p ==> !EndRecordAt(tail, q)
      decreases p
    {
      ghost var limit := p;
      p := FindBackwards(tail, p);
      if p < 0 {
        return;
      }
      if EndRecordAt(tail, p) {
        return;
      }
      forall q | q + 4 > p ensures !EndRecordAt(tail, q) {
        if EndRecordAt(tail, q) && q < p {
          SignaturesApart(tail, q, p);
        }
      }
    }
  }

  // ------------------------------------------------------- the central directory

  datatype EndRecord = EndRecord(disk: nat, directoryDisk: nat, diskEntries: nat, count: nat, length: nat, start: nat)

  function ReadEndRecord(tail: Bytes, p: nat): EndRecord
    requires p + 22 <= |tail|
  {
    EndRecord(U16(tail, p + 4), U16(tail, p + 6), U16(tail, p + 8), U16(tail, p + 10), U32(tail, p + 12),
        U32(tail, p + 16))
  }

  /** A single-disk directory within the limits that ends where the record starts. */
  predicate Supported(r: EndRecord, position: nat, maxMembers: int) {
    && r.disk == 0 && r.directoryDisk == 0 && r.diskEntries == r.count
    && 0 < r.count <= maxMembers && r.count != 0xFFFF && r.start != 0xFFFF_FFFF && r.length != 0xFFFF_FFFF
    && r.length <= MAX_CENTRAL_BYTES && r.start + r.length == position
  }

  /** The size of the entry whose 46-byte header starts here: its name, extra field and comment follow. */
  function EntrySize(b: Bytes, at: nat): (n: nat)
    requires at + 46 <= |b|
    ensures n >= 46
  {
    46 + U16(b, at + 28) + U16(b, at + 30) + U16(b, at + 32)
  }

  /** The bytes from one position to another are exactly n consecutive directory entries. */
  predicate Entries(b: Bytes, from: nat, to: nat, n: int)
    decreases n
  {
    if n <= 0 then n == 0 && from == to
    else
      && SignatureAt(b, ENTRY_SIGNATURE, from) && from + 46 <= |b|
      && from + EntrySize(b, from) <= to
      && Entries(b, from + EntrySize(b, from), to, n - 1)
  }

  lemma {:induction false} EntriesNeedRoom(b: Bytes, from: nat, to: nat, n: int)
    requires Entries(b, from, to, n)
    ensures n >= 0 && from + 46 * n <= to
    decreases n
  {
    if n > 0 {
      EntriesNeedRoom(b, from + EntrySize(b, from), to, n - 1);
    }
  }

  /** The directory walk: it counts the entries, or finds that there is no such split. */
  method Walk(b: Bytes, start: nat, end: nat, maxMembers: int) returns (r: Result<nat>)
    requires start <= end <= |b| && maxMembers >= 0
    ensures r.Ok? ==> r.value <= maxMembers && forall n :: Entries(b, start, end, n) <==> n == r.value
    ensures r.Raised? ==> forall n :: n <= maxMembers ==> !Entries(b, start, end, n)
  {
    var position, observed := start, 0;
    while position < end
      invariant start <= position <= end && observed <= maxMembers
      invariant forall n :: Entries(b, start, end, n) <==> n >= observed && Entries(b, position, end, n - observed)
    {
      // read(46) comes back short at the end of the file
      if position + 46 > |b| || !SignatureAt(b, ENTRY_SIGNATURE, position) {
        return Raised("invalid ZIP directory entry");
      }
      observed := observed + 1;
      if observed > maxMembers {
        return Raised("ZIP directory member limit exceeded");
      }
      position := position + EntrySize(b, position);
      if position > end {
        return Raised("invalid ZIP directory boundary");
      }
    }
    return Ok(observed);
  }

  function TailStart(archive: Bytes): nat { if |archive| > TAIL_BYTES then |archive| - TAIL_BYTES else 0 }

  /** What `preflight` accepts: the last end record in the tail that reaches the end of the file
      is supported, and the directory before it is exactly as many entries as it says. */
  ghost predicate Acceptable(archive: Bytes, maxMembers: int) {
    var tail := archive[TailStart(archive)..];
    exists p: nat ::
      && EndRecordAt(tail, p) && (forall q :: q > p ==> !EndRecordAt(tail, q))
      && Supported(ReadEndRecord(tail, p), TailStart(archive) + p, maxMembers)
      && var r := ReadEndRecord(tail, p); Entries(archive, r.start, r.start + r.length, r.count)
  }

  /** `preflight`. */
  method Preflight(archive: Bytes, maxMembers: int) returns (r: Result<EndRecord>)
    ensures r.Ok? <==> Acceptable(archive, maxMembers)
    ensures r.Ok? ==>
              r.value.count <= maxMembers
                  && Entries(archive, r.value.start, r.value.start + r.value.length, r.value.count)
  {
    var tailStart := TailStart(archive);
    var tail := archive[tailStart..];
    var offset := FindEndRecord(tail);
    if offset < 0 {
      return Raised("missing ZIP end record");
    }
    var end := ReadEndRecord(tail, offset);
    if !Supported(end, tailStart + offset, maxMembers) {
      return Raised("unsupported or oversized ZIP directory");
    }
    var observed := Walk(archive, end.start, end.start + end.length, maxMembers);
    if observed.Raised? {
      return Raised(observed.reason);
    }
    if observed.value != end.count {
      return Raised("ZIP directory count mismatch");
    }
    return Ok(end);
  }

  /** There is at most one way to split a directory into entries. */
  lemma {:induction false} SplitIsUnique(b: Bytes, from: nat, to: nat, m: int, n: int)
    requires Entries(b, from, to, m) && Entries(b, from, to, n)
    ensures m == n
    decreases m
  {
    EntriesNeedRoom(b, from, to, m);
    EntriesNeedRoom(b, from, to, n);
    if m > 0 && n > 0 {
      SplitIsUnique(b, from + EntrySize(b, from), to, m - 1, n - 1);
    }
  }
}
