/**
 Profiles as QR codes: the desktop app splits the encrypted text into numbered chunks, the
 phone collects scanned chunks in any order and puts the text together again.

 The phone keeps indices and totals as 32-bit integers.
 */
module QrChunks {
  import opened Wrappers
  import opened Text

  const CHUNK_SIZE: nat := 1000
  const MAX_INT32: int := 0x7fff_ffff
  const MIN_INT32: int := -0x8000_0000

  // ---- splitting

  function Total(data: string): nat {
    (|data| + CHUNK_SIZE - 1) / CHUNK_SIZE
  }

  function Min(a: nat, b: nat): nat {
    if a < b then a else b
  }

  /** The i-th slice; the last one may be shorter. */
  function Slice(data: string, i: nat): (s: string)
    requires i < Total(data)
    ensures |s| <= CHUNK_SIZE
  {
    data[i * CHUNK_SIZE..Min((i + 1) * CHUNK_SIZE, |data|)]
  }

  function Encode(index: nat, total: nat, data: string): string {
    "NF:" + Decimal(index) + "/" + Decimal(total) + ":" + data
  }

  function ChunkAt(data: string, i: nat): string
    requires i < Total(data)
  {
    Encode(i + 1, Total(data), Slice(data, i))
  }

  method SplitIntoChunks(data: string) returns (chunks: seq<string>)
    ensures |chunks| == Total(data)
    ensures forall i :: 0 <= i < |chunks| ==> chunks[i] == ChunkAt(data, i)
  {
    var total := Total(data);
    chunks := [];
    for i := 0 to total
      invariant |chunks| == i
      invariant forall j :: 0 <= j < i ==> chunks[j] == ChunkAt(data, j)
    {
      var slice := data[i * CHUNK_SIZE..Min((i + 1) * CHUNK_SIZE, |data|)];
      chunks := chunks + ["NF:" + Decimal(i + 1) + "/" + Decimal(total) + ":" + slice];
    }
  }

  // ---- parsing

  /** Conversion to a 32-bit integer keeps the low 32 bits. */
  function Int32(n: int): (r: int)
    ensures MIN_INT32 <= r <= MAX_INT32
    ensures MIN_INT32 <= n <= MAX_INT32 ==> r == n
  {
    var m := n % 0x1_0000_0000;
    if m > MAX_INT32 then m - 0x1_0000_0000 else m
  }

  function Unsigned(s: string): string {
    if s != "" && (s[0] == '-' || s[0] == '+') then s[1..] else s
  }

  /** strconv.Atoi: an optional sign and digits, within 64 bits. */
  function Atoi(s: string): Option<int> {
    var digits := Unsigned(s);
    if digits == "" || !AllDigits(digits) then None
    else
      var n: int := DigitsValue(digits);
      var v := if s[0] == '-' then -n else n;
      if -0x8000_0000_0000_0000 <= v <= 0x7fff_ffff_ffff_ffff then Some(v) else None
  }

  datatype Error =
    | NotQr | BadFormat | BadIndex | BadTotal
    | NoChunks | Inconsistent | Incomplete | Missing(index: int)

  datatype Chunk = Chunk(index: int, total: int, data: string)

  datatype Texts = Texts(index: string, total: string, data: string)

  /** The three fields of "index/total:data". */
  function SplitFields(rest: string): Option<Texts> {
    var slash := IndexOf(rest, '/');
    if slash < 0 then None
    else
      var colon := IndexOf(rest[slash..], ':');
      if colon < 0 then None
      else Some(Texts(rest[..slash], rest[slash + 1..slash + colon], rest[slash + colon + 1..]))
  }

  function ParseNumbers(t: Texts): Result<Chunk, Error> {
    if Atoi(t.index).None? then Failure(BadIndex)
    else if Atoi(t.total).None? then Failure(BadTotal)
    else Success(Chunk(Int32(Atoi(t.index).value), Int32(Atoi(t.total).value), t.data))
  }

  /** "NF:index/total:data" */
  function ParseQRChunk(chunk: string): Result<Chunk, Error> {
    if !HasPrefix(chunk, "NF:") then Failure(NotQr)
    else
      var t := SplitFields(chunk[3..]);
      if t.None? then Failure(BadFormat) else ParseNumbers(t.value)
  }

  lemma AtoiDecimal(n: nat)
    ensures Atoi(Decimal(n)) == if n <= 0x7fff_ffff_ffff_ffff then Some(n) else None
  {
    DecimalValue(n);
    assert '0' <= Decimal(n)[0] <= '9';
  }

  /** Parsing an encoded chunk gives its parts back, numbers cut to 32 bits. */
  lemma ParseEncoded(index: nat, total: nat, data: string)
    ensures ParseQRChunk(Encode(index, total, data)) ==
            if index > 0x7fff_ffff_ffff_ffff then Failure(BadIndex)
            else if total > 0x7fff_ffff_ffff_ffff then Failure(BadTotal)
            else Success(Chunk(Int32(index), Int32(total), data))
  {
    EncodedFields(Decimal(index), Decimal(total), data);
    AtoiDecimal(index);
    AtoiDecimal(total);
  }

  lemma EncodedFields(i: string, t: string, data: string)
    requires '/' !in i && ':' !in t
    ensures var chunk := "NF:" + i + "/" + t + ":" + data;
            HasPrefix(chunk, "NF:") && SplitFields(chunk[3..]) == Some(Texts(i, t, data))
  {
    EncodedText(i, t, data);
    FieldsBack(i, t, data);
  }

  lemma EncodedText(i: string, t: string, data: string)
    ensures var chunk := "NF:" + i + "/" + t + ":" + data;
            HasPrefix(chunk, "NF:") && chunk[3..] == i + ['/'] + (t + [':'] + data)
  {
    assert "NF:" + i + "/" + t + ":" + data == "NF:" + (i + ['/'] + (t + [':'] + data));
  }

  lemma FieldsBack(i: string, t: string, data: string)
    requires '/' !in i && ':' !in t
    ensures SplitFields(i + ['/'] + (t + [':'] + data)) == Some(Texts(i, t, data))
  {
    Separators(i, t, data);
  }

  /** The two separators are found where they were put. */
  lemma Separators(i: string, t: string, data: string)
    requires '/' !in i && ':' !in t
    ensures var rest := i + ['/'] + (t + [':'] + data);
            && IndexOf(rest, '/') == |i| && IndexOf(rest[|i|..], ':') == |t| + 1
            && rest[..|i|] == i && rest[|i| + 1..|i| + |t| + 1] == t && rest[|i| + |t| + 2..] == data
  {
    var rest := i + ['/'] + (t + [':'] + data);
    IndexAfter(i, '/', t + [':'] + data);
    assert rest[|i|..] == (['/'] + t) + [':'] + data;
    IndexAfter(['/'] + t, ':', data);
  }

  // ---- collecting

  datatype Collected = Collected(total: int, parts: map<int, string>)

  /** All chunks parsed in order; the first non-zero total must recur. */
  function Collect(chunks: seq<string>): Result<Collected, Error> {
    if chunks == [] then Success(Collected(0, map[]))
    else
      var before := Collect(chunks[..|chunks| - 1]);
      if before.Failure? then before
      else
        var info := ParseQRChunk(chunks[|chunks| - 1]);
        if info.Failure? then Failure(info.error)
        else if before.value.total != 0 && info.value.total != before.value.total then Failure(Inconsistent)
        else Success(Collected(info.value.total, before.value.parts[info.value.index := info.value.data]))
  }

  predicate HasAll(parts: map<int, string>, n: int) {
    forall i :: 1 <= i <= n ==> i in parts
  }

  /** Parts 1 to n in order. */
  function Assemble(parts: map<int, string>, n: int): string
    requires HasAll(parts, n)
    decreases if n > 0 then n else 0
  {
    if n <= 0 then "" else Assemble(parts, n - 1) + parts[n]
  }

  /** What the import does with scanned chunks, up to decryption. */
  ghost function Import(chunks: seq<string>): Result<string, Error> {
    if chunks == [] then Failure(NoChunks)
    else
      var c := Collect(chunks);
      if c.Failure? then Failure(c.error)
      else if Int32(|c.value.parts|) != c.value.total then Failure(Incomplete)
      else if !HasAll(c.value.parts, c.value.total) then Failure(Missing(FirstMissing(c.value.parts, 1, c.value.total)))
      else if c.value.total == MAX_INT32 then Failure(Missing(MIN_INT32))
      else Success(Assemble(c.value.parts, c.value.total))
  }

  ghost function FirstMissing(parts: map<int, string>, i: int, n: int): (r: int)
    requires exists j :: i <= j <= n && j !in parts
    ensures i <= r <= n && r !in parts && forall j :: i <= j < r ==> j in parts
    decreases n - i
  {
    if i !in parts then i else FirstMissing(parts, i + 1, n)
  }

  // ---- counting integer sets

  function Range(lo: int, hi: int): (s: set<int>)
    ensures forall i :: i in s <==> lo <= i <= hi
    decreases hi - lo + 1
  {
    if lo > hi then {} else Range(lo, hi - 1) + {hi}
  }

  lemma {:induction false} RangeSize(lo: int, hi: int)
    requires lo <= hi + 1
    ensures |Range(lo, hi)| == hi - lo + 1
    decreases hi - lo + 1
  {
    if lo == hi + 1 {
      assert Range(lo, hi) == {};
    } else {
      RangeSize(lo, hi - 1);
      assert Range(lo, hi) == Range(lo, hi - 1) + {hi};
    }
  }

  lemma {:induction false} SubsetSize<T>(a: set<T>, b: set<T>)
    requires a <= b
    ensures |a| <= |b|
    ensures |a| == |b| ==> a == b
  {
    if a != {} {
      var x :| x in a;
      SubsetSize(a - {x}, b - {x});
    }
  }

  lemma {:induction false} CollectedKeys(chunks: seq<string>)
    requires Collect(chunks).Success?
    ensures forall k :: k in Collect(chunks).value.parts ==> MIN_INT32 <= k <= MAX_INT32
    ensures |Collect(chunks).value.parts| <= |chunks|
  {
    if chunks != [] {
      var n := |chunks| - 1;
      CollectedKeys(chunks[..n]);
      var info := ParseQRChunk(chunks[n]).value;
      ParsedIndex(chunks[n]);
      OnePartMore(Collect(chunks[..n]).value.parts, info.index, info.data);
    }
  }

  lemma ParsedIndex(chunk: string)
    requires ParseQRChunk(chunk).Success?
    ensures MIN_INT32 <= ParseQRChunk(chunk).value.index <= MAX_INT32
  {
  }

  lemma OnePartMore(parts: map<int, string>, k: int, data: string)
    ensures |parts[k := data]| <= |parts| + 1
  {
  }

  lemma BoundedSize(s: set<int>, lo: int, hi: int)
    requires lo <= hi + 1 && forall k :: k in s ==> lo <= k <= hi
    ensures |s| <= hi - lo + 1
  {
    RangeSize(lo, hi);
    SubsetSize(s, Range(lo, hi));
  }

  /** With all of 1..n present, n positive, and a count that is n in 32 bits, nothing else is present. */
  lemma ExactlyAll(parts: map<int, string>, n: int)
    requires 1 <= n <= MAX_INT32 && HasAll(parts, n) && Int32(|parts|) == n
    requires forall k :: k in parts ==> MIN_INT32 <= k <= MAX_INT32
    ensures |parts| == n && forall k :: k in parts <==> 1 <= k <= n
  {
    assert |parts| == |parts.Keys|;
    BoundedSize(parts.Keys, MIN_INT32, MAX_INT32);
    RangeSize(1, n);
    SubsetSize(Range(1, n), parts.Keys);
  }

  // ---- the import as the loop it is

  method ImportFromQR(chunks: seq<string>) returns (r: Result<string, Error>)
    ensures r == Import(chunks)
  {
    if |chunks| == 0 {
      return Failure(NoChunks);
    }
    var c := CollectChunks(chunks);
    if c.Failure? {
      return Failure(c.error);
    }
    if Int32(|c.value.parts|) != c.value.total {
      return Failure(Incomplete);
    }
    CollectedKeys(chunks);
    r := AssembleParts(c.value.parts, c.value.total);
  }

  method CollectChunks(chunks: seq<string>) returns (r: Result<Collected, Error>)
    ensures r == Collect(chunks)
  {
    var total, parts := 0, map[];
    for i := 0 to |chunks|
      invariant Collect(chunks[..i]) == Success(Collected(total, parts))
    {
      assert chunks[..i+1][..i] == chunks[..i];
      var info := ParseQRChunk(chunks[i]);
      if info.Failure? {
        CollectFails(chunks, i + 1);
        return Failure(info.error);
      }
      if total == 0 {
        total := info.value.total;
      } else if info.value.total != total {
        CollectFails(chunks, i + 1);
        return Failure(Inconsistent);
      }
      parts := parts[info.value.index := info.value.data];
    }
    assert chunks[..|chunks|] == chunks;
    return Success(Collected(total, parts));
  }

  /** The counter is a 32-bit integer: after the largest one it wraps to the smallest. */
  method AssembleParts(parts: map<int, string>, total: int) returns (r: Result<string, Error>)
    requires Int32(|parts|) == total
    requires forall k :: k in parts ==> MIN_INT32 <= k <= MAX_INT32
    ensures r == if !HasAll(parts, total) then Failure(Missing(FirstMissing(parts, 1, total)))
                 else if total == MAX_INT32 then Failure(Missing(MIN_INT32))
                 else Success(Assemble(parts, total))
  {
    var b := "";
    var i := 1;
    while i <= total
      invariant i == MIN_INT32 || 1 <= i <= MAX_INT32
      invariant i == MIN_INT32 ==> total == MAX_INT32 && i !in parts && HasAll(parts, total)
      invariant 1 <= i <= MAX_INT32 ==>
                  (i <= total + 1 || (total < 1 && i == 1)) && HasAll(parts, i - 1) && b == Assemble(parts, i - 1)
      decreases if i >= 1 then total - i + 2 else 0
    {
      if i !in parts {
        return Failure(Missing(i));
      }
      b := b + parts[i];
      if i == MAX_INT32 {
        ExactlyAll(parts, total);
      }
      i := Int32(i + 1);
    }
    return Success(b);
  }

  lemma {:induction false} CollectFails(chunks: seq<string>, n: nat)
    requires n <= |chunks| && Collect(chunks[..n]).Failure?
    ensures Collect(chunks) == Collect(chunks[..n])
    decreases |chunks| - n
  {
    if n == |chunks| {
      assert chunks[..n] == chunks;
    } else {
      assert chunks[..n+1][..n] == chunks[..n];
      CollectFails(chunks, n + 1);
    }
  }

  // ---- main results

  predicate OneOf(chunk: string, data: string) {
    exists i :: 0 <= i < Total(data) && chunk == ChunkAt(data, i)
  }

  /** Every scanned chunk is one of the data's chunks. */
  ghost predicate AllFrom(chunks: seq<string>, data: string) {
    forall k :: 0 <= k < |chunks| ==> OneOf(chunks[k], data)
  }

  ghost predicate Scanned(chunks: seq<string>, data: string, i: nat)
    requires i < Total(data)
  {
    ChunkAt(data, i) in chunks
  }

  /** One more chunk with a matching total. */
  lemma CollectSnoc(chunks: seq<string>, c: string, info: Chunk)
    requires Collect(chunks).Success? && ParseQRChunk(c) == Success(info)
    requires Collect(chunks).value.total == 0 || Collect(chunks).value.total == info.total
    ensures Collect(chunks + [c]) == Success(Collected(info.total,
                                                       Collect(chunks).value.parts[info.index := info.data]))
  {
    assert (chunks + [c])[..|chunks|] == chunks;
  }

  lemma ParseOwn(data: string, i: nat)
    requires i < Total(data) <= MAX_INT32
    ensures ParseQRChunk(ChunkAt(data, i)) == Success(Chunk(i + 1, Total(data), Slice(data, i)))
  {
    ParseSmall(i + 1, Total(data), Slice(data, i));
  }

  lemma ParseSmall(index: nat, total: nat, data: string)
    requires index <= MAX_INT32 && total <= MAX_INT32
    ensures ParseQRChunk(Encode(index, total, data)) == Success(Chunk(index, total, data))
  {
    ParseEncoded(index, total, data);
    SmallInt32(index);
    SmallInt32(total);
  }

  lemma SmallInt32(n: nat)
    requires n <= MAX_INT32
    ensures Int32(n) == n && n <= 0x7fff_ffff_ffff_ffff
  {
  }

  lemma OwnChunksDiffer(data: string, i: nat, j: nat)
    requires i < Total(data) <= MAX_INT32 && j < Total(data) && ChunkAt(data, i) == ChunkAt(data, j)
    ensures i == j
  {
    ParseOwn(data, i);
    ParseOwn(data, j);
  }

  lemma TotalBounds(data: string)
    ensures |data| <= CHUNK_SIZE * Total(data)
    ensures data != "" ==> Total(data) >= 1 && CHUNK_SIZE * (Total(data) - 1) < |data|
  {
  }

  /** What collecting the data's own chunks yields: their total and, for each scanned index, its slice. */
  ghost predicate OwnParts(chunks: seq<string>, data: string, c: Collected) {
    && c.total == (if chunks == [] then 0 else Total(data))
    && (forall k :: k in c.parts ==> 1 <= k <= Total(data) && c.parts[k] == Slice(data, k - 1))
    && (forall i :: 0 <= i < Total(data) ==> (i + 1 in c.parts <==> Scanned(chunks, data, i)))
  }

  lemma OwnPartsSnoc(chunks: seq<string>, data: string, c: Collected, i: nat)
    requires i < Total(data) <= MAX_INT32 && OwnParts(chunks, data, c)
    ensures OwnParts(chunks + [ChunkAt(data, i)], data, Collected(Total(data), c.parts[i + 1 := Slice(data, i)]))
  {
    forall j | 0 <= j < Total(data)
      ensures Scanned(chunks + [ChunkAt(data, i)], data, j) <==> Scanned(chunks, data, j) || j == i
    {
      if ChunkAt(data, j) == ChunkAt(data, i) {
        OwnChunksDiffer(data, i, j);
      }
    }
  }

  lemma {:induction false} CollectOwn(chunks: seq<string>, data: string)
    requires AllFrom(chunks, data) && 1 <= Total(data) <= MAX_INT32
    ensures Collect(chunks).Success? && OwnParts(chunks, data, Collect(chunks).value)
  {
    if chunks != [] {
      var init, last := chunks[..|chunks| - 1], chunks[|chunks| - 1];
      assert chunks == init + [last];
      CollectOwn(init, data);
      assert OneOf(last, data);
      var i :| 0 <= i < Total(data) && last == ChunkAt(data, i);
      ParseOwn(data, i);
      CollectSnoc(init, last, Chunk(i + 1, Total(data), Slice(data, i)));
      OwnPartsSnoc(init, data, Collect(init).value, i);
    }
  }

  /** The first n slices in order are the first part of the data. */
  lemma {:induction false} AssembleOwn(parts: map<int, string>, data: string, n: nat)
    requires n <= Total(data) && HasAll(parts, n)
    requires forall k :: 1 <= k <= n ==> parts[k] == Slice(data, k - 1)
    ensures Assemble(parts, n) == data[..Min(n * CHUNK_SIZE, |data|)]
  {
    TotalBounds(data);
    if n > 0 {
      AssembleOwn(parts, data, n - 1);
      assert (n - 1) * CHUNK_SIZE <= |data|;
      assert Slice(data, n - 1) == data[(n - 1) * CHUNK_SIZE..Min(n * CHUNK_SIZE, |data|)];
    }
  }

  lemma AllScanned(parts: map<int, string>, data: string)
    requires data != "" && Total(data) < MAX_INT32
    requires forall k :: k in parts <==> 1 <= k <= Total(data)
    requires forall k :: k in parts ==> parts[k] == Slice(data, k - 1)
    ensures Int32(|parts|) == Total(data) && HasAll(parts, Total(data)) && Assemble(parts, Total(data)) == data
  {
    TotalBounds(data);
    AllCounted(parts, Total(data));
    AssembleOwn(parts, data, Total(data));
    assert data[..|data|] == data;
  }

  /** Parts numbered from 1 to n are n parts, and the counter holds them. */
  lemma AllCounted(parts: map<int, string>, n: nat)
    requires n < MAX_INT32 && forall k :: k in parts <==> 1 <= k <= n
    ensures Int32(|parts|) == n && HasAll(parts, n)
  {
    var keys := Range(1, n);
    assert parts.Keys == keys;
    RangeSize(1, n);
    assert |parts| == |parts.Keys| == n;
  }

  /** Main result: when the data's chunks are scanned in any order and with repeats, the import returns
      the data exactly when every chunk was scanned, and fails otherwise. */
  lemma ImportOwn(chunks: seq<string>, data: string)
    requires data != "" && AllFrom(chunks, data) && Total(data) < MAX_INT32
    ensures if forall i :: 0 <= i < Total(data) ==> Scanned(chunks, data, i)
            then Import(chunks) == Success(data) else Import(chunks).Failure?
  {
    TotalBounds(data);
    var t := Total(data);
    if chunks == [] {
      assert !Scanned(chunks, data, 0);
      return;
    }
    CollectOwn(chunks, data);
    var parts := Collect(chunks).value.parts;
    if forall i :: 0 <= i < t ==> Scanned(chunks, data, i) {
      forall k | 1 <= k <= t
        ensures k in parts
      {
        assert Scanned(chunks, data, k - 1);
      }
      AllScanned(parts, data);
    } else {
      var i :| 0 <= i < t && !Scanned(chunks, data, i);
      assert i + 1 !in parts;
    }
  }

  /** For data needing 2^31 - 1 chunks or more the import never returns it, whatever is scanned: the
      32-bit total or loop counter no longer holds the number of chunks. */
  lemma TooManyChunks(chunks: seq<string>, data: string)
    requires data != "" && AllFrom(chunks, data) && Total(data) >= MAX_INT32
    ensures Import(chunks) != Success(data)
  {
    TotalBounds(data);
    if chunks != [] && Collect(chunks).Success? {
      CollectHuge(chunks, data);
      var c := Collect(chunks).value;
      if HasAll(c.parts, c.total) {
        AssembleShort(c.parts, c.total);
        assert c.total <= MAX_INT32 <= Total(data);
      }
    }
  }

  lemma ParseOwnHuge(data: string, i: nat)
    requires i < Total(data) && ParseQRChunk(ChunkAt(data, i)).Success?
    ensures ParseQRChunk(ChunkAt(data, i)).value == Chunk(Int32(i + 1), Int32(Total(data)), Slice(data, i))
  {
    ParseEncoded(i + 1, Total(data), Slice(data, i));
  }

  /** The round trip as one statement: with every chunk scanned, the data comes back if and only if it
      needs fewer than 2^31 - 1 chunks. */
  lemma RoundTripIff(chunks: seq<string>, data: string)
    requires data != "" && AllFrom(chunks, data)
    requires forall i :: 0 <= i < Total(data) ==> Scanned(chunks, data, i)
    ensures Import(chunks) == Success(data) <==> Total(data) < MAX_INT32
  {
    if Total(data) < MAX_INT32 {
      ImportAll(chunks, data);
    } else {
      TooManyChunks(chunks, data);
    }
  }

  lemma ImportAll(chunks: seq<string>, data: string)
    requires data != "" && AllFrom(chunks, data) && Total(data) < MAX_INT32
    requires forall i :: 0 <= i < Total(data) ==> Scanned(chunks, data, i)
    ensures Import(chunks) == Success(data)
  {
    ImportOwn(chunks, data);
  }

  /** Whatever the size, the collected total is the 32-bit one and parts are at most a slice long. */
  lemma {:induction false} CollectHuge(chunks: seq<string>, data: string)
    requires AllFrom(chunks, data) && Collect(chunks).Success?
    ensures chunks != [] ==> Collect(chunks).value.total == Int32(Total(data))
    ensures forall k :: k in Collect(chunks).value.parts ==> |Collect(chunks).value.parts[k]| <= CHUNK_SIZE
  {
    if chunks != [] {
      var init, last := chunks[..|chunks| - 1], chunks[|chunks| - 1];
      CollectHuge(init, data);
      assert OneOf(last, data);
      var i :| 0 <= i < Total(data) && last == ChunkAt(data, i);
      ParseOwnHuge(data, i);
    }
  }

  lemma {:induction false} AssembleShort(parts: map<int, string>, n: int)
    requires HasAll(parts, n) && forall k :: k in parts ==> |parts[k]| <= CHUNK_SIZE
    ensures |Assemble(parts, n)| <= CHUNK_SIZE * (if n > 0 then n else 0)
    decreases if n > 0 then n else 0
  {
    if n > 0 {
      AssembleShort(parts, n - 1);
    }
  }

  /** Conversely, for any scanned text at all: a successful import with a positive total used exactly the
      indices 1 to total, in order. */
  lemma SuccessUsesExactIndices(chunks: seq<string>)
    requires Import(chunks).Success? && Collect(chunks).value.total >= 1
    ensures var c := Collect(chunks).value;
            && (forall k :: k in c.parts <==> 1 <= k <= c.total)
            && Import(chunks).value == Assemble(c.parts, c.total)
  {
    CollectedKeys(chunks);
    ExactlyAll(Collect(chunks).value.parts, Collect(chunks).value.total);
  }

  /** A total of zero or less can only get through with more than two thousand million chunks. */
  lemma NonPositiveTotalNeedsHugeScan(chunks: seq<string>)
    requires Import(chunks).Success? && Collect(chunks).value.total < 1
    ensures Import(chunks).value == "" && |chunks| > MAX_INT32
  {
    CollectedKeys(chunks);
    CollectedSome(chunks);
  }

  lemma CollectedSome(chunks: seq<string>)
    requires chunks != [] && Collect(chunks).Success?
    ensures |Collect(chunks).value.parts| >= 1
  {
    var info := ParseQRChunk(chunks[|chunks| - 1]);
    assert info.value.index in Collect(chunks).value.parts;
  }
}
