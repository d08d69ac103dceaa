/** The text of QR chunks: what each one holds, and which texts are taken for chunks. */
module QrText {
  import opened Wrappers
  import opened Text
  import opened QrChunks

  /** Main result: chunk `i` of `n` holds the i-th thousand characters, and `n` thousands are just enough. */
  lemma ChunkIs(data: string, i: nat)
    requires i < Total(data)
    ensures 1000 * (Total(data) - 1) < |data| <= 1000 * Total(data)
    ensures var last := if 1000 * i + 1000 < |data| then 1000 * i + 1000 else |data|;
            1000 * i < last && ChunkAt(data, i) ==
              "NF:" + Decimal(i + 1) + "/" + Decimal(Total(data)) + ":" + data[1000 * i..last]
  {
  }

  /** Text of an index and a total, neither holding what ends it. */
  predicate IsChunk(chunk: string, index: string, total: string, data: string) {
    '/' !in index && ':' !in total && chunk == "NF:" + index + "/" + total + ":" + data
  }

  /** Main result: exactly which texts are chunks, and of what: index and total are 64-bit numbers cut to 32 bits. */
  lemma ParseIff(chunk: string, c: Chunk)
    ensures ParseQRChunk(chunk) == Success(c) <==>
            exists index, total :: IsChunk(chunk, index, total, c.data) && Cut(index, c.index) && Cut(total, c.total)
  {
    if ParseQRChunk(chunk) == Success(c) {
      FieldsAre(chunk);
      var t := SplitFields(chunk[3..]).value;
      CutIff(t.index, c.index);
      CutIff(t.total, c.total);
    }
    forall index, total | IsChunk(chunk, index, total, c.data) && Cut(index, c.index) && Cut(total, c.total)
      ensures ParseQRChunk(chunk) == Success(c)
    {
      EncodedFields(index, total, c.data);
      CutIff(index, c.index);
      CutIff(total, c.total);
    }
  }

  lemma FieldsAre(chunk: string)
    requires "NF:" <= chunk && SplitFields(chunk[3..]).Some?
    ensures var t := SplitFields(chunk[3..]).value; IsChunk(chunk, t.index, t.total, t.data)
  {
    var rest := chunk[3..];
    var t := SplitFields(rest).value;
    FieldsOf(rest);
    Prefixed(chunk, rest, t.index, t.total, t.data);
  }

  lemma Prefixed(chunk: string, rest: string, index: string, total: string, data: string)
    requires "NF:" <= chunk && chunk[3..] == rest && rest == index + "/" + total + ":" + data
    ensures chunk == "NF:" + index + "/" + total + ":" + data
  {
    assert chunk == "NF:" + rest;
  }

  lemma FieldsOf(rest: string)
    requires SplitFields(rest).Some?
    ensures var t := SplitFields(rest).value;
            '/' !in t.index && ':' !in t.total && rest == t.index + "/" + t.total + ":" + t.data
  {
    var slash := IndexOf(rest, '/');
    var colon := IndexOf(rest[slash..], ':');
    AfterSlash(rest, slash, rest[slash..], colon);
    Pieces(rest, slash, colon - 1);
  }

  lemma AfterSlash(rest: string, slash: nat, tail: string, colon: nat)
    requires slash < |rest| && rest[slash] == '/' && tail == rest[slash..] && colon < |tail| && tail[colon] == ':'
    requires forall k :: 0 <= k < colon ==> tail[k] != ':'
    ensures colon > 0 && rest[slash + colon] == ':' && ':' !in rest[slash + 1..slash + colon]
  {
    assert tail[0] == '/';
    var total := rest[slash + 1..slash + colon];
    assert forall k :: 0 <= k < |total| ==> total[k] == tail[k + 1];
  }

  lemma Pieces(rest: string, i: nat, n: nat)
    requires i + 1 + n < |rest| && rest[i] == '/' && rest[i + 1 + n] == ':'
    ensures rest == rest[..i] + "/" + rest[i + 1..i + 1 + n] + ":" + rest[i + n + 2..]
  {
  }

  /** The text is a 64-bit number, and `r` is it cut to 32 bits. */
  ghost predicate Cut(s: string, r: int) {
    exists n :: IsInt64(s, n) && -0x8000_0000 <= r < 0x8000_0000 && (n - r) % 0x1_0000_0000 == 0
  }

  /** A sign or none, any leading zeros, and the decimal form of a number of at most 64 bits. */
  ghost predicate IsInt64(s: string, n: int) {
    -0x8000_0000_0000_0000 <= n < 0x8000_0000_0000_0000 && exists sign, zeros :: IsSigned(s, sign, zeros, n)
  }

  predicate IsSigned(s: string, sign: string, zeros: string, n: int) {
    && AllIn(zeros, "0") && s == sign + zeros + Decimal(if n < 0 then -n else n)
    && ((sign == "-" && n <= 0) || ((sign == "" || sign == "+") && n >= 0))
  }

  lemma CutIff(s: string, r: int)
    ensures Cut(s, r) <==> Atoi(s).Some? && Int32(Atoi(s).value) == r
  {
    if n :| IsInt64(s, n) && -0x8000_0000 <= r < 0x8000_0000 && (n - r) % 0x1_0000_0000 == 0 {
      AtoiIff(s, n);
      Int32Iff(n, r);
    }
    if Atoi(s).Some? && Int32(Atoi(s).value) == r {
      AtoiIff(s, Atoi(s).value);
      Int32Iff(Atoi(s).value, r);
    }
  }

  lemma Int32Iff(n: int, r: int)
    ensures Int32(n) == r <==> -0x8000_0000 <= r < 0x8000_0000 && (n - r) % 0x1_0000_0000 == 0
  {
  }

  lemma AtoiIff(s: string, n: int)
    ensures Atoi(s) == Some(n) <==> IsInt64(s, n)
  {
    if Atoi(s) == Some(n) {
      AtoiIs(s, n);
    }
    forall sign, zeros | IsSigned(s, sign, zeros, n) && IsInt64(s, n) ensures Atoi(s) == Some(n) {
      SignedParses(s, sign, zeros, n);
    }
  }

  lemma AtoiIs(s: string, n: int)
    requires Atoi(s) == Some(n)
    ensures exists sign, zeros :: IsSigned(s, sign, zeros, n)
  {
    var digits := Unsigned(s);
    var zeros, number := Leading(digits);
    var sign := SignOf(s, digits, zeros, number);
    assert IsSigned(s, sign, zeros, n);
  }

  lemma SignOf(s: string, digits: string, zeros: string, number: string) returns (sign: string)
    requires digits == Unsigned(s) && digits == zeros + number && digits != ""
    ensures s == sign + zeros + number && (sign == "" || sign == "+" || sign == "-")
    ensures sign == "-" <==> s[0] == '-'
  {
    if s == digits {
      sign := "";
      assert s == sign + zeros + number;
    } else {
      sign := [s[0]];
      assert s == sign + digits;
      assert sign + digits == sign + zeros + number;
    }
  }

  lemma SignedParses(s: string, sign: string, zeros: string, n: int)
    requires IsSigned(s, sign, zeros, n) && -0x8000_0000_0000_0000 <= n < 0x8000_0000_0000_0000
    ensures Atoi(s) == Some(n)
  {
    var m: nat := if n < 0 then -n else n;
    ZerosBefore(zeros, Decimal(m));
    DecimalValue(m);
    SignDrops(s, sign, zeros, Decimal(m));
  }

  lemma SignDrops(s: string, sign: string, zeros: string, number: string)
    requires (sign == "" || sign == "+" || sign == "-") && s == sign + zeros + number
    requires AllDigits(zeros + number) && number != ""
    ensures Unsigned(s) == zeros + number && (s[0] == '-' <==> sign == "-")
  {
    var digits := zeros + number;
    assert '0' <= digits[0] <= '9';
    if sign == "" {
      assert s == digits;
    } else {
      assert s == sign + digits && (sign + digits)[1..] == digits;
    }
  }
}
