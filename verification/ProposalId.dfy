/** Proposal ids: the FNV-1a fold over the encoded proposal
    (crates/clone-orchestrator/src/proposal.rs). An id is the 64-bit digest; the source
    prints it in hexadecimal. */
module ProposalId {
  import opened Prelude

  type Byte = x: int | 0 <= x < 256

  type Bytes = seq<Byte>

  type Stepper = (U64, Byte) -> U64

  const OFFSET_BASIS: U64 := 0xcbf2_9ce4_8422_2325

  function Pow2(n: nat): nat {
    if n == 0 then 1 else 2 * Pow2(n - 1)
  }

  /** Exclusive or of the low `n` bits. */
  function XorBits(n: nat, a: nat, b: nat): (r: nat)
    ensures r < Pow2(n)
  {
    if n == 0 then 0
    else 2 * XorBits(n - 1, a / 2, b / 2) + (if a % 2 == b % 2 then 0 else 1)
  }

  lemma ByteSize()
    ensures Pow2(8) == 256
  {
    assert Pow2(2) == 4;
    assert Pow2(4) == 16;
    assert Pow2(6) == 64;
  }

  /** `h ^ b` for a byte: the high bits stay, the low eight are combined. */
  function XorByte(h: U64, b: Byte): (r: U64)
    ensures r / 256 == h / 256 && r % 256 == XorBits(8, h % 256, b)
  {
    ByteSize();
    h - h % 256 + XorBits(8, h % 256, b)
  }

  /** `wrapping_mul` by the FNV prime. */
  function TimesPrime(h: U64): U64 {
    (h * 0x0000_0100_0000_01b3) % 0x1_0000_0000_0000_0000
  }

  /** One mixing step: exclusive-or the byte in, multiply by the prime. */
  function Mix(h: U64, b: Byte): U64 {
    TimesPrime(XorByte(h, b))
  }

  /** The digest of `bytes` from the state `h`, one step per byte. */
  function Fold(step: Stepper, h: U64, bytes: Bytes): U64 {
    if bytes == [] then h else step(Fold(step, h, bytes[..|bytes| - 1]), bytes[|bytes| - 1])
  }

  /** `u64::to_le_bytes`. */
  function LeBytes(x: U64): (r: Bytes)
    ensures |r| == 8
  {
    LowBytes(x, 8)
  }

  function LowBytes(x: nat, n: nat): (r: Bytes)
    ensures |r| == n
  {
    if n == 0 then [] else [x % 256] + LowBytes(x / 256, n - 1)
  }

  /** What the id of a proposal is a digest of. */
  function Encoded(statement: Bytes, expectedRows: Option<U64>, createdMillis: U64, seqNo: U64): Bytes {
    statement
    + LeBytes(if expectedRows.Some? then expectedRows.value else U64_MAX)
    + LeBytes(createdMillis)
    + LeBytes(seqNo)
  }

  function IdOf(statement: Bytes, expectedRows: Option<U64>, createdMillis: U64, seqNo: U64): U64 {
    Fold(Mix, OFFSET_BASIS, Encoded(statement, expectedRows, createdMillis, seqNo))
  }

  /** The body of the mixing loop. */
  method MixByte(start: U64, b: Byte) returns (h: U64)
    ensures h == Mix(start, b)
  {
    h := XorByte(start, b);
    h := TimesPrime(h);
  }

  /** Mix more bytes into a running state. */
  method MixAll(start: U64, bytes: Bytes) returns (h: U64)
    ensures h == Fold(Mix, start, bytes)
  {
    h := start;
    for i := 0 to |bytes|
      invariant h == Fold(Mix, start, bytes[..i])
    {
      assert bytes[..i + 1][..i] == bytes[..i];
      h := MixByte(h, bytes[i]);
    }
    assert bytes[..|bytes|] == bytes;
  }

  /** `make_id`: four mixes over one running hash are one digest of the concatenation. */
  method MakeId(statement: Bytes, expectedRows: Option<U64>, createdMillis: U64, seqNo: U64) returns (id: U64)
    ensures id == IdOf(statement, expectedRows, createdMillis, seqNo)
  {
    var rows := if expectedRows.Some? then expectedRows.value else U64_MAX;
    id := MixAll(OFFSET_BASIS, statement);
    id := MixAll(id, LeBytes(rows));
    FoldConcat(Mix, OFFSET_BASIS, statement, LeBytes(rows));
    id := MixAll(id, LeBytes(createdMillis));
    FoldConcat(Mix, OFFSET_BASIS, statement + LeBytes(rows), LeBytes(createdMillis));
    id := MixAll(id, LeBytes(seqNo));
    FoldConcat(Mix, OFFSET_BASIS, statement + LeBytes(rows) + LeBytes(createdMillis), LeBytes(seqNo));
  }

  lemma {:induction false} FoldConcat(step: Stepper, h: U64, a: Bytes, b: Bytes)
    ensures Fold(step, h, a + b) == Fold(step, Fold(step, h, a), b)
    decreases |b|
  {
    if b == [] {
      assert a + b == a;
    } else {
      var ab := a + b;
      assert ab[..|ab| - 1] == a + b[..|b| - 1];
      FoldConcat(step, h, a, b[..|b| - 1]);
    }
  }

  // ------------------------------------------------------------------ injectivity

  /** `wrapping_mul` by the inverse of the prime modulo 2^64. */
  function DividePrime(h: U64): U64 {
    (h * 0xce96_5057_aff6_957b) % 0x1_0000_0000_0000_0000
  }

  lemma SmallMultiple(x: U64, y: U64, t: int)
    requires x - y == 0x1_0000_0000_0000_0000 * t
    ensures x == y
  {
  }

  lemma DivideAfterTimes(x: U64)
    ensures DividePrime(TimesPrime(x)) == x
  {
    var product: int := x * 0x0000_0100_0000_01b3;
    var back: int := TimesPrime(x) * 0xce96_5057_aff6_957b;
    SmallMultiple(x, DividePrime(TimesPrime(x)),
      back / 0x1_0000_0000_0000_0000 - x * 887285111055 + (product / 0x1_0000_0000_0000_0000) * 0xce96_5057_aff6_957b);
  }

  lemma TimesAfterDivide(x: U64)
    ensures TimesPrime(DividePrime(x)) == x
  {
    var product: int := x * 0xce96_5057_aff6_957b;
    var back: int := DividePrime(x) * 0x0000_0100_0000_01b3;
    SmallMultiple(x, TimesPrime(DividePrime(x)),
      back / 0x1_0000_0000_0000_0000 - x * 887285111055 + (product / 0x1_0000_0000_0000_0000) * 0x0000_0100_0000_01b3);
  }

  lemma {:induction false} XorBitsCancels(n: nat, a: nat, b: nat)
    requires a < Pow2(n)
    ensures XorBits(n, XorBits(n, a, b), b) == a
    ensures XorBits(n, a, b) == XorBits(n, b, a)
  {
    if n > 0 {
      XorBitsCancels(n - 1, a / 2, b / 2);
    }
  }

  lemma XorByteCancels(h: U64, b: Byte)
    ensures XorByte(XorByte(h, b), b) == h
  {
    ByteSize();
    XorBitsCancels(8, h % 256, b);
  }

  lemma XorByteInjective(h: U64, b: Byte, c: Byte)
    requires XorByte(h, b) == XorByte(h, c)
    ensures b == c
  {
    ByteSize();
    XorBitsCancels(8, h % 256, b);
    XorBitsCancels(8, h % 256, c);
    XorBitsCancels(8, b, h % 256);
    XorBitsCancels(8, c, h % 256);
  }

  /** The step that undoes one mixing step. */
  function Unmix(h: U64, b: Byte): U64 {
    XorByte(DividePrime(h), b)
  }

  /** Each mixing step is a bijection on 64-bit states. */
  lemma MixIsBijective(h: U64, b: Byte)
    ensures Unmix(Mix(h, b), b) == h
    ensures Mix(Unmix(h, b), b) == h
  {
    DivideAfterTimes(XorByte(h, b));
    XorByteCancels(h, b);
    XorByteCancels(DividePrime(h), b);
    TimesAfterDivide(h);
  }

  /** From one state, different bytes lead to different states. */
  lemma BytesMixApart(h: U64, b: Byte, c: Byte)
    requires Mix(h, b) == Mix(h, c)
    ensures b == c
  {
    DivideAfterTimes(XorByte(h, b));
    DivideAfterTimes(XorByte(h, c));
    XorByteInjective(h, b, c);
  }

  /** A step that loses neither the state nor the byte. */
  ghost predicate Lossless(step: Stepper) {
    && (forall h, k, b :: step(h, b) == step(k, b) ==> h == k)
    && (forall h, b, c :: step(h, b) == step(h, c) ==> b == c)
  }

  lemma MixIsLossless()
    ensures Lossless(Mix)
  {
    forall h, k, b | Mix(h, b) == Mix(k, b) ensures h == k {
      MixIsBijective(h, b);
      MixIsBijective(k, b);
    }
    forall h, b, c | Mix(h, b) == Mix(h, c) ensures b == c {
      BytesMixApart(h, b, c);
    }
  }

  lemma {:induction false} FoldKeepsStatesApart(step: Stepper, h: U64, k: U64, bytes: Bytes)
    requires Lossless(step) && Fold(step, h, bytes) == Fold(step, k, bytes)
    ensures h == k
    decreases |bytes|
  {
    if bytes != [] {
      var earlier := bytes[..|bytes| - 1];
      assert step(Fold(step, h, earlier), bytes[|earlier|]) == step(Fold(step, k, earlier), bytes[|earlier|]);
      FoldKeepsStatesApart(step, h, k, earlier);
    }
  }

  /** Inputs of any one length that differ in exactly one byte have different digests. */
  lemma OneByteApart(step: Stepper, h: U64, a: Bytes, b: Bytes, i: nat)
    requires Lossless(step)
    requires |a| == |b| && i < |a| && a[i] != b[i]
    requires forall j :: 0 <= j < |a| && j != i ==> a[j] == b[j]
    ensures Fold(step, h, a) != Fold(step, h, b)
  {
    assert a[..i] == b[..i] && a[i + 1..] == b[i + 1..];
    assert a == a[..i + 1] + a[i + 1..] && b == b[..i + 1] + b[i + 1..];
    FoldConcat(step, h, a[..i + 1], a[i + 1..]);
    FoldConcat(step, h, b[..i + 1], b[i + 1..]);
    assert a[..i + 1][..i] == a[..i] && b[..i + 1][..i] == b[..i];
    if Fold(step, h, a) == Fold(step, h, b) {
      FoldKeepsStatesApart(step, Fold(step, h, a[..i + 1]), Fold(step, h, b[..i + 1]), a[i + 1..]);
    }
  }

  /** Any two proposals whose encodings have one length and differ in exactly one byte get
      different ids. */
  lemma OneByteChangesId(
    statement: Bytes, expectedRows: Option<U64>, createdMillis: U64, seqNo: U64,
    statement': Bytes, expectedRows': Option<U64>, createdMillis': U64, seqNo': U64, i: nat)
    requires |statement| == |statement'| && i < |statement| + 24
    requires var a := Encoded(statement, expectedRows, createdMillis, seqNo);
             var b := Encoded(statement', expectedRows', createdMillis', seqNo');
             a[i] != b[i] && forall j :: 0 <= j < |a| && j != i ==> a[j] == b[j]
    ensures IdOf(statement, expectedRows, createdMillis, seqNo) !=
            IdOf(statement', expectedRows', createdMillis', seqNo')
  {
    MixIsLossless();
    OneByteApart(Mix, OFFSET_BASIS, Encoded(statement, expectedRows, createdMillis, seqNo),
      Encoded(statement', expectedRows', createdMillis', seqNo'), i);
  }

  /** Proposals that agree on everything but their per-process sequence number get different
      ids whenever the numbers differ in one byte, for statements of any length. */
  lemma SequenceKeepsIdsApart(
    statement: Bytes, expectedRows: Option<U64>, createdMillis: U64, seqNo: U64, seqNo': U64, i: nat)
    requires i < 8 && LeBytes(seqNo)[i] != LeBytes(seqNo')[i]
    requires forall j :: 0 <= j < 8 && j != i ==> LeBytes(seqNo)[j] == LeBytes(seqNo')[j]
    ensures IdOf(statement, expectedRows, createdMillis, seqNo) != IdOf(statement, expectedRows, createdMillis, seqNo')
  {
    OneByteChangesId(statement, expectedRows, createdMillis, seqNo,
      statement, expectedRows, createdMillis, seqNo', |statement| + 16 + i);
  }

  // ------------------------------------------------------------------ what an id depends on

  function Pow256(n: nat): (r: nat)
    ensures r > 0
  {
    if n == 0 then 1 else 256 * Pow256(n - 1)
  }

  /** The number bytes stand for, the least significant first. */
  function FromLow(bytes: Bytes): nat {
    if bytes == [] then 0 else bytes[0] + 256 * FromLow(bytes[1..])
  }

  lemma {:induction false} LowBytesRoundTrip(x: nat, n: nat)
    requires x < Pow256(n)
    ensures FromLow(LowBytes(x, n)) == x
  {
    if n > 0 {
      LowBytesRoundTrip(x / 256, n - 1);
      assert LowBytes(x, n)[1..] == LowBytes(x / 256, n - 1);
    }
  }

  /** Eight bytes hold a 64-bit number, the least significant first. */
  lemma LeBytesRoundTrip(x: U64)
    ensures FromLow(LeBytes(x)) == x
  {
    assert Pow256(8) == U64_MAX + 1 by {
      assert Pow256(4) == 0x1_0000_0000;
    }
    LowBytesRoundTrip(x, 8);
  }

  lemma LeBytesInjective(x: U64, y: U64)
    requires LeBytes(x) == LeBytes(y)
    ensures x == y
  {
    LeBytesRoundTrip(x);
    LeBytesRoundTrip(y);
  }

  lemma SplitTail(a: Bytes, b: Bytes, x: Bytes, y: Bytes)
    requires a + x == b + y && |x| == |y|
    ensures a == b && x == y
  {
    assert |a| == |b|;
    assert a == (a + x)[..|a|] && b == (b + y)[..|b|];
    assert x == (a + x)[|a|..] && y == (b + y)[|b|..];
  }

  /** The row estimate as it is encoded: none looks like the greatest. */
  function Estimate(expectedRows: Option<U64>): U64 {
    match expectedRows
    case None => U64_MAX
    case Some(n) => n
  }

  /** What is digested determines the proposal and nothing less does: the statement, the row
      estimate, the creation time and the sequence number, where no estimate and an estimate
      of 2^64-1 look the same. */
  lemma EncodedExactly(
    statement: Bytes, expectedRows: Option<U64>, createdMillis: U64, seqNo: U64,
    statement': Bytes, expectedRows': Option<U64>, createdMillis': U64, seqNo': U64)
    ensures Encoded(statement, expectedRows, createdMillis, seqNo) ==
            Encoded(statement', expectedRows', createdMillis', seqNo') <==>
            && statement == statement' && Estimate(expectedRows) == Estimate(expectedRows')
            && createdMillis == createdMillis' && seqNo == seqNo'
  {
    var rows, rows' := LeBytes(Estimate(expectedRows)), LeBytes(Estimate(expectedRows'));
    if Encoded(statement, expectedRows, createdMillis, seqNo) ==
       Encoded(statement', expectedRows', createdMillis', seqNo') {
      SplitTail(statement + rows + LeBytes(createdMillis), statement' + rows' + LeBytes(createdMillis'),
        LeBytes(seqNo), LeBytes(seqNo'));
      SplitTail(statement + rows, statement' + rows', LeBytes(createdMillis), LeBytes(createdMillis'));
      SplitTail(statement, statement', rows, rows');
      LeBytesInjective(seqNo, seqNo');
      LeBytesInjective(createdMillis, createdMillis');
      LeBytesInjective(Estimate(expectedRows), Estimate(expectedRows'));
    }
  }

  lemma XorLetter()
    ensures XorByte(OFFSET_BASIS, 97) == 0xcbf2_9ce4_8422_2344
  {
    assert OFFSET_BASIS % 256 == 0x25;
    assert XorBits(4, 0x2, 0x6) == 0x4;
    assert XorBits(8, 0x25, 97) == 0x44;
  }

  lemma TimesPrimeOfLetter()
    ensures TimesPrime(0xcbf2_9ce4_8422_2344) == 0xaf63_dc4c_8601_ec8c
  {
  }

  /** The published test vectors of 64-bit FNV-1a for the empty string and for "a". */
  lemma FnvVectors()
    ensures Fold(Mix, OFFSET_BASIS, []) == 0xcbf2_9ce4_8422_2325
    ensures Fold(Mix, OFFSET_BASIS, [97]) == 0xaf63_dc4c_8601_ec8c
  {
    XorLetter();
    TimesPrimeOfLetter();
    assert [97][..0] == [];
  }
}
