/** The hash-chained audit log: records, sealing, the chain verifier and the in-memory
    chain builder (crates/audit/src/record.rs, crates/audit/src/chain.rs). */
module AuditChain {
  import opened Prelude

  type Hash = string

  /** 64 zeros: the `prev_hash` of the first record. */
  const GENESIS_PREV_HASH: Hash := Zeros(64)

  function Zeros(n: nat): string {
    if n == 0 then "" else "0" + Zeros(n - 1)
  }

  datatype Decision = Allow | Block | Reject

  datatype Principal = Principal(role: string, sessionId: Option<string>, principal: Option<string>)

  datatype WriteSafetyRefs = WriteSafetyRefs(dryRunId: Option<string>, blastRadiusRef: Option<string>)

  /** What a caller reports; the chain adds where the record sits. `intent` is the
      serialized intent block, which nothing here inspects. */
  datatype NewEntry = NewEntry(
    statementText: string, decision: Decision, reasonCode: string, reason: Option<string>,
    principal: Principal, intent: string, writeSafety: WriteSafetyRefs)

  /** The hashed part of a record. */
  datatype AuditPayload = AuditPayload(seqNo: U64, entry: NewEntry, timestamp: U64, prevHash: Hash)

  datatype AuditRecord = AuditRecord(payload: AuditPayload, recordHash: Hash)

  /** SHA-256 over the canonical encoding of a payload. */
  type Hasher = AuditPayload -> Hash

  /** The two facts the log rests on, for the payloads in `universe` only: no two of them
      collide, and none of them hashes to the genesis constant. */
  ghost predicate Secure(hash: Hasher, universe: iset<AuditPayload>) {
    && (forall p, q :: p in universe && q in universe && hash(p) == hash(q) ==> p == q)
    && (forall p :: p in universe ==> hash(p) != GENESIS_PREV_HASH)
  }

  ghost predicate Within(rs: seq<AuditRecord>, universe: iset<AuditPayload>) {
    forall i :: 0 <= i < |rs| ==> rs[i].payload in universe
  }

  function Seal(hash: Hasher, payload: AuditPayload): AuditRecord {
    AuditRecord(payload, hash(payload))
  }

  /** The head of a record slice: the last record's hash, genesis when there is none. */
  function HeadHash(rs: seq<AuditRecord>): Hash {
    if rs == [] then GENESIS_PREV_HASH else rs[|rs| - 1].recordHash
  }

  // ------------------------------------------------------------------ verification

  datatype ChainBreak =
    | BadGenesis(index: nat, foundPrevHash: Hash)
    | HashMismatch(index: nat, seqNo: U64, storedHash: Hash, recomputedHash: Hash)
    | BrokenLink(index: nat, seqNo: U64, expectedPrevHash: Hash, actualPrevHash: Hash)
    | SeqGap(index: nat, expectedSeq: U64, foundSeq: U64)

  /** Record `i` is sealed and linked to what precedes it. The first record's own
      sequence number is not constrained. */
  ghost predicate Linked(hash: Hasher, rs: seq<AuditRecord>, i: nat)
    requires i < |rs|
  {
    && Sealed(hash, rs[i])
    && rs[i].payload.prevHash == HeadHash(rs[..i])
    && InOrder(rs, i)
  }

  ghost predicate ValidChain(hash: Hasher, rs: seq<AuditRecord>) {
    forall i :: 0 <= i < |rs| ==> Linked(hash, rs, i)
  }

  /** What is wrong with record `index` given its predecessor, in the order the checks run. */
  function LinkBreak(hash: Hasher, prev: Option<AuditRecord>, record: AuditRecord, index: nat): Option<ChainBreak> {
    var recomputed := hash(record.payload);
    if recomputed != record.recordHash then
      Some(HashMismatch(index, record.payload.seqNo, record.recordHash, recomputed))
    else match prev
      case None =>
        if record.payload.prevHash != GENESIS_PREV_HASH
        then Some(BadGenesis(index, record.payload.prevHash)) else None
      case Some(previous) =>
        var expectedSeq := WrappingSucc(previous.payload.seqNo);
        if record.payload.seqNo != expectedSeq then Some(SeqGap(index, expectedSeq, record.payload.seqNo))
        else if record.payload.prevHash != previous.recordHash then
          Some(BrokenLink(index, record.payload.seqNo, record.payload.prevHash, previous.recordHash))
        else None
  }

  function Predecessor(rs: seq<AuditRecord>, i: nat): Option<AuditRecord>
    requires i <= |rs|
  {
    if i == 0 then None else Some(rs[i - 1])
  }

  /** The verdict on the records from `i` on, given that the earlier ones passed. */
  function VerdictFrom(hash: Hasher, rs: seq<AuditRecord>, i: nat): Option<ChainBreak>
    requires i <= |rs|
    decreases |rs| - i
  {
    if i == |rs| then None
    else
      var b := LinkBreak(hash, Predecessor(rs, i), rs[i], i);
      if b.Some? then b else VerdictFrom(hash, rs, i + 1)
  }

  function Verdict(hash: Hasher, rs: seq<AuditRecord>): Option<ChainBreak> {
    VerdictFrom(hash, rs, 0)
  }

  /** `verify_chain`: one pass with a running predecessor and an early return. */
  method VerifyChain(hash: Hasher, records: seq<AuditRecord>) returns (result: Option<ChainBreak>)
    ensures result == Verdict(hash, records)
    ensures result.None? <==> ValidChain(hash, records)
    ensures result.Some? ==> BreaksFirstAt(hash, records, result.value)
  {
    FirstBreakPrecision(hash, records);
    var prev: Option<AuditRecord> := None;
    for index := 0 to |records|
      invariant prev == Predecessor(records, index)
      invariant Verdict(hash, records) == VerdictFrom(hash, records, index)
    {
      var broken := LinkBreak(hash, prev, records[index], index);
      if broken.Some? {
        return broken;
      }
      prev := Some(records[index]);
    }
    return None;
  }

  predicate Sealed(hash: Hasher, r: AuditRecord) {
    r.recordHash == hash(r.payload)
  }

  predicate InOrder(rs: seq<AuditRecord>, i: nat)
    requires i < |rs|
  {
    i > 0 ==> rs[i].payload.seqNo == WrappingSucc(rs[i - 1].payload.seqNo)
  }

  /** The report `b` fits record `i`: which of the four it is, and what it quotes. */
  ghost predicate Describes(hash: Hasher, rs: seq<AuditRecord>, i: nat, b: ChainBreak)
    requires i < |rs|
  {
    match b
    case HashMismatch(index, s, stored, recomputed) =>
      && index == i && !Sealed(hash, rs[i])
      && s == rs[i].payload.seqNo && stored == rs[i].recordHash && recomputed == hash(rs[i].payload)
    case BadGenesis(index, found) =>
      index == i == 0 && Sealed(hash, rs[i]) && found == rs[i].payload.prevHash
    case SeqGap(index, expected, found) =>
      && index == i > 0 && Sealed(hash, rs[i]) && !InOrder(rs, i)
      && expected == WrappingSucc(rs[i - 1].payload.seqNo) && found == rs[i].payload.seqNo
    case BrokenLink(index, s, expected, actual) =>
      && index == i > 0 && Sealed(hash, rs[i]) && InOrder(rs, i)
      && s == rs[i].payload.seqNo && expected == rs[i].payload.prevHash && actual == HeadHash(rs[..i])
  }

  /** Everything before record `b.index` is a valid chain, that record is not linked to it,
      and `b` is the report the order of the checks gives. */
  ghost predicate BreaksFirstAt(hash: Hasher, rs: seq<AuditRecord>, b: ChainBreak) {
    && b.index < |rs|
    && ValidChain(hash, rs[..b.index])
    && !Linked(hash, rs, b.index)
    && Describes(hash, rs, b.index, b)
  }

  /** Whether record `k` is linked is settled by the records up to it. */
  lemma LinkedInPrefix(hash: Hasher, rs: seq<AuditRecord>, n: nat, k: nat)
    requires k < n <= |rs|
    ensures Linked(hash, rs[..n], k) <==> Linked(hash, rs, k)
  {
    assert rs[..n][..k] == rs[..k];
  }

  lemma PrefixValid(hash: Hasher, rs: seq<AuditRecord>, n: nat)
    requires n <= |rs|
    ensures ValidChain(hash, rs[..n]) <==> forall k :: 0 <= k < n ==> Linked(hash, rs, k)
  {
    forall k | 0 <= k < n ensures Linked(hash, rs[..n], k) <==> Linked(hash, rs, k) {
      LinkedInPrefix(hash, rs, n, k);
    }
  }

  lemma {:induction false} VerdictFromPrecision(hash: Hasher, rs: seq<AuditRecord>, i: nat)
    requires i <= |rs| && forall k :: 0 <= k < i ==> Linked(hash, rs, k)
    ensures var v := VerdictFrom(hash, rs, i);
            if v.None? then ValidChain(hash, rs) else BreaksFirstAt(hash, rs, v.value)
    decreases |rs| - i
  {
    if i < |rs| {
      PrefixValid(hash, rs, i);
      if LinkBreak(hash, Predecessor(rs, i), rs[i], i).None? {
        VerdictFromPrecision(hash, rs, i + 1);
      }
    }
  }

  /** The first break is unique. */
  lemma FirstBreakUnique(hash: Hasher, rs: seq<AuditRecord>, b: ChainBreak, c: ChainBreak)
    requires BreaksFirstAt(hash, rs, b) && BreaksFirstAt(hash, rs, c)
    ensures b == c
  {
    PrefixValid(hash, rs, b.index);
    PrefixValid(hash, rs, c.index);
    assert b.index == c.index;
  }

  /** The verifier fails exactly when some record is the first bad link, and then names it
      and says which of the four checks failed. */
  lemma FirstBreakPrecision(hash: Hasher, rs: seq<AuditRecord>)
    ensures Verdict(hash, rs).None? <==> ValidChain(hash, rs)
    ensures forall b: ChainBreak :: Verdict(hash, rs) == Some(b) <==> BreaksFirstAt(hash, rs, b)
  {
    VerdictFromPrecision(hash, rs, 0);
    forall b: ChainBreak | BreaksFirstAt(hash, rs, b) ensures Verdict(hash, rs) == Some(b) {
      assert !ValidChain(hash, rs);
      FirstBreakUnique(hash, rs, b, Verdict(hash, rs).value);
    }
  }

  // ------------------------------------------------------------- what tampering reports

  /** Editing a payload in place, without recomputing the hash, is reported at that record. */
  lemma EditReported(hash: Hasher, rs: seq<AuditRecord>, i: nat, forged: AuditPayload)
    requires ValidChain(hash, rs) && i < |rs|
    requires forged != rs[i].payload && Secure(hash, iset{forged, rs[i].payload})
    ensures Verdict(hash, rs[i := rs[i].(payload := forged)])
         == Some(HashMismatch(i, forged.seqNo, rs[i].recordHash, hash(forged)))
  {
    assert Linked(hash, rs, i);
    var edited := rs[i := rs[i].(payload := forged)];
    SamePrefixLinked(hash, rs, edited, i);
    PrefixValid(hash, edited, i);
    FirstBreakPrecision(hash, edited);
    assert BreaksFirstAt(hash, edited, HashMismatch(i, forged.seqNo, rs[i].recordHash, hash(forged)));
  }

  lemma BreakReported(hash: Hasher, rs: seq<AuditRecord>, b: ChainBreak)
    requires BreaksFirstAt(hash, rs, b)
    ensures Verdict(hash, rs) == Some(b)
  {
    FirstBreakPrecision(hash, rs);
  }

  /** `edited` is `rs` with record `i` resealed over `forged`, which keeps its links. */
  ghost predicate Resealed(
    hash: Hasher, rs: seq<AuditRecord>, i: nat, forged: AuditPayload, edited: seq<AuditRecord>)
  {
    && ValidChain(hash, rs) && i < |rs| && edited == rs[i := Seal(hash, forged)]
    && forged.seqNo == rs[i].payload.seqNo && forged.prevHash == rs[i].payload.prevHash
  }

  lemma ResealedLinked(hash: Hasher, rs: seq<AuditRecord>, i: nat, forged: AuditPayload, edited: seq<AuditRecord>)
    requires Resealed(hash, rs, i, forged, edited)
    ensures forall k :: 0 <= k <= i ==> Linked(hash, edited, k)
  {
    assert edited[..i] == rs[..i];
    SamePrefixLinked(hash, rs, edited, i);
    assert Linked(hash, rs, i);
    assert Linked(hash, edited, i);
  }

  lemma ResealedBreaks(hash: Hasher, rs: seq<AuditRecord>, i: nat, forged: AuditPayload, edited: seq<AuditRecord>)
    requires Resealed(hash, rs, i, forged, edited) && i + 1 < |rs| && hash(forged) != rs[i].recordHash
    ensures BreaksFirstAt(hash, edited,
              BrokenLink(i + 1, rs[i + 1].payload.seqNo, rs[i].recordHash, hash(forged)))
  {
    ResealedLinked(hash, rs, i, forged, edited);
    PrefixValid(hash, edited, i + 1);
    assert Linked(hash, rs, i + 1);
  }

  lemma ForgedHashDiffers(hash: Hasher, rs: seq<AuditRecord>, i: nat, forged: AuditPayload)
    requires ValidChain(hash, rs) && i < |rs|
    requires forged != rs[i].payload && Secure(hash, iset{forged, rs[i].payload})
    ensures hash(forged) != rs[i].recordHash
  {
    assert Linked(hash, rs, i);
  }

  /** An edit that recomputes its own hash and keeps its links passes at record `i` and is
      reported by the next record; on the last record it is not reported at all. */
  lemma ResealedEditReported(hash: Hasher, rs: seq<AuditRecord>, i: nat, forged: AuditPayload)
    requires ValidChain(hash, rs) && i < |rs|
    requires forged != rs[i].payload && Secure(hash, iset{forged, rs[i].payload})
    requires forged.seqNo == rs[i].payload.seqNo && forged.prevHash == rs[i].payload.prevHash
    ensures Verdict(hash, rs[i := Seal(hash, forged)])
         == if i + 1 < |rs|
            then Some(BrokenLink(i + 1, rs[i + 1].payload.seqNo, rs[i].recordHash, hash(forged)))
            else None
    ensures HeadHash(rs[i := Seal(hash, forged)]) == HeadHash(rs) <==> i + 1 < |rs|
  {
    var edited := rs[i := Seal(hash, forged)];
    ForgedHashDiffers(hash, rs, i, forged);
    if i + 1 < |rs| {
      ResealedBreaks(hash, rs, i, forged, edited);
      BreakReported(hash, edited, BrokenLink(i + 1, rs[i + 1].payload.seqNo, rs[i].recordHash, hash(forged)));
    } else {
      ResealedLinked(hash, rs, i, forged, edited);
      FirstBreakPrecision(hash, edited);
    }
  }

  /** Deleting one record: the first of several is a bad genesis, an interior one a gap at
      its own position, and the last one leaves a valid chain with another head. */
  lemma DeletionReported(hash: Hasher, rs: seq<AuditRecord>, i: nat)
    requires ValidChain(hash, rs) && i < |rs|
    requires Secure(hash, iset{rs[0].payload, rs[i].payload})
    ensures Verdict(hash, rs[..i] + rs[i + 1..])
         == if i + 1 == |rs| then None
            else if i == 0 then Some(BadGenesis(0, rs[0].recordHash))
            else Some(SeqGap(i, rs[i].payload.seqNo, WrappingSucc(rs[i].payload.seqNo)))
  {
    var cut := rs[..i] + rs[i + 1..];
    SamePrefixLinked(hash, rs, cut, i);
    FirstBreakPrecision(hash, cut);
    PrefixValid(hash, cut, i);
    assert Linked(hash, rs, i);
    if i + 1 < |rs| {
      assert Linked(hash, rs, i + 1);
      assert cut[i] == rs[i + 1];
      assert rs[..i + 1][i] == rs[i];
      if i == 0 {
        assert BreaksFirstAt(hash, cut, BadGenesis(0, rs[0].recordHash));
      } else {
        assert BreaksFirstAt(hash, cut, SeqGap(i, rs[i].payload.seqNo, WrappingSucc(rs[i].payload.seqNo)));
      }
    }
  }

  lemma SamePrefixLinked(hash: Hasher, rs: seq<AuditRecord>, other: seq<AuditRecord>, n: nat)
    requires ValidChain(hash, rs) && n <= |rs| && n <= |other| && other[..n] == rs[..n]
    ensures forall k :: 0 <= k < n ==> Linked(hash, other, k)
  {
    forall k | 0 <= k < n ensures Linked(hash, other, k) {
      LinkedInPrefix(hash, rs, n, k);
      LinkedInPrefix(hash, other, n, k);
    }
  }

  // ------------------------------------------------------------------ equal heads

  lemma GenesisHead(hash: Hasher, universe: iset<AuditPayload>, rs: seq<AuditRecord>)
    requires Secure(hash, universe) && Within(rs, universe) && ValidChain(hash, rs)
    ensures HeadHash(rs) == GENESIS_PREV_HASH <==> rs == []
  {
    if rs != [] {
      assert Linked(hash, rs, |rs| - 1);
    }
  }

  /** Equal heads are sealed over equal payloads, so what precedes has equal heads too. */
  lemma EqualHeadsEqualLast(
    hash: Hasher, universe: iset<AuditPayload>, a: seq<AuditRecord>, b: seq<AuditRecord>, m: nat, n: nat)
    requires Secure(hash, universe) && Within(a, universe) && Within(b, universe)
    requires ValidChain(hash, a) && ValidChain(hash, b) && |a| == m + 1 && |b| == n + 1
    requires HeadHash(a) == HeadHash(b)
    ensures a[m] == b[n] && HeadHash(a[..m]) == HeadHash(b[..n])
  {
    assert Linked(hash, a, m) && Linked(hash, b, n);
  }

  lemma InitValid(hash: Hasher, universe: iset<AuditPayload>, rs: seq<AuditRecord>, n: nat)
    requires ValidChain(hash, rs) && Within(rs, universe) && n <= |rs|
    ensures ValidChain(hash, rs[..n]) && Within(rs[..n], universe)
  {
    PrefixValid(hash, rs, n);
  }

  /** Two valid chains with the same head are the same chain. So every truncation,
      extension and fully relinked rewrite changes the head. */
  lemma {:induction false} EqualHeadsEqualChains(
    hash: Hasher, universe: iset<AuditPayload>, a: seq<AuditRecord>, b: seq<AuditRecord>)
    requires Secure(hash, universe) && Within(a, universe) && Within(b, universe)
    requires ValidChain(hash, a) && ValidChain(hash, b)
    requires HeadHash(a) == HeadHash(b)
    ensures a == b
    decreases |a|
  {
    GenesisHead(hash, universe, a);
    GenesisHead(hash, universe, b);
    if a != [] {
      var m, n := |a| - 1, |b| - 1;
      EqualHeadsEqualLast(hash, universe, a, b, m, n);
      InitValid(hash, universe, a, m);
      InitValid(hash, universe, b, n);
      EqualHeadsEqualChains(hash, universe, a[..m], b[..n]);
      SameInitSameLast(a, b, m, n);
    }
  }

  lemma SameInitSameLast(a: seq<AuditRecord>, b: seq<AuditRecord>, m: nat, n: nat)
    requires |a| == m + 1 && |b| == n + 1 && a[..m] == b[..n] && a[m] == b[n]
    ensures a == b
  {
    assert a == a[..m] + [a[m]] && b == b[..n] + [b[n]];
  }

  // ------------------------------------------------------------------ building a chain

  /** The record an append adds to `rs`. */
  function NextRecord(hash: Hasher, rs: seq<AuditRecord>, entry: NewEntry, timestamp: U64): AuditRecord {
    Seal(hash, AuditPayload(Wrap(|rs|), entry, timestamp, HeadHash(rs)))
  }

  /** The chain a sequence of appends builds from nothing. */
  function BuiltBy(hash: Hasher, appends: seq<(NewEntry, U64)>): (rs: seq<AuditRecord>)
    ensures |rs| == |appends|
  {
    if appends == [] then []
    else
      var rs := BuiltBy(hash, appends[..|appends| - 1]);
      var (entry, timestamp) := appends[|appends| - 1];
      rs + [NextRecord(hash, rs, entry, timestamp)]
  }

  lemma BuiltByOneMore(hash: Hasher, appends: seq<(NewEntry, U64)>, entry: NewEntry, timestamp: U64)
    ensures var rs := BuiltBy(hash, appends);
            BuiltBy(hash, appends + [(entry, timestamp)]) == rs + [NextRecord(hash, rs, entry, timestamp)]
  {
    assert (appends + [(entry, timestamp)])[..|appends|] == appends;
  }

  ghost predicate NumberedFromZero(rs: seq<AuditRecord>) {
    forall i :: 0 <= i < |rs| ==> rs[i].payload.seqNo == Wrap(i)
  }

  lemma AppendKeepsChain(hash: Hasher, rs: seq<AuditRecord>, entry: NewEntry, timestamp: U64)
    requires ValidChain(hash, rs) && NumberedFromZero(rs)
    ensures var longer := rs + [NextRecord(hash, rs, entry, timestamp)];
            ValidChain(hash, longer) && NumberedFromZero(longer)
  {
    var longer := rs + [NextRecord(hash, rs, entry, timestamp)];
    assert longer[..|rs|] == rs;
    SamePrefixLinked(hash, rs, longer, |rs|);
    if rs != [] { WrapStep(|rs| - 1); }
    assert Linked(hash, longer, |rs|);
  }

  /** Whatever is appended, the built chain verifies, is numbered from zero without gaps,
      and carries the appended entries in order. */
  lemma {:induction false} BuiltChainVerifies(hash: Hasher, appends: seq<(NewEntry, U64)>)
    ensures var rs := BuiltBy(hash, appends);
            && ValidChain(hash, rs) && NumberedFromZero(rs)
            && forall i :: 0 <= i < |rs| ==> (rs[i].payload.entry, rs[i].payload.timestamp) == appends[i]
  {
    if appends != [] {
      var earlier := appends[..|appends| - 1];
      BuiltChainVerifies(hash, earlier);
      var (entry, timestamp) := appends[|appends| - 1];
      AppendKeepsChain(hash, BuiltBy(hash, earlier), entry, timestamp);
    }
  }

  /** The in-memory chain builder. */
  class Chain {
    const hash: Hasher
    var records: seq<AuditRecord>
    ghost var appends: seq<(NewEntry, U64)>

    ghost predicate Valid()
      reads this
    {
      records == BuiltBy(hash, appends)
    }

    constructor (hash: Hasher)
      ensures Valid() && this.hash == hash && records == []
    {
      this.hash := hash;
      records := [];
      appends := [];
    }

    method Append(entry: NewEntry, timestamp: U64) returns (record: AuditRecord)
      requires Valid()
      modifies this
      ensures Valid() && appends == old(appends) + [(entry, timestamp)]
      ensures records == old(records) + [record]
      ensures record.payload.entry == entry && record.payload.timestamp == timestamp
      ensures ValidChain(hash, records) && NumberedFromZero(records)
    {
      var prevHash := if |records| > 0 then records[|records| - 1].recordHash else GENESIS_PREV_HASH;
      record := Seal(hash, AuditPayload(Wrap(|records|), entry, timestamp, prevHash));
      assert record == NextRecord(hash, records, entry, timestamp);
      records := records + [record];
      BuiltByOneMore(hash, appends, entry, timestamp);
      appends := appends + [(entry, timestamp)];
      BuiltChainVerifies(hash, appends);
    }

    method Verify() returns (result: Option<ChainBreak>)
      requires Valid()
      ensures result.None?
    {
      BuiltChainVerifies(hash, appends);
      result := VerifyChain(hash, records);
    }
  }
}
