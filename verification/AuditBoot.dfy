/** The external anchor of the chain head and the verify-before-anchor boot
    (crates/audit/src/anchor.rs, crates/audit/src/boot.rs). */
module AuditBoot {
  import opened Prelude
  import opened AuditChain

  // ------------------------------------------------------------------ the anchor

  datatype HeadSignature = HeadSignature(keyId: string, tag: string)

  /** A signing capability: its key id and the keyed MAC over a head. */
  datatype Kms = Kms(keyId: string, mac: (Hash, U64, U64) -> string) {
    function SignHead(headHash: Hash, seqNo: U64, timestamp: U64): HeadSignature {
      HeadSignature(keyId, mac(headHash, seqNo, timestamp))
    }

    predicate VerifyHead(headHash: Hash, seqNo: U64, timestamp: U64, sig: HeadSignature) {
      sig.keyId == keyId && sig.tag == mac(headHash, seqNo, timestamp)
    }

    predicate Accepts(e: AnchorEntry) {
      VerifyHead(e.headHash, e.seqNo, e.timestamp, e.signature)
    }
  }

  datatype AnchorEntry = AnchorEntry(headHash: Hash, seqNo: U64, timestamp: U64, signature: HeadSignature)

  datatype AnchorError = NoAnchor | BadSignature(seqNo: U64)

  datatype AnchorVerification = Verified | HeadMismatch(anchoredHead: Hash, actualHead: Hash, anchoredSeq: U64)

  datatype BootError =
    | SinkFailed
    | WormFailed
    | ChainIntegrity(chainBreak: ChainBreak)
    | AnchorHeadMismatch(anchoredHead: Hash, actualHead: Hash, anchoredSeq: U64)
    | AnchorFailed(error: AnchorError)

  datatype AnchorRole = Owner | Verify

  /** `head_of`. */
  function HeadOf(rs: seq<AuditRecord>): (Hash, U64, U64) {
    if rs == [] then (GENESIS_PREV_HASH, 0, 0)
    else var r := rs[|rs| - 1]; (r.recordHash, r.payload.seqNo, r.payload.timestamp)
  }

  /** The signed entry that pins the head of `rs`. */
  function EntryFor(kms: Kms, rs: seq<AuditRecord>): AnchorEntry {
    var (headHash, seqNo, timestamp) := HeadOf(rs);
    AnchorEntry(headHash, seqNo, timestamp, kms.SignHead(headHash, seqNo, timestamp))
  }

  predicate Due(last: Option<U64>, interval: U64, now: U64) {
    last.None? || SaturatingSub(now, last.value) >= interval
  }

  /** The process has not published yet, or its interval has run out. */
  ghost predicate Elapsed(last: Option<U64>, interval: U64, now: U64) {
    last.None? || interval == 0 || now >= last.value + interval
  }

  /** The entry names the last record of `rs`, or genesis, under a signature of `kms`. */
  ghost predicate Pins(kms: Kms, e: AnchorEntry, rs: seq<AuditRecord>) {
    && e.headHash == (if rs == [] then GENESIS_PREV_HASH else rs[|rs| - 1].recordHash)
    && e.seqNo == (if rs == [] then 0 else rs[|rs| - 1].payload.seqNo)
    && e.timestamp == (if rs == [] then 0 else rs[|rs| - 1].payload.timestamp)
    && e.signature == HeadSignature(kms.keyId, kms.mac(e.headHash, e.seqNo, e.timestamp))
  }

  /** `after` is `before` and one entry for `rs`, if `published`; otherwise it is `before`. */
  ghost predicate LogGrows(
    kms: Kms, before: seq<AnchorEntry>, after: seq<AnchorEntry>, rs: seq<AuditRecord>, published: bool)
  {
    if published then |after| == |before| + 1 && after[..|before|] == before && Pins(kms, after[|before|], rs)
    else after == before
  }

  /** The append-only log of published heads. */
  class WormAnchor {
    var entries: seq<AnchorEntry>

    constructor ()
      ensures entries == []
    {
      entries := [];
    }

    /** Append to the file first, then to memory; a failed write publishes nothing. */
    method Append(entry: AnchorEntry, writable: bool) returns (ok: bool)
      modifies this
      ensures ok == writable
      ensures entries == if writable then old(entries) + [entry] else old(entries)
    {
      if !writable {
        return false;
      }
      entries := entries + [entry];
      return true;
    }
  }

  class Anchorer {
    const signer: Kms
    const interval: U64
    var lastAnchorAt: Option<U64>

    constructor (signer: Kms, interval: U64)
      ensures this.signer == signer && this.interval == interval && lastAnchorAt == None
    {
      this.signer := signer;
      this.interval := interval;
      lastAnchorAt := None;
    }

    /** Publish the head of `records` when the interval has elapsed. The records are not
        verified here. */
    method MaybeAnchorRecords(records: seq<AuditRecord>, now: U64, worm: WormAnchor, writable: bool)
      returns (ok: bool)
      modifies this, worm
      ensures ok == (writable || !Due(old(lastAnchorAt), interval, now))
      ensures worm.entries == Published(signer, old(worm.entries), records, old(lastAnchorAt), interval, now, writable)
      ensures var published := writable && Elapsed(old(lastAnchorAt), interval, now);
              && LogGrows(signer, old(worm.entries), worm.entries, records, published)
              && lastAnchorAt == (if published then Some(now) else old(lastAnchorAt))
      ensures ok <==> (Elapsed(old(lastAnchorAt), interval, now) ==> writable)
    {
      var due := match lastAnchorAt {
        case None => true
        case Some(prev) => SaturatingSub(now, prev) >= interval
      };
      if !due {
        return true;
      }
      var (headHash, seqNo, timestamp) := HeadOf(records);
      var signature := signer.SignHead(headHash, seqNo, timestamp);
      ok := worm.Append(AnchorEntry(headHash, seqNo, timestamp, signature), writable);
      if ok {
        lastAnchorAt := Some(now);
      }
    }
  }

  /** The log after one publication attempt over the records `rs`. */
  function Published(
    kms: Kms, entries: seq<AnchorEntry>, rs: seq<AuditRecord>,
    last: Option<U64>, interval: U64, now: U64, writable: bool): seq<AnchorEntry>
  {
    if writable && Due(last, interval, now) then entries + [EntryFor(kms, rs)] else entries
  }

  /** `verify_records_against_anchor_with`. */
  method VerifyRecordsAgainstAnchor(records: seq<AuditRecord>, entries: seq<AnchorEntry>, verifier: Kms)
    returns (result: Result<AnchorVerification, AnchorError>)
    ensures result.Success? && result.value.Verified? <==>
            entries != [] && verifier.Accepts(entries[|entries| - 1])
            && entries[|entries| - 1].headHash == HeadHash(records)
    ensures entries == [] <==> result == Failure(NoAnchor)
    ensures entries != [] && !verifier.Accepts(entries[|entries| - 1]) ==>
            result == Failure(BadSignature(entries[|entries| - 1].seqNo))
    ensures entries != [] && verifier.Accepts(entries[|entries| - 1]) ==> result.Success?
    ensures result.Success? && result.value.HeadMismatch? ==>
            result.value == HeadMismatch(entries[|entries| - 1].headHash, HeadHash(records),
              entries[|entries| - 1].seqNo)
  {
    if |entries| == 0 {
      return Failure(NoAnchor);
    }
    var anchor := entries[|entries| - 1];
    if !verifier.VerifyHead(anchor.headHash, anchor.seqNo, anchor.timestamp, anchor.signature) {
      return Failure(BadSignature(anchor.seqNo));
    }
    var (actualHead, _, _) := HeadOf(records);
    if actualHead == anchor.headHash {
      return Success(Verified);
    }
    return Success(HeadMismatch(anchor.headHash, actualHead, anchor.seqNo));
  }

  // ------------------------------------------------------------------ the boot

  /** What the fail-closed verification of persisted records against the log says. */
  function BootVerdict(hash: Hasher, kms: Kms, rs: seq<AuditRecord>, entries: seq<AnchorEntry>): Option<BootError> {
    var broken := Verdict(hash, rs);
    if broken.Some? then Some(ChainIntegrity(broken.value))
    else if entries == [] then None
    else
      var latest := entries[|entries| - 1];
      if !kms.Accepts(latest) then Some(AnchorFailed(BadSignature(latest.seqNo)))
      else if latest.headHash == HeadHash(rs) then None
      else Some(AnchorHeadMismatch(latest.headHash, HeadHash(rs), latest.seqNo))
  }

  /** Which of the environment's fallible operations succeed during a call. */
  datatype Io = Io(readable: bool, writable: bool)

  /** The result and the log of a boot over the persisted records `rs`. */
  function BootResult(
    hash: Hasher, kms: Kms, rs: seq<AuditRecord>, entries: seq<AnchorEntry>,
    role: AnchorRole, last: Option<U64>, interval: U64, now: U64, io: Io): (Option<BootError>, seq<AnchorEntry>)
  {
    if !io.readable then (Some(SinkFailed), entries)
    else if BootVerdict(hash, kms, rs, entries).Some? then (BootVerdict(hash, kms, rs, entries), entries)
    else if role.Verify? then (None, entries)
    else if Due(last, interval, now) && !io.writable then (Some(WormFailed), entries)
    else (None, Published(kms, entries, rs, last, interval, now, io.writable))
  }

  /** The records are a valid chain, and its head is the one the latest entry signs, if any. */
  ghost predicate Attested(hash: Hasher, kms: Kms, rs: seq<AuditRecord>, entries: seq<AnchorEntry>) {
    && ValidChain(hash, rs)
    && (entries != [] ==>
        var latest := entries[|entries| - 1];
        && latest.signature == HeadSignature(kms.keyId, kms.mac(latest.headHash, latest.seqNo, latest.timestamp))
        && latest.headHash == (if rs == [] then GENESIS_PREV_HASH else rs[|rs| - 1].recordHash))
  }

  /** What a boot does: it is accepted exactly when the records can be read, are attested, and
      an owner whose interval has run out can write; then and only then an owner whose interval
      has run out adds one entry for the records. */
  lemma BootExactly(
    hash: Hasher, kms: Kms, rs: seq<AuditRecord>, entries: seq<AnchorEntry>,
    role: AnchorRole, last: Option<U64>, interval: U64, now: U64, io: Io)
    ensures var (err, after) := BootResult(hash, kms, rs, entries, role, last, interval, now, io);
            var publishes := io.readable && Attested(hash, kms, rs, entries) && role == Owner
              && Elapsed(last, interval, now);
            && (err.None? <==> io.readable && Attested(hash, kms, rs, entries) && (publishes ==> io.writable))
            && LogGrows(kms, entries, after, rs, publishes && io.writable)
  {
    FirstBreakPrecision(hash, rs);
  }

  /** Why a boot refuses: it names the first break, the entry it cannot verify, or the two heads
      that differ. */
  lemma BootSaysWhy(
    hash: Hasher, kms: Kms, rs: seq<AuditRecord>, entries: seq<AnchorEntry>,
    role: AnchorRole, last: Option<U64>, interval: U64, now: U64, io: Io)
    requires BootResult(hash, kms, rs, entries, role, last, interval, now, io).0.Some?
    ensures match BootResult(hash, kms, rs, entries, role, last, interval, now, io).0.value
            case SinkFailed => !io.readable
            case ChainIntegrity(b) => io.readable && BreaksFirstAt(hash, rs, b)
            case AnchorFailed(e) =>
              && io.readable && ValidChain(hash, rs) && entries != [] && e == BadSignature(entries[|entries| - 1].seqNo)
              && var latest := entries[|entries| - 1];
                 latest.signature != HeadSignature(kms.keyId, kms.mac(latest.headHash, latest.seqNo, latest.timestamp))
            case AnchorHeadMismatch(anchored, actual, seqNo) =>
              && io.readable && ValidChain(hash, rs) && entries != [] && actual == HeadHash(rs) && anchored != actual
              && anchored == entries[|entries| - 1].headHash && seqNo == entries[|entries| - 1].seqNo
            case WormFailed =>
              && io.readable && Attested(hash, kms, rs, entries)
              && role == Owner && Elapsed(last, interval, now) && !io.writable
  {
    FirstBreakPrecision(hash, rs);
  }

  /** When the anchorer of a process that ticked at `ticks`, all of them writable, last
      published. */
  function MarkAfter(interval: U64, ticks: seq<U64>): Option<U64> {
    if ticks == [] then None
    else
      var earlier, now := MarkAfter(interval, ticks[..|ticks| - 1]), ticks[|ticks| - 1];
      if Due(earlier, interval, now) then Some(now) else earlier
  }

  /** After every tick of a process whose clock does not go back, the head it published last is
      less than an interval old. */
  lemma {:induction false} AnchorIsNeverStale(interval: U64, ticks: seq<U64>)
    requires ticks != [] && forall i, j :: 0 <= i < j < |ticks| ==> ticks[i] <= ticks[j]
    ensures var mark, now := MarkAfter(interval, ticks), ticks[|ticks| - 1];
            mark.Some? && mark.value <= now && (now < mark.value + interval || interval == 0)
  {
    if |ticks| > 1 {
      AnchorIsNeverStale(interval, ticks[..|ticks| - 1]);
    }
  }

  /** The shared sink, as a boot sees it: the persisted records. */
  class Sink {
    var records: seq<AuditRecord>

    constructor (records: seq<AuditRecord>)
      ensures this.records == records
    {
      this.records := records;
    }
  }

  class AuditBoot {
    const hash: Hasher
    const verifier: Kms
    const sink: Sink
    const worm: WormAnchor
    const anchorer: Anchorer

    constructor (hash: Hasher, sink: Sink, worm: WormAnchor, signer: Kms, interval: U64)
      ensures Valid() && this.hash == hash && this.sink == sink && this.worm == worm && verifier == signer
      ensures anchorer.interval == interval && anchorer.lastAnchorAt == None && fresh(anchorer)
    {
      this.hash := hash;
      this.sink := sink;
      this.worm := worm;
      this.verifier := signer;
      this.anchorer := new Anchorer(signer, interval);
    }

    ghost predicate Valid() {
      anchorer.signer == verifier
    }

    method AssertHeadMatchesDurableAnchor(records: seq<AuditRecord>) returns (err: Option<BootError>)
      requires worm.entries != []
      requires Verdict(hash, records).None?
      ensures err == BootVerdict(hash, verifier, records, worm.entries)
    {
      var checked := VerifyRecordsAgainstAnchor(records, worm.entries, verifier);
      match checked {
        case Failure(e) => return Some(AnchorFailed(e));
        case Success(Verified) => return None;
        case Success(HeadMismatch(anchored, actual, seqNo)) => return Some(AnchorHeadMismatch(anchored, actual, seqNo));
      }
    }

    /** Verify the persisted chain against the prior durable head; only then anchor forward. */
    method VerifyThenAnchor(now: U64, io: Io) returns (err: Option<BootError>)
      requires Valid()
      modifies worm, anchorer
      ensures (err, worm.entries) == BootResult(hash, verifier, old(sink.records), old(worm.entries),
                Owner, old(anchorer.lastAnchorAt), anchorer.interval, now, io)
      ensures anchorer.lastAnchorAt ==
              if |worm.entries| > old(|worm.entries|) then Some(now) else old(anchorer.lastAnchorAt)
    {
      if !io.readable {
        return Some(SinkFailed);
      }
      var records := sink.records;
      var broken := VerifyChain(hash, records);
      if broken.Some? {
        return Some(ChainIntegrity(broken.value));
      }
      if |worm.entries| > 0 {
        err := AssertHeadMatchesDurableAnchor(records);
        if err.Some? {
          return;
        }
      }
      var ok := anchorer.MaybeAnchorRecords(records, now, worm, io.writable);
      if !ok {
        return Some(WormFailed);
      }
      return None;
    }

    /** The same checks, never anchoring. */
    method VerifyOnly(io: Io) returns (err: Option<BootError>)
      requires Valid()
      ensures (err, worm.entries) == BootResult(hash, verifier, sink.records, worm.entries,
                Verify, anchorer.lastAnchorAt, anchorer.interval, 0, io)
    {
      if !io.readable {
        return Some(SinkFailed);
      }
      var records := sink.records;
      var broken := VerifyChain(hash, records);
      if broken.Some? {
        return Some(ChainIntegrity(broken.value));
      }
      if |worm.entries| > 0 {
        err := AssertHeadMatchesDurableAnchor(records);
      } else {
        err := None;
      }
    }

    method Boot(role: AnchorRole, now: U64, io: Io) returns (err: Option<BootError>)
      requires Valid()
      modifies worm, anchorer
      ensures (err, worm.entries) == BootResult(hash, verifier, old(sink.records), old(worm.entries),
                role, old(anchorer.lastAnchorAt), anchorer.interval, now, io)
      ensures anchorer.lastAnchorAt ==
              if |worm.entries| > old(|worm.entries|) then Some(now) else old(anchorer.lastAnchorAt)
    {
      match role {
        case Owner => err := VerifyThenAnchor(now, io);
        case Verify => err := VerifyOnly(io);
      }
    }

    /** The interval tick: publish the head now in the sink, without verifying it. */
    method MaybeAnchor(now: U64, io: Io) returns (err: Option<BootError>)
      requires Valid()
      modifies worm, anchorer
      ensures worm.entries == if io.readable
                then Published(verifier, old(worm.entries), old(sink.records), old(anchorer.lastAnchorAt),
                  anchorer.interval, now, io.writable)
                else old(worm.entries)
      ensures err.None? <==> io.readable && (io.writable || !Due(old(anchorer.lastAnchorAt), anchorer.interval, now))
      ensures var published := io.readable && io.writable
                && Elapsed(old(anchorer.lastAnchorAt), anchorer.interval, now);
              && LogGrows(verifier, old(worm.entries), worm.entries, old(sink.records), published)
              && anchorer.lastAnchorAt == (if published then Some(now) else old(anchorer.lastAnchorAt))
      ensures err == if !io.readable then Some(SinkFailed)
                     else if Elapsed(old(anchorer.lastAnchorAt), anchorer.interval, now) && !io.writable
                     then Some(WormFailed) else None
    {
      if !io.readable {
        return Some(SinkFailed);
      }
      var ok := anchorer.MaybeAnchorRecords(sink.records, now, worm, io.writable);
      if !ok {
        return Some(WormFailed);
      }
      return None;
    }
  }

  // ------------------------------------------------------------------ runs

  /** What happens to the shared chain and the durable log over time. The process that
      ticks or boots is described by when its anchorer last published. */
  datatype Event =
    | Appended(entry: NewEntry, timestamp: U64)
    | Rewritten(records: seq<AuditRecord>)
    | Ticked(last: Option<U64>, interval: U64, now: U64, io: Io)
    | Booted(role: AnchorRole, last: Option<U64>, interval: U64, now: U64, io: Io)

  /** `pinned[i]` is the chain that was in the sink when entry `i` was published. */
  datatype World = World(chain: seq<AuditRecord>, entries: seq<AnchorEntry>, pinned: seq<seq<AuditRecord>>)

  function Publish(w: World, entries: seq<AnchorEntry>): World {
    w.(entries := entries, pinned := if |entries| > |w.entries| then w.pinned + [w.chain] else w.pinned)
  }

  function Happens(hash: Hasher, kms: Kms, w: World, e: Event): World {
    match e
    case Appended(entry, timestamp) => w.(chain := w.chain + [NextRecord(hash, w.chain, entry, timestamp)])
    case Rewritten(records) => w.(chain := records)
    case Ticked(last, interval, now, io) =>
      if io.readable then Publish(w, Published(kms, w.entries, w.chain, last, interval, now, io.writable)) else w
    case Booted(role, last, interval, now, io) =>
      Publish(w, BootResult(hash, kms, w.chain, w.entries, role, last, interval, now, io).1)
  }

  function WorldAfter(hash: Hasher, kms: Kms, w: World, events: seq<Event>): World {
    if events == [] then w
    else Happens(hash, kms, WorldAfter(hash, kms, w, events[..|events| - 1]), events[|events| - 1])
  }

  /** Every published entry is a genuine signature over the head of the chain it pinned. */
  ghost predicate Genuine(kms: Kms, w: World) {
    && |w.pinned| == |w.entries|
    && forall i :: 0 <= i < |w.entries| ==>
         kms.Accepts(w.entries[i]) && w.entries[i].headHash == HeadHash(w.pinned[i])
  }

  lemma EventKeepsGenuine(hash: Hasher, kms: Kms, w: World, e: Event)
    requires Genuine(kms, w)
    ensures Genuine(kms, Happens(hash, kms, w, e))
    ensures w.entries <= Happens(hash, kms, w, e).entries
  {
    match e
    case Appended(_, _) =>
    case Rewritten(_) =>
    case Ticked(last, interval, now, io) =>
      PublishKeepsGenuine(kms, w, last, interval, now, io.writable);
    case Booted(role, last, interval, now, io) =>
      PublishKeepsGenuine(kms, w, last, interval, now, io.writable);
      OnlyAcceptedOwnerBootsPublish(hash, kms, w.chain, w.entries, role, last, interval, now, io);
  }

  lemma PublishKeepsGenuine(kms: Kms, w: World, last: Option<U64>, interval: U64, now: U64, writable: bool)
    requires Genuine(kms, w)
    ensures var w1 := Publish(w, Published(kms, w.entries, w.chain, last, interval, now, writable));
            Genuine(kms, w1) && w.entries <= w1.entries
    ensures Genuine(kms, Publish(w, w.entries + [EntryFor(kms, w.chain)]))
  {
    EntryKeepsGenuine(kms, w);
  }

  lemma EntryIsGenuine(kms: Kms, rs: seq<AuditRecord>)
    ensures kms.Accepts(EntryFor(kms, rs)) && EntryFor(kms, rs).headHash == HeadHash(rs)
  {
  }

  lemma GenuineMore(kms: Kms, w: World, entry: AnchorEntry)
    requires Genuine(kms, w) && kms.Accepts(entry) && entry.headHash == HeadHash(w.chain)
    ensures Genuine(kms, Publish(w, w.entries + [entry]))
  {
  }

  lemma EntryKeepsGenuine(kms: Kms, w: World)
    requires Genuine(kms, w)
    ensures Genuine(kms, Publish(w, w.entries + [EntryFor(kms, w.chain)]))
  {
    EntryIsGenuine(kms, w.chain);
    GenuineMore(kms, w, EntryFor(kms, w.chain));
  }

  lemma {:induction false} RunKeepsGenuine(hash: Hasher, kms: Kms, w: World, events: seq<Event>)
    requires Genuine(kms, w)
    ensures Genuine(kms, WorldAfter(hash, kms, w, events))
  {
    if events != [] {
      var earlier := events[..|events| - 1];
      RunKeepsGenuine(hash, kms, w, earlier);
      EventKeepsGenuine(hash, kms, WorldAfter(hash, kms, w, earlier), events[|events| - 1]);
    }
  }

  /** After any mixture of honest appends, interval anchors, offline rewrites and boots, a
      boot over a log whose last entry pinned a chain that verified succeeds exactly when
      the persisted chain is that chain, record for record. Otherwise it refuses, whatever
      the role, and says the chain is broken or its head is not the pinned one. */
  lemma BootAcceptsExactlyTheAnchoredChain(
    hash: Hasher, kms: Kms, universe: iset<AuditPayload>, start: seq<AuditRecord>, events: seq<Event>,
    role: AnchorRole, last: Option<U64>, interval: U64, now: U64)
    requires Secure(hash, universe)
    requires var w := WorldAfter(hash, kms, World(start, [], []), events);
             && w.pinned != [] && ValidChain(hash, w.pinned[|w.pinned| - 1])
             && Within(w.pinned[|w.pinned| - 1], universe) && Within(w.chain, universe)
    ensures var w := WorldAfter(hash, kms, World(start, [], []), events);
            var err := BootResult(hash, kms, w.chain, w.entries, role, last, interval, now, Io(true, true)).0;
            && (err == None <==> w.chain == w.pinned[|w.pinned| - 1])
            && (err != None ==> err.value.ChainIntegrity? || err.value.AnchorHeadMismatch?)
  {
    RunKeepsGenuine(hash, kms, World(start, [], []), events);
    GenuineBootAcceptsExactly(hash, kms, universe, WorldAfter(hash, kms, World(start, [], []), events), role, last,
      interval, now);
  }

  lemma GenuineBootAcceptsExactly(
    hash: Hasher, kms: Kms, universe: iset<AuditPayload>, w: World,
    role: AnchorRole, last: Option<U64>, interval: U64, now: U64)
    requires Secure(hash, universe) && Genuine(kms, w) && w.pinned != []
    requires ValidChain(hash, w.pinned[|w.pinned| - 1])
    requires Within(w.pinned[|w.pinned| - 1], universe) && Within(w.chain, universe)
    ensures var err := BootResult(hash, kms, w.chain, w.entries, role, last, interval, now, Io(true, true)).0;
            && (err == None <==> w.chain == w.pinned[|w.pinned| - 1])
            && (err != None ==> err.value.ChainIntegrity? || err.value.AnchorHeadMismatch?)
            && (err != None && ValidChain(hash, w.chain) ==> err.value.AnchorHeadMismatch?)
  {
    PinnedVerdict(hash, kms, universe, w.chain, w.entries, w.pinned[|w.pinned| - 1]);
  }

  lemma PinnedVerdict(
    hash: Hasher, kms: Kms, universe: iset<AuditPayload>, rs: seq<AuditRecord>, entries: seq<AnchorEntry>,
    pinned: seq<AuditRecord>)
    requires Secure(hash, universe) && ValidChain(hash, pinned) && Within(pinned, universe) && Within(rs, universe)
    requires entries != [] && kms.Accepts(entries[|entries| - 1])
    requires entries[|entries| - 1].headHash == HeadHash(pinned)
    ensures var err := BootVerdict(hash, kms, rs, entries);
            && (err == None <==> rs == pinned)
            && (err != None ==> err.value.ChainIntegrity? || err.value.AnchorHeadMismatch?)
            && (err != None && ValidChain(hash, rs) ==> err.value.AnchorHeadMismatch?)
  {
    FirstBreakPrecision(hash, rs);
    if ValidChain(hash, rs) && HeadHash(rs) == HeadHash(pinned) {
      EqualHeadsEqualChains(hash, universe, rs, pinned);
    }
  }

  /** A refused boot and every boot in the verify role leave the published log as it was;
      an accepted owner boot adds at most the entry for the chain it verified. */
  lemma OnlyAcceptedOwnerBootsPublish(
    hash: Hasher, kms: Kms, rs: seq<AuditRecord>, entries: seq<AnchorEntry>,
    role: AnchorRole, last: Option<U64>, interval: U64, now: U64, io: Io)
    ensures var (err, after) := BootResult(hash, kms, rs, entries, role, last, interval, now, io);
            && (err != None || role == Verify ==> after == entries)
            && (after != entries ==> after == entries + [EntryFor(kms, rs)] && ValidChain(hash, rs))
            && (after != entries && entries != [] ==> HeadHash(rs) == entries[|entries| - 1].headHash)
  {
    FirstBreakPrecision(hash, rs);
  }

  lemma OneEventPublishes(hash: Hasher, kms: Kms, w: World, events: seq<Event>, e: Event)
    requires Genuine(kms, w)
    ensures WorldAfter(hash, kms, w, events).entries <= WorldAfter(hash, kms, w, events + [e]).entries
  {
    RunKeepsGenuine(hash, kms, w, events);
    EventKeepsGenuine(hash, kms, WorldAfter(hash, kms, w, events), e);
    WorldStep(hash, kms, w, events, e);
  }

  /** Over every run the published log only grows at its end. */
  lemma {:induction false} PublishedStaysPublished(
    hash: Hasher, kms: Kms, w: World, events: seq<Event>, more: seq<Event>)
    requires Genuine(kms, w)
    ensures WorldAfter(hash, kms, w, events).entries <= WorldAfter(hash, kms, w, events + more).entries
    decreases |more|
  {
    if more == [] {
      assert events + more == events;
    } else {
      var n := |more| - 1;
      PublishedStaysPublished(hash, kms, w, events, more[..n]);
      OneEventPublishes(hash, kms, w, events + more[..n], more[n]);
      SameEvents(events, more[..n], more[n]);
      assert more == more[..n] + [more[n]];
      PrefixTransitive(WorldAfter(hash, kms, w, events).entries, WorldAfter(hash, kms, w, events + more[..n]).entries,
        WorldAfter(hash, kms, w, events + more).entries);
    }
  }

  lemma WorldStep(hash: Hasher, kms: Kms, w: World, events: seq<Event>, e: Event)
    ensures WorldAfter(hash, kms, w, events + [e]) == Happens(hash, kms, WorldAfter(hash, kms, w, events), e)
  {
    assert (events + [e])[..|events|] == events;
  }

  /** Honest appends, one event each. */
  function Appendings(appends: seq<(NewEntry, U64)>): (r: seq<Event>)
    ensures |r| == |appends|
  {
    if appends == [] then []
    else
      var (entry, timestamp) := appends[|appends| - 1];
      Appendings(appends[..|appends| - 1]) + [Appended(entry, timestamp)]
  }

  /** Honest appends publish nothing, and leave a longer chain that is valid if the first was. */
  lemma {:induction false} AppendingsGrow(hash: Hasher, kms: Kms, w: World, appends: seq<(NewEntry, U64)>)
    requires ValidChain(hash, w.chain) && NumberedFromZero(w.chain)
    ensures var w1 := WorldAfter(hash, kms, w, Appendings(appends));
            && w1.entries == w.entries && w1.pinned == w.pinned && |w1.chain| == |w.chain| + |appends|
            && ValidChain(hash, w1.chain) && NumberedFromZero(w1.chain)
  {
    if appends != [] {
      var init := appends[..|appends| - 1];
      var (entry, timestamp) := appends[|appends| - 1];
      AppendingsGrow(hash, kms, w, init);
      var mid := WorldAfter(hash, kms, w, Appendings(init));
      WorldStep(hash, kms, w, Appendings(init), Appended(entry, timestamp));
      AppendKeepsChain(hash, mid.chain, entry, timestamp);
    }
  }

  lemma SameEvents(events: seq<Event>, init: seq<Event>, last: Event)
    ensures events + (init + [last]) == events + init + [last]
  {
  }

  lemma WorldConcatStep(hash: Hasher, kms: Kms, w: World, events: seq<Event>, init: seq<Event>, last: Event)
    requires WorldAfter(hash, kms, w, events + init) ==
             WorldAfter(hash, kms, WorldAfter(hash, kms, w, events), init)
    ensures WorldAfter(hash, kms, w, events + (init + [last])) ==
            WorldAfter(hash, kms, WorldAfter(hash, kms, w, events), init + [last])
  {
    SameEvents(events, init, last);
    WorldStep(hash, kms, w, events + init, last);
    WorldStep(hash, kms, WorldAfter(hash, kms, w, events), init, last);
  }

  lemma {:induction false} WorldConcat(hash: Hasher, kms: Kms, w: World, events: seq<Event>, more: seq<Event>)
    ensures WorldAfter(hash, kms, w, events + more) == WorldAfter(hash, kms, WorldAfter(hash, kms, w, events), more)
  {
    if more == [] {
      assert events + more == events;
    } else {
      var init, last := more[..|more| - 1], more[|more| - 1];
      WorldConcat(hash, kms, w, events, init);
      WorldConcatStep(hash, kms, w, events, init, last);
      assert more == init + [last];
    }
  }

  /** The persisted chain is the one last pinned, and it verifies. */
  ghost predicate JustPinned(hash: Hasher, universe: iset<AuditPayload>, w: World) {
    && w.pinned != [] && w.chain == w.pinned[|w.pinned| - 1]
    && ValidChain(hash, w.chain) && NumberedFromZero(w.chain) && Within(w.chain, universe)
  }

  /** A boot refuses because the head is not the pinned one. */
  ghost predicate HeadRefused(
    hash: Hasher, kms: Kms, w: World, role: AnchorRole, last: Option<U64>, interval: U64, now: U64)
  {
    var err := BootResult(hash, kms, w.chain, w.entries, role, last, interval, now, Io(true, true)).0;
    err.Some? && err.value.AnchorHeadMismatch?
  }

  /** The price of pinning the head exactly: once a verified chain is anchored, any honest
      appends that no anchor follows make the next boot refuse too. */
  lemma UnanchoredAppendsRefuseBoot(
    hash: Hasher, kms: Kms, universe: iset<AuditPayload>, start: seq<AuditRecord>, events: seq<Event>,
    appends: seq<(NewEntry, U64)>, role: AnchorRole, last: Option<U64>, interval: U64, now: U64)
    requires Secure(hash, universe) && appends != []
    requires JustPinned(hash, universe, WorldAfter(hash, kms, World(start, [], []), events))
    requires Within(WorldAfter(hash, kms, World(start, [], []), events + Appendings(appends)).chain, universe)
    ensures HeadRefused(hash, kms, WorldAfter(hash, kms, World(start, [], []), events + Appendings(appends)),
              role, last, interval, now)
  {
    RunKeepsGenuine(hash, kms, World(start, [], []), events);
    AppendingsRefuseLater(hash, kms, universe, World(start, [], []), events, appends, role, last, interval, now);
  }

  lemma AppendingsRefuseLater(
    hash: Hasher, kms: Kms, universe: iset<AuditPayload>, first: World, events: seq<Event>,
    appends: seq<(NewEntry, U64)>, role: AnchorRole, last: Option<U64>, interval: U64, now: U64)
    requires Secure(hash, universe) && appends != [] && Genuine(kms, WorldAfter(hash, kms, first, events))
    requires JustPinned(hash, universe, WorldAfter(hash, kms, first, events))
    requires Within(WorldAfter(hash, kms, first, events + Appendings(appends)).chain, universe)
    ensures HeadRefused(hash, kms, WorldAfter(hash, kms, first, events + Appendings(appends)),
              role, last, interval, now)
  {
    WorldConcat(hash, kms, first, events, Appendings(appends));
    AppendingsRefuseBoot(hash, kms, universe, WorldAfter(hash, kms, first, events), appends,
      WorldAfter(hash, kms, first, events + Appendings(appends)), role, last, interval, now);
  }

  lemma AppendingsRefuseBoot(
    hash: Hasher, kms: Kms, universe: iset<AuditPayload>, w: World, appends: seq<(NewEntry, U64)>, longer: World,
    role: AnchorRole, last: Option<U64>, interval: U64, now: U64)
    requires Secure(hash, universe) && Genuine(kms, w) && appends != [] && JustPinned(hash, universe, w)
    requires longer == WorldAfter(hash, kms, w, Appendings(appends)) && Within(longer.chain, universe)
    ensures HeadRefused(hash, kms, longer, role, last, interval, now)
  {
    AppendingsGrow(hash, kms, w, appends);
    LongerRefusesBoot(hash, kms, universe, w, longer, role, last, interval, now);
  }

  lemma LongerRefusesBoot(
    hash: Hasher, kms: Kms, universe: iset<AuditPayload>, w: World, longer: World,
    role: AnchorRole, last: Option<U64>, interval: U64, now: U64)
    requires Secure(hash, universe) && Genuine(kms, w) && w.pinned != [] && w.chain == w.pinned[|w.pinned| - 1]
    requires longer.entries == w.entries && longer.pinned == w.pinned && |longer.chain| > |w.chain|
    requires ValidChain(hash, w.chain) && ValidChain(hash, longer.chain)
    requires Within(w.chain, universe) && Within(longer.chain, universe)
    ensures var err := BootResult(hash, kms, longer.chain, longer.entries, role, last, interval, now, Io(true, true)).0;
            err.Some? && err.value.AnchorHeadMismatch?
  {
    GenuineBootAcceptsExactly(hash, kms, universe, longer, role, last, interval, now);
  }
}
