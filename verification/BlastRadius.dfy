/** The blast-radius record a dry run produces, its assembly from a measurement
    (crates/core/src/blast_radius.rs, crates/clone-orchestrator/src/dry_run.rs), and the
    key order in which ordered maps are walked. */
module BlastRadius {
  import opened Prelude

  type Relation = string

  datatype WriteKind = Update | Delete

  datatype OpCounts = OpCounts(ins: U64, upd: U64, del: U64) {
    function Total(): U64 {
      SaturatingAdd(SaturatingAdd(ins, upd), del)
    }
  }

  const NO_OPS := OpCounts(0, 0, 0)

  datatype WriteCap = WriteCap(maxRows: U64, maxWalBytes: U64)

  datatype Affected = Affected(
    byTable: map<Relation, U64>,
    cascadeByTable: map<Relation, U64>,
    pkSetChecksum: map<Relation, string>,
    effectByTable: map<Relation, OpCounts>,
    totalRows: U64)

  datatype BlastRadius = BlastRadius(
    proposalId: string, cloneLsn: string, affected: Affected,
    durationMs: U64, walBytes: U64, reversible: bool)

  // ------------------------------------------------------------------ key order

  /** Lexicographic order of names, the order an ordered map yields its keys in. */
  predicate Precedes(a: string, b: string) {
    b != [] && (a == [] || a[0] < b[0] || (a[0] == b[0] && Precedes(a[1..], b[1..])))
  }

  lemma {:induction false} PrecedesTransitive(a: string, b: string, c: string)
    requires Precedes(a, b) && Precedes(b, c)
    ensures Precedes(a, c)
  {
    if a != [] && a[0] == b[0] == c[0] {
      PrecedesTransitive(a[1..], b[1..], c[1..]);
    }
  }

  lemma {:induction false} PrecedesTotal(a: string, b: string)
    ensures a == b || Precedes(a, b) || Precedes(b, a)
  {
    if a != [] && b != [] && a[0] == b[0] {
      PrecedesTotal(a[1..], b[1..]);
      assert a == [a[0]] + a[1..] && b == [b[0]] + b[1..];
    }
  }

  lemma {:induction false} PrecedesAsymmetric(a: string, b: string)
    requires Precedes(a, b)
    ensures !Precedes(b, a) && a != b
  {
    if a != [] && a[0] == b[0] {
      PrecedesAsymmetric(a[1..], b[1..]);
    }
  }

  predicate Leads(k: Relation, keys: set<Relation>) {
    k in keys && forall j :: j in keys && j != k ==> Precedes(k, j)
  }

  lemma {:induction false} SomeKeyLeads(keys: set<Relation>)
    requires keys != {}
    ensures exists k :: Leads(k, keys)
  {
    var k :| k in keys;
    if keys == {k} {
      assert Leads(k, keys);
    } else {
      var rest := keys - {k};
      assert keys == rest + {k};
      SomeKeyLeads(rest);
      var first :| Leads(first, rest);
      PrecedesTotal(k, first);
      if Precedes(k, first) {
        forall j | j in rest && j != first ensures Precedes(k, j) {
          PrecedesTransitive(k, first, j);
        }
        assert Leads(k, keys);
      } else {
        assert Leads(first, keys);
      }
    }
  }

  lemma OneKeyLeads(keys: set<Relation>)
    ensures forall j, k :: Leads(j, keys) && Leads(k, keys) ==> j == k
  {
    forall j, k | Precedes(j, k) ensures !Precedes(k, j) {
      PrecedesAsymmetric(j, k);
    }
  }

  function FirstKey(keys: set<Relation>): (first: Relation)
    requires keys != {}
    ensures Leads(first, keys)
  {
    SomeKeyLeads(keys);
    OneKeyLeads(keys);
    var first :| Leads(first, keys);
    first
  }

  /** The keys of an ordered map in iteration order. */
  function SortedKeys(keys: set<Relation>): (r: seq<Relation>)
    ensures forall k :: k in r <==> k in keys
    ensures forall i, j :: 0 <= i < j < |r| ==> Precedes(r[i], r[j]) && r[i] != r[j]
  {
    if keys == {} then []
    else
      var first := FirstKey(keys);
      var rest := SortedKeys(keys - {first});
      assert forall k :: k in [first] + rest <==> k == first || k in rest;
      [first] + rest
  }

  // ------------------------------------------------------------------ totals

  /** The exact number of tuples changed, as mathematics counts them. */
  function ExactTotal(counts: seq<OpCounts>): nat {
    if counts == [] then 0
    else var last := counts[|counts| - 1]; ExactTotal(counts[..|counts| - 1]) + last.ins + last.upd + last.del
  }

  /** It adds up over parts, and one relation counts its inserts, updates and deletes. */
  lemma {:induction false} ExactTotalAddsUp(a: seq<OpCounts>, b: seq<OpCounts>)
    ensures ExactTotal(a + b) == ExactTotal(a) + ExactTotal(b)
    ensures |b| == 1 ==> ExactTotal(b) == b[0].ins + b[0].upd + b[0].del
    decreases |b|
  {
    if b == [] {
      assert a + b == a;
    } else {
      var n := |b| - 1;
      ExactTotalAddsUp(a, b[..n]);
      assert (a + b)[..|a + b| - 1] == a + b[..n];
    }
  }

  /** The folded saturating total. */
  method SaturatingTotal(counts: seq<OpCounts>) returns (total: U64)
    ensures total == FoldedTotal(counts)
  {
    total := 0;
    for i := 0 to |counts|
      invariant total == FoldedTotal(counts[..i])
    {
      assert counts[..i + 1][..i] == counts[..i];
      total := SaturatingAdd(total, counts[i].Total());
    }
    assert counts[..|counts|] == counts;
  }

  function FoldedTotal(counts: seq<OpCounts>): U64 {
    if counts == [] then 0
    else SaturatingAdd(FoldedTotal(counts[..|counts| - 1]), counts[|counts| - 1].Total())
  }

  /** Saturation loses nothing below the ceiling: the fold is the true sum, cut at 2^64-1. */
  lemma {:induction false} FoldedTotalIsExact(counts: seq<OpCounts>)
    ensures FoldedTotal(counts) == if ExactTotal(counts) <= U64_MAX then ExactTotal(counts) else U64_MAX
  {
    if counts != [] {
      FoldedTotalIsExact(counts[..|counts| - 1]);
    }
  }

  /** The values of a per-relation map in key order. */
  function InKeyOrder<V>(m: map<Relation, V>, keys: seq<Relation>): (r: seq<V>)
    requires forall k :: k in keys ==> k in m
    ensures |r| == |keys| && forall i :: 0 <= i < |r| ==> r[i] == m[keys[i]]
  {
    if keys == [] then [] else [m[keys[0]]] + InKeyOrder(m, keys[1..])
  }

  function Values<V>(m: map<Relation, V>): seq<V> {
    InKeyOrder(m, SortedKeys(m.Keys))
  }

  function Sum(rows: seq<U64>): nat {
    if rows == [] then 0 else rows[0] + Sum(rows[1..])
  }

  lemma {:induction false} SumAddsUp(a: seq<U64>, b: seq<U64>)
    ensures Sum(a + b) == Sum(a) + Sum(b)
    ensures |b| == 1 ==> Sum(b) == b[0]
  {
    if a == [] {
      assert a + b == b;
    } else {
      SumAddsUp(a[1..], b);
      assert (a + b)[1..] == a[1..] + b;
    }
  }

  /** `predicted_total_tuples`: the measured footprint, or the row counts when it is zero. */
  function PredictedTotalTuples(affected: Affected): U64 {
    PredictedFrom(Values(affected.effectByTable), Values(affected.byTable), Values(affected.cascadeByTable))
  }

  function PredictedFrom(effects: seq<OpCounts>, rows: seq<U64>, cascaded: seq<U64>): U64 {
    var measured := FoldedTotal(effects);
    if measured != 0 then measured else SaturatingAdd(Wrap(Sum(rows)), Wrap(Sum(cascaded)))
  }

  /** A count as 64 bits hold it when sums saturate. */
  function Capped(n: nat): U64 {
    if n <= U64_MAX then n else U64_MAX
  }

  lemma WrappedRows(rows: nat, cascaded: nat)
    ensures SaturatingAdd(Wrap(rows), Wrap(cascaded)) == Capped(rows % (U64_MAX + 1) + cascaded % (U64_MAX + 1))
  {
    WrapIsRemainder(rows);
    WrapIsRemainder(cascaded);
  }

  /** What is predicted from the footprint, and from the row counts when it counts nothing: the
      exact number of tuples, cut at 2^64-1, or the two sums of row counts, each modulo 2^64,
      added and cut alike. */
  ghost predicate PredictionIs(predicted: U64, effects: nat, rows: nat, cascaded: nat) {
    predicted == if effects > 0 then Capped(effects)
                 else Capped(rows % (U64_MAX + 1) + cascaded % (U64_MAX + 1))
  }

  lemma PredictedFromExactly(effects: seq<OpCounts>, rows: seq<U64>, cascaded: seq<U64>)
    ensures PredictionIs(PredictedFrom(effects, rows, cascaded), ExactTotal(effects), Sum(rows), Sum(cascaded))
  {
    FoldedTotalIsExact(effects);
    WrappedRows(Sum(rows), Sum(cascaded));
  }

  lemma PredictedExactly(affected: Affected)
    ensures PredictionIs(PredictedTotalTuples(affected), ExactTotal(Values(affected.effectByTable)),
              Sum(Values(affected.byTable)), Sum(Values(affected.cascadeByTable)))
  {
    PredictedFromExactly(
      Values(affected.effectByTable), Values(affected.byTable), Values(affected.cascadeByTable));
  }

  // ------------------------------------------------------------------ assembly

  datatype AffectedTable = AffectedTable(relation: Relation, checksum: Option<string>, rows: U64)

  datatype RelationEffect = RelationEffect(relation: Relation, counts: OpCounts)

  datatype Measurement = Measurement(
    target: AffectedTable, cascades: seq<AffectedTable>, fullEffect: seq<RelationEffect>,
    durationMs: U64, walBytes: U64, cloneLsn: string)

  datatype DryRunError =
    | Volatile | NotRehearsable | NotSelfDetermined | PkLess(relation: Relation) | Expired | DryRunBackend

  /** The footprint of `n` rows written by `kind`. */
  function OpCountsOf(kind: WriteKind, n: U64): OpCounts {
    match kind
    case Update => OpCounts(0, n, 0)
    case Delete => OpCounts(0, 0, n)
  }

  ghost predicate Keyed(m: Measurement) {
    m.target.checksum.Some? && forall i :: 0 <= i < |m.cascades| ==> m.cascades[i].checksum.Some?
  }

  /** The measured footprint, or one synthesized from target and cascades by op type. */
  function Effects(kind: WriteKind, m: Measurement): seq<RelationEffect> {
    if m.fullEffect != [] then m.fullEffect
    else [RelationEffect(m.target.relation, OpCountsOf(kind, m.target.rows))] + CascadeEffects(kind, m.cascades)
  }

  function CascadeEffects(kind: WriteKind, cascades: seq<AffectedTable>): (r: seq<RelationEffect>)
    ensures |r| == |cascades|
    ensures forall i :: 0 <= i < |r| ==>
              r[i] == RelationEffect(cascades[i].relation, OpCountsOf(kind, cascades[i].rows))
  {
    if cascades == [] then []
    else
      var last := cascades[|cascades| - 1];
      CascadeEffects(kind, cascades[..|cascades| - 1]) + [RelationEffect(last.relation, OpCountsOf(kind, last.rows))]
  }

  /** Later entries for one relation replace earlier ones, as map insertion does. */
  function EffectMap(effects: seq<RelationEffect>): map<Relation, OpCounts> {
    if effects == [] then map[]
    else
      var last := effects[|effects| - 1];
      EffectMap(effects[..|effects| - 1])[last.relation := last.counts]
  }

  /** Every measured relation is recorded, with the counts of its last entry. */
  lemma {:induction false} EffectRecorded(effects: seq<RelationEffect>, i: nat)
    requires i < |effects|
    ensures effects[i].relation in EffectMap(effects)
    ensures (forall j :: i < j < |effects| ==> effects[j].relation != effects[i].relation)
            ==> EffectMap(effects)[effects[i].relation] == effects[i].counts
  {
    if i < |effects| - 1 {
      EffectRecorded(effects[..|effects| - 1], i);
    }
  }

  /** Nothing else is recorded. */
  lemma {:induction false} OnlyEffectsRecorded(effects: seq<RelationEffect>, rel: Relation)
    requires rel in EffectMap(effects)
    ensures exists i :: 0 <= i < |effects| && effects[i].relation == rel
  {
    var last := |effects| - 1;
    if effects[last].relation != rel {
      OnlyEffectsRecorded(effects[..last], rel);
    }
  }

  /** Rows per cascade relation; a relation listed twice keeps its last entry. */
  function CascadeRowMap(cascades: seq<AffectedTable>): (r: map<Relation, U64>)
    ensures forall k :: k in r <==> exists i :: 0 <= i < |cascades| && cascades[i].relation == k
  {
    if cascades == [] then map[]
    else var last := cascades[|cascades| - 1]; CascadeRowMap(cascades[..|cascades| - 1])[last.relation := last.rows]
  }

  /** Key-set checksums of the target and the cascades, later entries last. */
  function ChecksumMap(target: AffectedTable, cascades: seq<AffectedTable>): (r: map<Relation, string>)
    ensures target.checksum.Some? ==> target.relation in r
    ensures forall i :: 0 <= i < |cascades| && cascades[i].checksum.Some? ==> cascades[i].relation in r
  {
    if cascades == [] then
      if target.checksum.Some? then map[target.relation := target.checksum.value] else map[]
    else
      var last := cascades[|cascades| - 1];
      var earlier := ChecksumMap(target, cascades[..|cascades| - 1]);
      if last.checksum.Some? then earlier[last.relation := last.checksum.value] else earlier
  }

  /** A cascade relation is recorded with the rows of its last listing. */
  lemma {:induction false} CascadeRowsRecorded(cascades: seq<AffectedTable>, i: nat)
    requires i < |cascades| && forall j :: i < j < |cascades| ==> cascades[j].relation != cascades[i].relation
    ensures cascades[i].relation in CascadeRowMap(cascades)
    ensures CascadeRowMap(cascades)[cascades[i].relation] == cascades[i].rows
  {
    if i < |cascades| - 1 {
      CascadeRowsRecorded(cascades[..|cascades| - 1], i);
    }
  }

  /** A keyed cascade is recorded with the checksum of its last listing. */
  lemma {:induction false} CascadeChecksumRecorded(target: AffectedTable, cascades: seq<AffectedTable>, i: nat)
    requires i < |cascades| && cascades[i].checksum.Some?
    requires forall j :: i < j < |cascades| ==> cascades[j].relation != cascades[i].relation
    ensures cascades[i].relation in ChecksumMap(target, cascades)
    ensures ChecksumMap(target, cascades)[cascades[i].relation] == cascades[i].checksum.value
  {
    if i < |cascades| - 1 {
      CascadeChecksumRecorded(target, cascades[..|cascades| - 1], i);
    }
  }

  /** A keyed target that is not also a cascade is recorded with its own checksum. */
  lemma {:induction false} TargetChecksumRecorded(target: AffectedTable, cascades: seq<AffectedTable>)
    requires target.checksum.Some? && forall j :: 0 <= j < |cascades| ==> cascades[j].relation != target.relation
    ensures target.relation in ChecksumMap(target, cascades)
    ensures ChecksumMap(target, cascades)[target.relation] == target.checksum.value
  {
    if cascades != [] {
      TargetChecksumRecorded(target, cascades[..|cascades| - 1]);
    }
  }

  /** Nothing else has a checksum. */
  lemma {:induction false} OnlyListedChecksums(target: AffectedTable, cascades: seq<AffectedTable>, rel: Relation)
    requires rel in ChecksumMap(target, cascades)
    ensures rel == target.relation || exists i :: 0 <= i < |cascades| && cascades[i].relation == rel
  {
    if cascades != [] && cascades[|cascades| - 1].relation != rel {
      OnlyListedChecksums(target, cascades[..|cascades| - 1], rel);
    }
  }

  /** Without a measured footprint, each relation's rows count on the channel of the statement:
      updates for an UPDATE, deletes for a DELETE. */
  lemma SynthesizedEffects(kind: WriteKind, m: Measurement)
    ensures m.fullEffect != [] ==> Effects(kind, m) == m.fullEffect
    ensures m.fullEffect == [] ==>
            var effects, tables := Effects(kind, m), [m.target] + m.cascades;
            && |effects| == |tables|
            && forall i :: 0 <= i < |tables| ==>
                 && effects[i].relation == tables[i].relation && effects[i].counts.ins == 0
                 && effects[i].counts.upd == (if kind == Update then tables[i].rows else 0)
                 && effects[i].counts.del == (if kind == Delete then tables[i].rows else 0)
  {
  }

  function ExactRows(tables: seq<AffectedTable>): nat {
    if tables == [] then 0 else ExactRows(tables[..|tables| - 1]) + tables[|tables| - 1].rows
  }

  lemma {:induction false} ExactRowsAddUp(a: seq<AffectedTable>, b: seq<AffectedTable>)
    ensures ExactRows(a + b) == ExactRows(a) + ExactRows(b)
    ensures |b| == 1 ==> ExactRows(b) == b[0].rows
    decreases |b|
  {
    if b == [] {
      assert a + b == a;
    } else {
      var n := |b| - 1;
      ExactRowsAddUp(a, b[..n]);
      assert (a + b)[..|a + b| - 1] == a + b[..n];
    }
  }

  /** What a record assembled from `m` holds. */
  ghost predicate AssembledFrom(b: BlastRadius, proposalId: string, kind: WriteKind, m: Measurement) {
    var exact := m.target.rows + ExactRows(m.cascades);
    && b.proposalId == proposalId && b.cloneLsn == m.cloneLsn && b.reversible
    && b.durationMs == m.durationMs && b.walBytes == m.walBytes
    && b.affected.byTable == map[m.target.relation := m.target.rows]
    && b.affected.cascadeByTable == CascadeRowMap(m.cascades)
    && b.affected.pkSetChecksum == ChecksumMap(m.target, m.cascades)
    && b.affected.effectByTable == EffectMap(Effects(kind, m))
    && b.affected.totalRows == (if exact <= U64_MAX then exact else U64_MAX)
  }

  /** `assemble`: refuse an unkeyed relation, otherwise fold the measurement into a record. */
  method Assemble(proposalId: string, kind: WriteKind, m: Measurement) returns (r: Result<BlastRadius, DryRunError>)
    ensures r.Success? <==> Keyed(m)
    ensures r.Success? ==> AssembledFrom(r.value, proposalId, kind, m)
    ensures r.Failure? && m.target.checksum.None? ==> r.error == PkLess(m.target.relation)
    ensures r.Failure? && m.target.checksum.Some? ==>
            exists i :: 0 <= i < |m.cascades| && m.cascades[i].checksum.None?
              && r.error == PkLess(m.cascades[i].relation)
                        && forall j :: 0 <= j < i ==> m.cascades[j].checksum.Some?
  {
    if m.target.checksum.None? {
      return Failure(PkLess(m.target.relation));
    }
    var byTable := map[m.target.relation := m.target.rows];
    var cascadeByTable: map<Relation, U64> := map[];
    var pkSetChecksum := map[m.target.relation := m.target.checksum.value];
    var totalRows := m.target.rows;
    for i := 0 to |m.cascades|
      invariant forall j :: 0 <= j < i ==> m.cascades[j].checksum.Some?
      invariant cascadeByTable == CascadeRowMap(m.cascades[..i])
      invariant pkSetChecksum == ChecksumMap(m.target, m.cascades[..i])
      invariant var exact := m.target.rows + ExactRows(m.cascades[..i]);
                totalRows == if exact <= U64_MAX then exact else U64_MAX
    {
      assert m.cascades[..i + 1][..i] == m.cascades[..i];
      var cascade := m.cascades[i];
      if cascade.checksum.None? {
        return Failure(PkLess(cascade.relation));
      }
      cascadeByTable := cascadeByTable[cascade.relation := cascade.rows];
      pkSetChecksum := pkSetChecksum[cascade.relation := cascade.checksum.value];
      totalRows := SaturatingAdd(totalRows, cascade.rows);
    }
    assert m.cascades[..|m.cascades|] == m.cascades;
    var effectByTable := AssembleEffects(kind, m);
    return Success(BlastRadius(proposalId, m.cloneLsn,
      Affected(byTable, cascadeByTable, pkSetChecksum, effectByTable, totalRows), m.durationMs, m.walBytes, true));
  }

  method AssembleEffects(kind: WriteKind, m: Measurement) returns (r: map<Relation, OpCounts>)
    ensures r == EffectMap(Effects(kind, m))
  {
    var effects: seq<RelationEffect> := Effects(kind, m);
    r := map[];
    for i := 0 to |effects|
      invariant r == EffectMap(effects[..i])
    {
      assert effects[..i + 1][..i] == effects[..i];
      r := r[effects[i].relation := effects[i].counts];
    }
    assert effects[..|effects|] == effects;
  }
}
