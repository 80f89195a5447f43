/** The Postgres audit sink (crates/audit/src/pg.rs): any number of processes append to one
    table, each append being one transaction of lock, read head, insert, commit. The
    transaction-scoped advisory lock is modelled as a lock that every end of a transaction
    releases; a statement sees the rows committed before it starts (READ COMMITTED). */
module PgSink {
  import opened Prelude
  import opened AuditChain

  type Pid = nat

  const BIGINT_LIMIT: int := 0x8000_0000_0000_0000

  /** The values the `seq bigint CHECK (seq >= 0)` column accepts. */
  type BigSeq = x: int | 0 <= x < BIGINT_LIMIT

  type Table = map<BigSeq, AuditRecord>

  /** Where one process stands in its append. `ticket` numbers the lock grants. */
  datatype Phase =
    | Idle
    | Waiting(entry: NewEntry, timestamp: U64)
    | Locked(entry: NewEntry, timestamp: U64, ticket: nat)
    | HeadRead(entry: NewEntry, timestamp: U64, ticket: nat, nextSeq: U64, prevHash: Hash)
    | Inserted(entry: NewEntry, timestamp: U64, ticket: nat, row: AuditRecord)
    | Unacknowledged(done: Committal)

  /** One append whose transaction the server committed. */
  datatype Committal = Committal(pid: Pid, entry: NewEntry, timestamp: U64, ticket: nat, row: AuditRecord)

  /** `commits` are the committed appends in order, `acks` those whose process was told so. */
  datatype State = State(
    table: Table, lock: Option<Pid>, phases: map<Pid, Phase>, tickets: nat,
    commits: seq<Committal>, acks: seq<Committal>)

  function PhaseOf(s: State, p: Pid): Phase {
    if p in s.phases then s.phases[p] else Idle
  }

  predicate InTransaction(phase: Phase) {
    phase.Locked? || phase.HeadRead? || phase.Inserted?
  }

  const INIT := State(map[], None, map[], 0, [], [])

  /** The greatest stored sequence number. */
  ghost function MaxSeq(keys: set<BigSeq>): (m: BigSeq)
    requires keys != {}
    ensures m in keys && forall k :: k in keys ==> k <= m
  {
    var k :| k in keys;
    if keys == {k} then k
    else
      var rest := keys - {k};
      assert keys == rest + {k};
      var m := MaxSeq(rest);
      if m < k then k else m
  }

  /** `head_in_txn`: the next sequence number and the hash to link to. */
  ghost function HeadInTxn(table: Table): (U64, Hash) {
    if table == map[] then (0, GENESIS_PREV_HASH)
    else
      assert table.Keys != {};
      (MaxSeq(table.Keys) + 1, table[MaxSeq(table.Keys)].recordHash)
  }

  /** `load_chain_mut`: the rows in order of their sequence numbers. */
  ghost function LoadChain(table: Table): seq<AuditRecord>
    decreases |table|
  {
    if table == map[] then []
    else
      assert table.Keys != {};
      var m := MaxSeq(table.Keys);
      assert (table - {m}).Keys == table.Keys - {m};
      LoadChain(table - {m}) + [table[m]]
  }

  /** The three table constraints, on the row an append would add: the cast sequence number
      is not negative, and neither it nor the hash is taken. */
  ghost predicate Insertable(table: Table, nextSeq: U64, row: AuditRecord) {
    && nextSeq < BIGINT_LIMIT && nextSeq !in table
    && forall k :: k in table ==> table[k].recordHash != row.recordHash
  }

  datatype Step =
    | Begin(pid: Pid, entry: NewEntry, timestamp: U64)
    | Acquire(pid: Pid)
    | ReadHead(pid: Pid)
    | Insert(pid: Pid)
    | Commit(pid: Pid)
    | Acknowledge(pid: Pid)
    | Abort(pid: Pid)

  function SetPhase(s: State, p: Pid, phase: Phase): State {
    s.(phases := s.phases[p := phase])
  }

  /** The end of a transaction, whatever its outcome, frees the advisory lock it holds. */
  function EndTransaction(s: State, p: Pid): State {
    SetPhase(s, p, Idle).(lock := if s.lock == Some(p) then None else s.lock)
  }

  /** One step of one process. `Abort` covers a crash, a lost connection and every failed
      statement, from any point of the append, also between the server's commit and the
      answer, when the process is told of an error although its row is in the table. */
  ghost predicate Next(hash: Hasher, s: State, step: Step, s': State) {
    var p := step.pid;
    var phase := PhaseOf(s, p);
    match step
    case Begin(_, entry, timestamp) =>
      phase.Idle? && s' == SetPhase(s, p, Waiting(entry, timestamp))
    case Acquire(_) =>
      && phase.Waiting? && s.lock == None
      && s' == SetPhase(s, p, Locked(phase.entry, phase.timestamp, s.tickets)).(
           lock := Some(p), tickets := s.tickets + 1)
    case ReadHead(_) =>
      && phase.Locked?
      && var (nextSeq, prevHash) := HeadInTxn(s.table);
         s' == SetPhase(s, p, HeadRead(phase.entry, phase.timestamp, phase.ticket, nextSeq, prevHash))
    case Insert(_) =>
      && phase.HeadRead?
      && var row := Seal(hash, AuditPayload(phase.nextSeq, phase.entry, phase.timestamp, phase.prevHash));
         s' == if Insertable(s.table, phase.nextSeq, row)
               then SetPhase(s, p, Inserted(phase.entry, phase.timestamp, phase.ticket, row))
               else EndTransaction(s, p)
    case Commit(_) =>
      && phase.Inserted? && phase.row.payload.seqNo < BIGINT_LIMIT
      && var done := Committal(p, phase.entry, phase.timestamp, phase.ticket, phase.row);
         s' == SetPhase(EndTransaction(s, p), p, Unacknowledged(done)).(
           table := s.table[phase.row.payload.seqNo := phase.row], commits := s.commits + [done])
    case Acknowledge(_) =>
      phase.Unacknowledged? && s' == SetPhase(s, p, Idle).(acks := s.acks + [phase.done])
    case Abort(_) =>
      !phase.Idle? && s' == EndTransaction(s, p)
  }

  /** `states` is a run: any interleaving of any processes from the empty table. */
  ghost predicate IsRun(hash: Hasher, states: seq<State>, steps: seq<Step>) {
    && |states| == |steps| + 1 && states[0] == INIT
    && forall i :: 0 <= i < |steps| ==> Next(hash, states[i], steps[i], states[i + 1])
  }

  // ------------------------------------------------------------------ the invariant

  /** The committed appends, as arguments of `AuditChain::append`. */
  function Appends(commits: seq<Committal>): (r: seq<(NewEntry, U64)>)
    ensures |r| == |commits|
    ensures forall i :: 0 <= i < |r| ==> r[i] == (commits[i].entry, commits[i].timestamp)
  {
    if commits == [] then []
    else
      var last := commits[|commits| - 1];
      Appends(commits[..|commits| - 1]) + [(last.entry, last.timestamp)]
  }

  /** `table` holds exactly the records of `rs`, each under its position. */
  ghost predicate Holds(table: Table, rs: seq<AuditRecord>) {
    && |rs| <= BIGINT_LIMIT
    && (forall k :: k in table <==> 0 <= k < |rs|)
    && (forall k :: 0 <= k < |rs| ==> table[k] == rs[k])
  }

  /** What the phase of a process says about the lock and about the chain `rs` in the table. */
  ghost predicate PhaseFits(hash: Hasher, rs: seq<AuditRecord>, phase: Phase, holdsLock: bool, tickets: nat) {
    && (InTransaction(phase) <==> holdsLock)
    && (InTransaction(phase) ==> phase.ticket + 1 == tickets)
    && (phase.HeadRead? ==> phase.nextSeq == |rs| && phase.prevHash == HeadHash(rs))
    && (phase.Inserted? ==> |rs| < BIGINT_LIMIT && phase.row == NextRecord(hash, rs, phase.entry, phase.timestamp))
  }

  ghost predicate PhasesFit(hash: Hasher, rs: seq<AuditRecord>, s: State) {
    forall p: Pid :: PhaseFits(hash, rs, PhaseOf(s, p), s.lock == Some(p), s.tickets)
  }

  /** Commits come in the order of the lock grants, all before the current holder's. */
  ghost predicate TicketsOrdered(s: State) {
    && (forall i :: 0 <= i < |s.commits| ==>
          s.commits[i].ticket < (if s.lock == None then s.tickets else s.tickets - 1))
    && (forall i, j :: 0 <= i < j < |s.commits| ==> s.commits[i].ticket < s.commits[j].ticket)
  }

  ghost predicate RowsAre(commits: seq<Committal>, rs: seq<AuditRecord>) {
    |commits| == |rs| && forall i :: 0 <= i < |commits| ==> commits[i].row == rs[i]
  }

  ghost predicate Inv(hash: Hasher, s: State, rs: seq<AuditRecord>) {
    Holds(s.table, rs) && PhasesFit(hash, rs, s) && TicketsOrdered(s) && RowsAre(s.commits, rs)
  }

  /** The invariant, for the chain that the committed appends build. */
  ghost predicate RunInv(hash: Hasher, s: State) {
    Inv(hash, s, BuiltBy(hash, Appends(s.commits)))
  }

  lemma HeadOfHeld(table: Table, rs: seq<AuditRecord>)
    requires Holds(table, rs)
    ensures HeadInTxn(table) == (|rs|, HeadHash(rs))
  {
    if rs == [] {
      assert table == map[];
    } else {
      assert |rs| - 1 in table;
    }
  }

  /** A step that leaves the table alone keeps the invariant. */
  lemma QuietStepKeepsInv(hash: Hasher, s: State, step: Step, s': State, rs: seq<AuditRecord>)
    requires Inv(hash, s, rs) && Next(hash, s, step, s') && !step.Commit?
    ensures Inv(hash, s', rs) && s'.commits == s.commits
  {
    HeadOfHeld(s.table, rs);
    var p := step.pid;
    assert PhaseFits(hash, rs, PhaseOf(s, p), s.lock == Some(p), s.tickets);
    forall q: Pid ensures PhaseFits(hash, rs, PhaseOf(s', q), s'.lock == Some(q), s'.tickets) {
      assert PhaseFits(hash, rs, PhaseOf(s, q), s.lock == Some(q), s.tickets);
      assert q != p ==> PhaseOf(s', q) == PhaseOf(s, q);
    }
  }

  /** A commit adds its row at the end of the table and of the chain. */
  lemma CommitKeepsInv(hash: Hasher, s: State, p: Pid, s': State, rs: seq<AuditRecord>)
    requires Inv(hash, s, rs) && Next(hash, s, Commit(p), s')
    ensures var done := PhaseOf(s, p);
            && Inv(hash, s', rs + [NextRecord(hash, rs, done.entry, done.timestamp)])
            && |s'.commits| == |s.commits| + 1 && s'.commits[..|s.commits|] == s.commits
            && s'.commits[|s.commits|].entry == done.entry && s'.commits[|s.commits|].timestamp == done.timestamp
  {
    var done := PhaseOf(s, p);
    assert PhaseFits(hash, rs, done, s.lock == Some(p), s.tickets);
    CommitKeepsPhases(hash, s, p, s', rs, rs + [done.row]);
    CommitHolds(s.table, rs, done.row);
  }

  lemma CommitHolds(table: Table, rs: seq<AuditRecord>, row: AuditRecord)
    requires Holds(table, rs) && |rs| < BIGINT_LIMIT
    ensures Holds(table[|rs| := row], rs + [row])
  {
  }

  /** Only the committing process held the lock, and it has left its transaction. */
  lemma CommitKeepsPhases(hash: Hasher, s: State, p: Pid, s': State, rs: seq<AuditRecord>, rs': seq<AuditRecord>)
    requires PhasesFit(hash, rs, s) && Next(hash, s, Commit(p), s')
    ensures PhasesFit(hash, rs', s') && s.lock == Some(p) && s'.lock == None
  {
    assert PhaseFits(hash, rs, PhaseOf(s, p), s.lock == Some(p), s.tickets);
    forall q: Pid ensures PhaseFits(hash, rs', PhaseOf(s', q), s'.lock == Some(q), s'.tickets) {
      assert PhaseFits(hash, rs, PhaseOf(s, q), s.lock == Some(q), s.tickets);
      assert q != p ==> PhaseOf(s', q) == PhaseOf(s, q);
    }
  }

  /** What holds at first and is kept by every step holds throughout a run. */
  lemma {:induction false} RunInduction(
    hash: Hasher, states: seq<State>, steps: seq<Step>, i: nat, holds: State -> bool)
    requires IsRun(hash, states, steps) && i <= |steps| && holds(INIT)
    requires forall s, step, s' :: holds(s) && Next(hash, s, step, s') ==> holds(s')
    ensures holds(states[i])
  {
    if i > 0 {
      RunInduction(hash, states, steps, i - 1, holds);
      assert Next(hash, states[i - 1], steps[i - 1], states[i]);
    }
  }

  lemma RunKeepsInv(hash: Hasher, states: seq<State>, steps: seq<Step>, i: nat)
    requires IsRun(hash, states, steps) && i <= |steps|
    ensures RunInv(hash, states[i])
  {
    var holds := (s: State) => RunInv(hash, s);
    InitInv(hash);
    forall s, step, s' | holds(s) && Next(hash, s, step, s') ensures holds(s') {
      StepKeepsInv(hash, s, step, s');
    }
    RunInduction(hash, states, steps, i, holds);
  }

  lemma InitInv(hash: Hasher)
    ensures RunInv(hash, INIT)
  {
  }

  lemma StepKeepsInv(hash: Hasher, s: State, step: Step, s': State)
    requires RunInv(hash, s) && Next(hash, s, step, s')
    ensures RunInv(hash, s')
  {
    var rs := BuiltBy(hash, Appends(s.commits));
    if step.Commit? {
      CommitKeepsInv(hash, s, step.pid, s', rs);
      AppendsStep(hash, s.commits, s'.commits);
    } else {
      QuietStepKeepsInv(hash, s, step, s', rs);
    }
  }

  lemma AppendsStep(hash: Hasher, commits: seq<Committal>, commits': seq<Committal>)
    requires |commits'| == |commits| + 1 && commits'[..|commits|] == commits
    ensures var rs := BuiltBy(hash, Appends(commits));
            var last := commits'[|commits|];
            BuiltBy(hash, Appends(commits')) == rs + [NextRecord(hash, rs, last.entry, last.timestamp)]
  {
    var appends' := Appends(commits');
    assert appends'[..|appends'| - 1] == Appends(commits);
  }

  // ------------------------------------------------------------------ acknowledgements

  /** What has been acknowledged, or is about to be, has been committed. */
  ghost predicate AcksCommitted(s: State) {
    && (forall a :: a in s.acks ==> a in s.commits)
    && (forall p :: p in s.phases && s.phases[p].Unacknowledged? ==> s.phases[p].done in s.commits)
  }

  lemma StepKeepsAcks(hash: Hasher, s: State, step: Step, s': State)
    requires AcksCommitted(s) && Next(hash, s, step, s')
    ensures AcksCommitted(s')
  {
    if step.Commit? {
      assert s'.commits[|s.commits|] in s'.commits;
      assert forall a :: a in s.commits ==> a in s'.commits;
    }
  }

  lemma {:induction false} RunKeepsAcks(hash: Hasher, states: seq<State>, steps: seq<Step>, i: nat)
    requires IsRun(hash, states, steps) && i <= |steps|
    ensures AcksCommitted(states[i])
  {
    if i > 0 {
      RunKeepsAcks(hash, states, steps, i - 1);
      StepKeepsAcks(hash, states[i - 1], steps[i - 1], states[i]);
    }
  }

  // ------------------------------------------------------------------ the theorems

  lemma {:induction false} LoadedIsHeld(table: Table, rs: seq<AuditRecord>)
    requires Holds(table, rs)
    ensures LoadChain(table) == rs
    decreases |rs|
  {
    if rs == [] {
      assert table == map[];
    } else {
      var last := |rs| - 1;
      assert last in table;
      assert MaxSeq(table.Keys) == last;
      LoadedIsHeld(table - {last}, rs[..last]);
      assert rs == rs[..last] + [rs[last]];
    }
  }

  /** At every point of every interleaving, with crashes anywhere, the table read back in
      sequence order is the chain that one process appending the committed entries one
      after the other, in the order the lock was granted, would have built: valid, numbered
      from zero, one row per committed append and no other row. Every acknowledged append is
      among the committed ones. */
  lemma EveryInterleavingIsSequential(hash: Hasher, states: seq<State>, steps: seq<Step>, i: nat)
    requires IsRun(hash, states, steps) && i <= |steps|
    ensures var s := states[i];
            var rs := LoadChain(s.table);
            && rs == BuiltBy(hash, Appends(s.commits))
            && ValidChain(hash, rs) && NumberedFromZero(rs)
            && (forall k :: k in s.table <==> 0 <= k < |s.commits|)
            && (forall k :: 0 <= k < |s.commits| ==> s.table[k] == s.commits[k].row == rs[k])
            && (forall j, k :: 0 <= j < k < |s.commits| ==> s.commits[j].ticket < s.commits[k].ticket)
            && (forall a :: a in s.acks ==> a in s.commits)
  {
    RunKeepsAcks(hash, states, steps, i);
    RunKeepsInv(hash, states, steps, i);
    LoadedIsHeld(states[i].table, BuiltBy(hash, Appends(states[i].commits)));
    BuiltChainVerifies(hash, Appends(states[i].commits));
  }

  /** Committed appends are never lost or reordered: the chain only grows at its end. */
  lemma {:induction false} ChainOnlyGrows(hash: Hasher, states: seq<State>, steps: seq<Step>, i: nat, j: nat)
    requires IsRun(hash, states, steps) && i <= j <= |steps|
    ensures Grown(states[i], states[j])
    decreases j
  {
    if i < j {
      ChainOnlyGrows(hash, states, steps, i, j - 1);
      StepGrows(hash, states, steps, j - 1);
      GrownTransitive(states[i], states[j - 1], states[j]);
    }
  }

  /** `later` has every commit and every record of `s`, in place. */
  ghost predicate Grown(s: State, later: State) {
    s.commits <= later.commits && LoadChain(s.table) <= LoadChain(later.table)
  }

  lemma GrownTransitive(s: State, mid: State, later: State)
    requires Grown(s, mid) && Grown(mid, later)
    ensures Grown(s, later)
  {
    PrefixTransitive(s.commits, mid.commits, later.commits);
    PrefixTransitive(LoadChain(s.table), LoadChain(mid.table), LoadChain(later.table));
  }

  lemma StepGrows(hash: Hasher, states: seq<State>, steps: seq<Step>, i: nat)
    requires IsRun(hash, states, steps) && i < |steps|
    ensures Grown(states[i], states[i + 1])
  {
    var s, s' := states[i], states[i + 1];
    assert Next(hash, s, steps[i], s');
    RunKeepsInv(hash, states, steps, i);
    var rs := BuiltBy(hash, Appends(s.commits));
    LoadedIsHeld(s.table, rs);
    if steps[i].Commit? {
      CommitKeepsInv(hash, s, steps[i].pid, s', rs);
      var done := PhaseOf(s, steps[i].pid);
      LoadedIsHeld(s'.table, rs + [NextRecord(hash, rs, done.entry, done.timestamp)]);
    }
  }

  /** The lock alone keeps the chain: with it, an insert meets the uniqueness constraints
      whenever there is a sequence number left, so the constraints never reject a row. */
  lemma BackstopNeverFires(
    hash: Hasher, universe: iset<AuditPayload>, states: seq<State>, steps: seq<Step>, i: nat, p: Pid, row: AuditRecord)
    requires IsRun(hash, states, steps) && i <= |steps|
    requires PhaseOf(states[i], p).HeadRead?
    requires var h := PhaseOf(states[i], p);
             row == Seal(hash, AuditPayload(h.nextSeq, h.entry, h.timestamp, h.prevHash))
    requires Secure(hash, universe) && row.payload in universe
    requires forall k :: k in states[i].table ==> states[i].table[k].payload in universe
    ensures Insertable(states[i].table, PhaseOf(states[i], p).nextSeq, row) <==> |states[i].commits| < BIGINT_LIMIT
  {
    RunKeepsInv(hash, states, steps, i);
    HeadReadFits(hash, states[i], p, BuiltBy(hash, Appends(states[i].commits)));
    BuiltChainVerifies(hash, Appends(states[i].commits));
    NextRowIsNew(hash, universe, states[i].table, BuiltBy(hash, Appends(states[i].commits)), row);
  }

  lemma HeadReadFits(hash: Hasher, s: State, p: Pid, rs: seq<AuditRecord>)
    requires Inv(hash, s, rs) && PhaseOf(s, p).HeadRead?
    ensures PhaseOf(s, p).nextSeq == |rs|
  {
    assert PhaseFits(hash, rs, PhaseOf(s, p), s.lock == Some(p), s.tickets);
  }

  lemma NextRowIsNew(hash: Hasher, universe: iset<AuditPayload>, table: Table, rs: seq<AuditRecord>, row: AuditRecord)
    requires Holds(table, rs) && ValidChain(hash, rs) && NumberedFromZero(rs)
    requires Secure(hash, universe) && row.payload in universe && Within(rs, universe)
    requires Sealed(hash, row) && row.payload.seqNo == |rs|
    ensures Insertable(table, |rs|, row) <==> |rs| < BIGINT_LIMIT
  {
    forall k | k in table ensures table[k].recordHash != row.recordHash {
      assert Linked(hash, rs, k);
      assert rs[k].payload != row.payload;
    }
  }

  /** A process that stops at any point frees the lock, so another can always proceed. */
  lemma LockIsNeverWedged(hash: Hasher, states: seq<State>, steps: seq<Step>, i: nat, p: Pid)
    requires IsRun(hash, states, steps) && i <= |steps| && states[i].lock == Some(p)
    ensures Next(hash, states[i], Abort(p), EndTransaction(states[i], p))
    ensures EndTransaction(states[i], p).lock == None
    ensures EndTransaction(states[i], p).table == states[i].table
  {
    RunKeepsInv(hash, states, steps, i);
    assert PhaseFits(hash, BuiltBy(hash, Appends(states[i].commits)), PhaseOf(states[i], p), true, states[i].tickets);
  }
}
