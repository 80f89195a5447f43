/** What the Postgres audit sink commits is what was asked for: every row goes back to the append
    that began it, every acknowledgement to its commit, and an append that nobody disturbs goes
    through (crates/audit/src/pg.rs). */
module PgAppends {
  import opened Prelude
  import opened AuditChain
  import opened PgSink

  // ------------------------------------------------------------------ from commit to begin

  /** Process `p` was asked at step `b` to append this, and up to step `i` has neither been asked
      again nor committed. */
  ghost predicate BeganAt(steps: seq<Step>, b: nat, i: nat, p: Pid, entry: NewEntry, timestamp: U64) {
    && b < i <= |steps| && steps[b] == Begin(p, entry, timestamp)
    && forall x :: b < x < i && steps[x].pid == p ==> !steps[x].Begin? && !steps[x].Commit?
  }

  predicate Underway(phase: Phase) {
    phase.Waiting? || phase.Locked? || phase.HeadRead? || phase.Inserted?
  }

  ghost predicate Began(steps: seq<Step>, i: nat, p: Pid, entry: NewEntry, timestamp: U64) {
    exists b :: BeganAt(steps, b, i, p, entry, timestamp)
  }

  ghost predicate PhaseBegan(steps: seq<Step>, i: nat, p: Pid, phase: Phase) {
    Underway(phase) ==> Began(steps, i, p, phase.entry, phase.timestamp)
  }

  lemma StillBegan(steps: seq<Step>, i: nat, p: Pid, entry: NewEntry, timestamp: U64)
    requires i < |steps| && Began(steps, i, p, entry, timestamp)
    requires steps[i].pid == p ==> !steps[i].Begin? && !steps[i].Commit?
    ensures Began(steps, i + 1, p, entry, timestamp)
  {
    var b :| BeganAt(steps, b, i, p, entry, timestamp);
    assert BeganAt(steps, b, i + 1, p, entry, timestamp);
  }

  /** A step keeps what a process is appending, unless it is that process's `Begin`. */
  lemma PhaseKeepsEntry(hash: Hasher, s: State, step: Step, s': State, p: Pid)
    requires Next(hash, s, step, s') && Underway(PhaseOf(s', p)) && !(step.pid == p && step.Begin?)
    ensures Underway(PhaseOf(s, p))
    ensures PhaseOf(s', p).entry == PhaseOf(s, p).entry && PhaseOf(s', p).timestamp == PhaseOf(s, p).timestamp
    ensures step.pid == p ==> !step.Commit?
  {
  }

  lemma BeginSets(hash: Hasher, s: State, p: Pid, entry: NewEntry, timestamp: U64, s': State)
    requires Next(hash, s, Begin(p, entry, timestamp), s')
    ensures Underway(PhaseOf(s', p))
    ensures PhaseOf(s', p).entry == entry && PhaseOf(s', p).timestamp == timestamp
  {
  }

  lemma {:induction false} RunPhasesBegan(hash: Hasher, states: seq<State>, steps: seq<Step>, i: nat, p: Pid)
    requires IsRun(hash, states, steps) && i <= |steps|
    ensures PhaseBegan(steps, i, p, PhaseOf(states[i], p))
  {
    if i > 0 && Underway(PhaseOf(states[i], p)) {
      var n := i - 1;
      assert Next(hash, states[n], steps[n], states[n + 1]);
      if steps[n].pid == p && steps[n].Begin? {
        BeginSets(hash, states[n], p, steps[n].entry, steps[n].timestamp, states[i]);
        assert BeganAt(steps, n, i, p, steps[n].entry, steps[n].timestamp);
      } else {
        RunPhasesBegan(hash, states, steps, n, p);
        PhaseKeepsEntry(hash, states[n], steps[n], states[i], p);
        StillBegan(steps, n, p, PhaseOf(states[i], p).entry, PhaseOf(states[i], p).timestamp);
      }
    }
  }

  /** Commit `k` was made at step `c` by a process asked at step `b` to append `entry`. */
  ghost predicate CommittedBy(
    states: seq<State>, steps: seq<Step>, k: nat, b: nat, c: nat, p: Pid, entry: NewEntry, timestamp: U64)
  {
    && c < |steps| < |states| && steps[c] == Commit(p) && |states[c].commits| == k
    && BeganAt(steps, b, c, p, entry, timestamp)
  }

  lemma CommitStep(hash: Hasher, s: State, p: Pid, s': State)
    requires Next(hash, s, Commit(p), s')
    ensures Underway(PhaseOf(s, p)) && |s'.commits| == |s.commits| + 1 && s'.commits[..|s.commits|] == s.commits
    ensures var done := s'.commits[|s.commits|];
            done.pid == p && done.entry == PhaseOf(s, p).entry && done.timestamp == PhaseOf(s, p).timestamp
  {
  }

  lemma QuietStep(hash: Hasher, s: State, step: Step, s': State)
    requires Next(hash, s, step, s') && !step.Commit?
    ensures s'.commits == s.commits
  {
  }

  lemma {:induction false} CommitBegan(hash: Hasher, states: seq<State>, steps: seq<Step>, i: nat, k: nat)
    returns (b: nat, c: nat)
    requires IsRun(hash, states, steps) && i <= |steps| && k < |states[i].commits|
    ensures var done := states[i].commits[k];
            c < i && CommittedBy(states, steps, k, b, c, done.pid, done.entry, done.timestamp)
  {
    var n := i - 1;
    assert Next(hash, states[n], steps[n], states[n + 1]);
    if steps[n].Commit? {
      CommitStep(hash, states[n], steps[n].pid, states[i]);
    } else {
      QuietStep(hash, states[n], steps[n], states[i]);
    }
    if k < |states[n].commits| {
      assert states[i].commits[k] == states[n].commits[k];
      b, c := CommitBegan(hash, states, steps, n, k);
    } else {
      var p := steps[n].pid;
      RunPhasesBegan(hash, states, steps, n, p);
      b :| BeganAt(steps, b, n, p, PhaseOf(states[n], p).entry, PhaseOf(states[n], p).timestamp);
      c := n;
    }
  }

  lemma RowCarries(hash: Hasher, states: seq<State>, steps: seq<Step>, i: nat, k: nat)
    requires IsRun(hash, states, steps) && i <= |steps| && k < |states[i].commits|
    ensures k in states[i].table
    ensures var row, done := states[i].table[k], states[i].commits[k];
            && row.payload.entry == done.entry && row.payload.timestamp == done.timestamp
            && row.payload.seqNo == k && row.recordHash == hash(row.payload)
  {
    EveryInterleavingIsSequential(hash, states, steps, i);
    RunKeepsInv(hash, states, steps, i);
    BuiltCarries(hash, Appends(states[i].commits), k);
  }

  lemma BuiltCarries(hash: Hasher, appends: seq<(NewEntry, U64)>, k: nat)
    requires k < |appends|
    ensures var row := BuiltBy(hash, appends)[k];
            && (row.payload.entry, row.payload.timestamp) == appends[k]
            && row.payload.seqNo == Wrap(k) && row.recordHash == hash(row.payload)
  {
    BuiltChainVerifies(hash, appends);
    assert Linked(hash, BuiltBy(hash, appends), k);
  }

  /** At every point of every interleaving, row `k` of the table is sealed over exactly the entry
      and timestamp some process was asked to append, by the commit of that process. */
  lemma RowsAreAsked(hash: Hasher, states: seq<State>, steps: seq<Step>, i: nat, k: nat) returns (b: nat, c: nat)
    requires IsRun(hash, states, steps) && i <= |steps| && k < |states[i].commits|
    ensures b < c < i && steps[b].Begin? && steps[c] == Commit(steps[b].pid)
    ensures CommittedBy(states, steps, k, b, c, steps[b].pid, steps[b].entry, steps[b].timestamp)
    ensures k in states[i].table
    ensures var row := states[i].table[k];
            && row.payload.entry == steps[b].entry && row.payload.timestamp == steps[b].timestamp
            && row.payload.seqNo == k && row.recordHash == hash(row.payload)
  {
    b, c := CommitBegan(hash, states, steps, i, k);
    RowCarries(hash, states, steps, i, k);
  }

  /** No append is committed twice: a request has at most one commit, and so one row. */
  lemma OneCommitPerRequest(
    states: seq<State>, steps: seq<Step>, j: nat, k: nat, b: nat, c: nat, d: nat,
    p: Pid, entry: NewEntry, timestamp: U64)
    requires CommittedBy(states, steps, j, b, c, p, entry, timestamp)
    requires CommittedBy(states, steps, k, b, d, p, entry, timestamp)
    ensures c == d && j == k
  {
  }

  /** Different rows go back to different requests. */
  lemma RowsComeApart(hash: Hasher, states: seq<State>, steps: seq<Step>, i: nat, j: nat, k: nat)
    returns (a: nat, b: nat)
    requires IsRun(hash, states, steps) && i <= |steps| && j < k < |states[i].commits|
    ensures a < i && b < i && a != b && steps[a].Begin? && steps[b].Begin?
    ensures j in states[i].table && k in states[i].table
    ensures states[i].table[j].payload.entry == steps[a].entry && states[i].table[k].payload.entry == steps[b].entry
  {
    var c, d;
    a, c := RowsAreAsked(hash, states, steps, i, j);
    b, d := RowsAreAsked(hash, states, steps, i, k);
    if a == b {
      OneCommitPerRequest(states, steps, j, k, a, c, d, steps[a].pid, steps[a].entry, steps[a].timestamp);
    }
  }

  // ------------------------------------------------------------------ acknowledgements

  /** Process `p` committed `done` at step `c` and has done nothing since. */
  ghost predicate JustCommitted(states: seq<State>, steps: seq<Step>, c: nat, i: nat, p: Pid, done: Committal) {
    && c < i <= |steps| < |states| && steps[c] == Commit(p)
    && |states[c].commits| < |states[c + 1].commits| && states[c + 1].commits[|states[c].commits|] == done
    && forall x :: c < x < i ==> steps[x].pid != p
  }

  lemma AfterCommit(hash: Hasher, s: State, p: Pid, s': State)
    requires Next(hash, s, Commit(p), s')
    ensures |s'.commits| == |s.commits| + 1 && PhaseOf(s', p) == Unacknowledged(s'.commits[|s.commits|])
  {
  }

  lemma OtherSteps(hash: Hasher, s: State, step: Step, s': State, p: Pid)
    requires Next(hash, s, step, s')
    ensures step.pid != p ==> PhaseOf(s', p) == PhaseOf(s, p)
    ensures step.pid == p && !step.Commit? ==> !PhaseOf(s', p).Unacknowledged?
  {
  }

  lemma {:induction false} RunJustCommitted(hash: Hasher, states: seq<State>, steps: seq<Step>, i: nat, p: Pid)
    returns (c: nat)
    requires IsRun(hash, states, steps) && i <= |steps| && PhaseOf(states[i], p).Unacknowledged?
    ensures JustCommitted(states, steps, c, i, p, PhaseOf(states[i], p).done)
  {
    var n := i - 1;
    assert Next(hash, states[n], steps[n], states[n + 1]);
    OtherSteps(hash, states[n], steps[n], states[i], p);
    if steps[n].pid == p {
      AfterCommit(hash, states[n], p, states[i]);
      c := n;
    } else {
      c := RunJustCommitted(hash, states, steps, n, p);
    }
  }

  lemma AckStep(hash: Hasher, s: State, step: Step, s': State)
    requires Next(hash, s, step, s')
    ensures s'.acks == if step.Acknowledge? then s.acks + [PhaseOf(s, step.pid).done] else s.acks
    ensures step.Acknowledge? ==> PhaseOf(s, step.pid).Unacknowledged?
  {
  }

  /** Every acknowledgement tells a process of its own latest commit, once. */
  lemma {:induction false} AcksAreCommits(hash: Hasher, states: seq<State>, steps: seq<Step>, i: nat, k: nat)
    returns (c: nat, x: nat)
    requires IsRun(hash, states, steps) && i <= |steps| && k < |states[i].acks|
    ensures x < i && steps[x].Acknowledge? && |states[x].acks| == k
    ensures JustCommitted(states, steps, c, x, steps[x].pid, states[i].acks[k])
  {
    var n := i - 1;
    assert Next(hash, states[n], steps[n], states[n + 1]);
    AckStep(hash, states[n], steps[n], states[i]);
    if k < |states[n].acks| {
      assert states[i].acks[k] == states[n].acks[k];
      c, x := AcksAreCommits(hash, states, steps, n, k);
    } else {
      x := n;
      c := RunJustCommitted(hash, states, steps, n, steps[n].pid);
    }
  }

  // ------------------------------------------------------------------ an append goes through

  lemma RunExtends(hash: Hasher, states: seq<State>, steps: seq<Step>, step: Step, s': State)
    requires IsRun(hash, states, steps) && Next(hash, states[|steps|], step, s')
    ensures IsRun(hash, states + [s'], steps + [step])
  {
  }

  /** The six steps of one append. */
  function OneAppend(p: Pid, entry: NewEntry, timestamp: U64): seq<Step> {
    [Begin(p, entry, timestamp), Acquire(p), ReadHead(p), Insert(p), Commit(p), Acknowledge(p)]
  }

  /** `s'` is `s` with one row more, sealed over `entry` and linked to the head, acknowledged. */
  ghost predicate Appended(hash: Hasher, s: State, p: Pid, entry: NewEntry, timestamp: U64, s': State) {
    && |s.commits| < BIGINT_LIMIT
    && var payload := AuditPayload(|s.commits|, entry, timestamp, HeadHash(LoadChain(s.table)));
       && s'.table == s.table[|s.commits| := AuditRecord(payload, hash(payload))]
       && |s'.commits| == |s.commits| + 1 && s'.commits[..|s.commits|] == s.commits
       && s'.acks == s.acks + [s'.commits[|s.commits|]]
       && s'.lock == None && PhaseOf(s', p) == Idle
       && forall q: Pid :: q != p ==> PhaseOf(s', q) == PhaseOf(s, q)
  }

  lemma HeadIs(hash: Hasher, states: seq<State>, steps: seq<Step>, s: State)
    requires IsRun(hash, states, steps) && s == states[|steps|] && |s.commits| < BIGINT_LIMIT
    ensures HeadInTxn(s.table) == (|s.commits|, HeadHash(LoadChain(s.table)))
  {
    RunKeepsInv(hash, states, steps, |steps|);
    var rs := BuiltBy(hash, Appends(s.commits));
    HeadOfHeld(s.table, rs);
    LoadedIsHeld(s.table, rs);
  }

  lemma LockAndRead(s: State, p: Pid, entry: NewEntry, timestamp: U64) returns (s1: State, s2: State, s3: State)
    requires s.lock == None && PhaseOf(s, p).Idle?
    ensures forall hash: Hasher :: Next(hash, s, Begin(p, entry, timestamp), s1)
    ensures forall hash: Hasher :: Next(hash, s1, Acquire(p), s2)
    ensures forall hash: Hasher :: Next(hash, s2, ReadHead(p), s3)
    ensures s3.table == s.table && s3.commits == s.commits && s3.acks == s.acks && s3.lock == Some(p)
    ensures var (nextSeq, prevHash) := HeadInTxn(s.table);
            PhaseOf(s3, p) == HeadRead(entry, timestamp, s.tickets, nextSeq, prevHash)
    ensures forall q: Pid :: q != p ==> PhaseOf(s3, q) == PhaseOf(s, q)
  {
    s1 := SetPhase(s, p, Waiting(entry, timestamp));
    s2 := SetPhase(s1, p, Locked(entry, timestamp, s.tickets)).(lock := Some(p), tickets := s.tickets + 1);
    var (nextSeq, prevHash) := HeadInTxn(s.table);
    s3 := SetPhase(s2, p, HeadRead(entry, timestamp, s.tickets, nextSeq, prevHash));
  }

  lemma InsertAndCommit(hash: Hasher, s3: State, p: Pid, row: AuditRecord) returns (s4: State, s5: State, s6: State)
    requires PhaseOf(s3, p).HeadRead? && s3.lock == Some(p)
    requires var h := PhaseOf(s3, p);
             && row == Seal(hash, AuditPayload(h.nextSeq, h.entry, h.timestamp, h.prevHash))
             && Insertable(s3.table, h.nextSeq, row)
    ensures Next(hash, s3, Insert(p), s4) && Next(hash, s4, Commit(p), s5) && Next(hash, s5, Acknowledge(p), s6)
    ensures s6.table == s3.table[row.payload.seqNo := row] && s6.lock == None && PhaseOf(s6, p) == Idle
    ensures |s6.commits| == |s3.commits| + 1 && s6.commits[..|s3.commits|] == s3.commits
    ensures s6.acks == s3.acks + [s6.commits[|s3.commits|]]
    ensures forall q: Pid :: q != p ==> PhaseOf(s6, q) == PhaseOf(s3, q)
  {
    var h := PhaseOf(s3, p);
    s4 := SetPhase(s3, p, Inserted(h.entry, h.timestamp, h.ticket, row));
    var done := Committal(p, h.entry, h.timestamp, h.ticket, row);
    s5 := SetPhase(EndTransaction(s4, p), p, Unacknowledged(done)).(
      table := s4.table[row.payload.seqNo := row], commits := s4.commits + [done]);
    s6 := SetPhase(s5, p, Idle).(acks := s5.acks + [done]);
  }

  /** The table takes an append of `entry` at the head of the chain it holds. */
  ghost predicate Room(hash: Hasher, universe: iset<AuditPayload>, s: State, entry: NewEntry, timestamp: U64) {
    && |s.commits| < BIGINT_LIMIT && Secure(hash, universe)
    && AuditPayload(|s.commits|, entry, timestamp, HeadHash(LoadChain(s.table))) in universe
    && forall k :: k in s.table ==> s.table[k].payload in universe
  }

  lemma FirstHalf(hash: Hasher, states: seq<State>, steps: seq<Step>, p: Pid, entry: NewEntry, timestamp: U64)
    returns (half: seq<State>, s: State)
    requires IsRun(hash, states, steps) && |states[|steps|].commits| < BIGINT_LIMIT
    requires states[|steps|].lock == None && PhaseOf(states[|steps|], p).Idle?
    ensures |half| == 3 && s == half[2]
    ensures IsRun(hash, states + half, steps + [Begin(p, entry, timestamp), Acquire(p), ReadHead(p)])
    ensures s.table == states[|steps|].table && s.commits == states[|steps|].commits && s.acks == states[|steps|].acks
    ensures s.lock == Some(p) && PhaseOf(s, p) ==
            HeadRead(entry, timestamp, states[|steps|].tickets, |s.commits|, HeadHash(LoadChain(s.table)))
    ensures forall q: Pid :: q != p ==> PhaseOf(s, q) == PhaseOf(states[|steps|], q)
  {
    HeadIs(hash, states, steps, states[|steps|]);
    var s1, s2, s3 := LockAndRead(states[|steps|], p, entry, timestamp);
    var longer := ThreeMore(hash, states, steps, Begin(p, entry, timestamp), Acquire(p), ReadHead(p), s1, s2, s3);
    half, s := [s1, s2, s3], s3;
  }

  lemma RowFits(
    hash: Hasher, universe: iset<AuditPayload>, states: seq<State>, steps: seq<Step>, s: State, p: Pid,
    entry: NewEntry, timestamp: U64, ticket: nat) returns (row: AuditRecord)
    requires IsRun(hash, states, steps) && s == states[|steps|] && Room(hash, universe, s, entry, timestamp)
    requires PhaseOf(s, p) == HeadRead(entry, timestamp, ticket, |s.commits|, HeadHash(LoadChain(s.table)))
    ensures row.payload == AuditPayload(|s.commits|, entry, timestamp, HeadHash(LoadChain(s.table)))
    ensures row == Seal(hash, row.payload) && Insertable(s.table, |s.commits|, row)
  {
    row := Seal(hash, AuditPayload(|s.commits|, entry, timestamp, HeadHash(LoadChain(s.table))));
    BackstopNeverFires(hash, universe, states, steps, |steps|, p, row);
  }

  lemma SecondHalf(
    hash: Hasher, universe: iset<AuditPayload>, states: seq<State>, steps: seq<Step>, s: State, p: Pid,
    entry: NewEntry, timestamp: U64, ticket: nat) returns (half: seq<State>)
    requires IsRun(hash, states, steps) && s == states[|steps|] && Room(hash, universe, s, entry, timestamp)
    requires s.lock == Some(p)
    requires PhaseOf(s, p) == HeadRead(entry, timestamp, ticket, |s.commits|, HeadHash(LoadChain(s.table)))
    ensures |half| == 3 && IsRun(hash, states + half, steps + [Insert(p), Commit(p), Acknowledge(p)])
    ensures Appended(hash, s, p, entry, timestamp, half[2])
  {
    var row := RowFits(hash, universe, states, steps, s, p, entry, timestamp, ticket);
    var s4, s5, s6 := InsertAndCommit(hash, s, p, row);
    var longer := ThreeMore(hash, states, steps, Insert(p), Commit(p), Acknowledge(p), s4, s5, s6);
    half := [s4, s5, s6];
  }

  lemma AppendedFrom(hash: Hasher, s: State, mid: State, p: Pid, entry: NewEntry, timestamp: U64, s': State)
    requires Appended(hash, mid, p, entry, timestamp, s')
    requires mid.table == s.table && mid.commits == s.commits && mid.acks == s.acks
    requires forall q: Pid :: q != p ==> PhaseOf(mid, q) == PhaseOf(s, q)
    ensures Appended(hash, s, p, entry, timestamp, s')
  {
  }

  lemma TwoHalves(
    hash: Hasher, states: seq<State>, half: seq<State>, rest: seq<State>, steps: seq<Step>,
    p: Pid, entry: NewEntry, timestamp: U64)
    requires IsRun(hash, states + half + rest,
               steps + [Begin(p, entry, timestamp), Acquire(p), ReadHead(p)] + [Insert(p), Commit(p), Acknowledge(p)])
    ensures IsRun(hash, states + (half + rest), steps + OneAppend(p, entry, timestamp))
  {
    assert states + half + rest == states + (half + rest);
    assert steps + [Begin(p, entry, timestamp), Acquire(p), ReadHead(p)] + [Insert(p), Commit(p), Acknowledge(p)]
        == steps + OneAppend(p, entry, timestamp);
  }

  /** From every reachable state in which the lock is free and a sequence number is left, the
      steps of one idle process carry its append through: one row more, with its entry. */
  lemma AppendGoesThrough(
    hash: Hasher, universe: iset<AuditPayload>, states: seq<State>, steps: seq<Step>,
    p: Pid, entry: NewEntry, timestamp: U64) returns (more: seq<State>)
    requires IsRun(hash, states, steps) && Room(hash, universe, states[|steps|], entry, timestamp)
    requires states[|steps|].lock == None && PhaseOf(states[|steps|], p).Idle?
    ensures |more| == 6 && IsRun(hash, states + more, steps + OneAppend(p, entry, timestamp))
    ensures Appended(hash, states[|steps|], p, entry, timestamp, more[5])
  {
    var half, mid := FirstHalf(hash, states, steps, p, entry, timestamp);
    var rest := SecondHalf(hash, universe, states + half, steps + [Begin(p, entry, timestamp), Acquire(p), ReadHead(p)],
      mid, p, entry, timestamp, states[|steps|].tickets);
    AppendedFrom(hash, states[|steps|], mid, p, entry, timestamp, rest[2]);
    TwoHalves(hash, states, half, rest, steps, p, entry, timestamp);
    more := half + rest;
  }

  lemma ThreeMore(
    hash: Hasher, states: seq<State>, steps: seq<Step>, x: Step, y: Step, z: Step, s1: State, s2: State, s3: State)
    returns (longer: seq<State>)
    requires IsRun(hash, states, steps) && Next(hash, states[|steps|], x, s1)
    requires Next(hash, s1, y, s2) && Next(hash, s2, z, s3)
    ensures longer == states + [s1, s2, s3] && IsRun(hash, longer, steps + [x, y, z])
  {
    RunExtends(hash, states, steps, x, s1);
    RunExtends(hash, states + [s1], steps + [x], y, s2);
    RunExtends(hash, states + [s1] + [s2], steps + [x] + [y], z, s3);
    longer := states + [s1, s2, s3];
    assert longer == states + [s1] + [s2] + [s3];
    assert steps + [x, y, z] == steps + [x] + [y] + [z];
  }
}
