/** The append-only execution history and how facts from the target enter it
    (`internal/executionstate/adapter.go`). */
module ExecutionHistory {
  import opened Prelude
  import opened ManagementState
  import Text

  datatype Status = NotStarted | Running | Interrupted | Failed | Success | Undetermined | OtherStatus

  datatype Run = Run(id: string, target: string, bundle: string, sha: string, kind: string, version: string, status: Status,
                     phase: string)

  datatype Proof = Proof(run: string, bundle: string, sha: string, target: string, status: Status, phase: string,
                         startedAt: string, finishedAt: string, error: string)

  predicate Terminal(s: Status) { s == Success || s == Failed }

  predicate SameIdentity(run: Run, proof: Proof) {
    proof.run == run.id && proof.bundle == run.bundle && proof.sha == run.sha && proof.target == run.target
  }

  function OutcomeText(s: Status): string { if s == Success then "success" else "failed" }

  function RecordOf(proof: Proof): RecordRow {
    RecordRow(proof.bundle, proof.target, OutcomeText(proof.status), proof.startedAt, proof.finishedAt)
  }

  /** The bundle is in the history with the metadata of the run. */
  predicate Known(s: State, run: Run) {
    run.bundle in s.bundles && s.bundles[run.bundle].(createdAt := "") == BundleRow(run.target, run.kind, run.version, run.sha, "")
  }

  predicate Recorded(s: State, proof: Proof) { proof.run in s.records && s.records[proof.run] == RecordOf(proof) }

  /** What happens around an append: the changes of others between the reading and the writing of the
      history, the clock, and whether the database takes part. */
  datatype Circumstances = Circumstances(race: seq<Change>, now: string, refused: bool, commits: bool)

  function Appending(op: Op, c: Circumstances): Call { Call(op, c.now, c.refused) }

  predicate Appends(s: State, op: Op, c: Circumstances) { Applied(ChangedAll(s, c.race), Appending(op, c)).Some? && c.commits }

  function AfterAppend(s: State, op: Op, c: Circumstances): State {
    var raced := ChangedAll(s, c.race);
    if Appends(s, op, c) then Applied(raced, Appending(op, c)).value else raced
  }

  method CommitAll(store: Store, cs: seq<Change>)
    requires Inv(store.state)
    modifies store
    ensures store.state == ChangedAll(old(store.state), cs) && Inv(store.state) && Grows(old(store.state), store.state)
  {
    hide Inv, Grows, Attempted;
    ghost var start := store.state;
    ChangesKeep(start, cs);
    for i := 0 to |cs|
      invariant Inv(store.state) && store.state == ChangedAll(start, cs[..i])
    {
      assert cs[..i + 1][..i] == cs[..i];
      var _ := store.Commit(cs[i]);
    }
    assert cs[..|cs|] == cs;
  }

  method Append(store: Store, op: Op, c: Circumstances) returns (ok: bool)
    requires Inv(store.state)
    modifies store
    ensures ok <==> Appends(old(store.state), op, c)
    ensures store.state == AfterAppend(old(store.state), op, c)
    ensures Inv(store.state) && Grows(old(store.state), store.state)
  {
    hide Inv, Grows, Applied;
    ghost var before := store.state;
    CommitAll(store, c.race);
    ghost var raced := store.state;
    var call := Appending(op, c);
    var change := Change([call], Applied(store.state, call).None?, c.commits);
    assert [call][..0] == [];
    assert Attempted(raced, [call]) == if Applied(raced, call).Some? then Applied(raced, call).value else raced;
    ok := store.Commit(change);
    GrowsTransitive(before, raced, store.state);
  }

  function BundleOp(run: Run): Op {
    AppendExecutionBundle(run.bundle, BundleRow(run.target, run.kind, run.version, run.sha, ""))
  }

  predicate Registers(s: State, run: Run, c: Circumstances) {
    if run.bundle in s.bundles then Known(s, run) else Appends(s, BundleOp(run), c)
  }

  function AfterRegister(s: State, run: Run, c: Circumstances): State {
    if run.bundle in s.bundles then s else AfterAppend(s, BundleOp(run), c)
  }

  lemma AppendedBundle(s: State, run: Run, c: Circumstances)
    requires Appends(s, BundleOp(run), c)
    ensures Known(AfterAppend(s, BundleOp(run), c), run)
  {
    hide ChangedAll;
  }

  /** Success means that the bundle is known with exactly the metadata of the run, whatever others have
      written meanwhile. */
  method RegisterBundle(store: Store, run: Run, c: Circumstances) returns (ok: bool)
    requires Inv(store.state)
    modifies store
    ensures ok <==> Registers(old(store.state), run, c)
    ensures store.state == AfterRegister(old(store.state), run, c)
    ensures Inv(store.state) && Grows(old(store.state), store.state)
    ensures ok ==> Known(store.state, run)
  {
    hide Inv, Appends, AfterAppend;
    if run.bundle in store.state.bundles {
      return Known(store.state, run);
    }
    ghost var before := store.state;
    ok := Append(store, BundleOp(run), c);
    if ok {
      AppendedBundle(before, run, c);
    }
  }

  function RecordOp(proof: Proof): Op { AppendExecutionRecord(proof.run, RecordOf(proof)) }

  predicate Finishes(s: State, run: Run, proof: Proof, c: Circumstances) {
    && SameIdentity(run, proof) && Terminal(proof.status)
    && if run.id in s.records then Recorded(s, proof) else Appends(s, RecordOp(proof), c)
  }

  function AfterFinish(s: State, run: Run, proof: Proof, c: Circumstances): State {
    if !SameIdentity(run, proof) || !Terminal(proof.status) || run.id in s.records then s else AfterAppend(s, RecordOp(proof), c)
  }

  lemma AppendedRecord(s: State, proof: Proof, c: Circumstances)
    requires Appends(s, RecordOp(proof), c)
    ensures Recorded(AfterAppend(s, RecordOp(proof), c), proof)
  {
    hide ChangedAll;
  }

  /** Only a terminal proof of the run enters the history, once; success means that it is there. */
  method Finished(store: Store, run: Run, proof: Proof, c: Circumstances) returns (ok: bool)
    requires Inv(store.state)
    modifies store
    ensures ok <==> Finishes(old(store.state), run, proof, c)
    ensures store.state == AfterFinish(old(store.state), run, proof, c)
    ensures Inv(store.state) && Grows(old(store.state), store.state)
    ensures ok ==> Recorded(store.state, proof)
  {
    hide Inv, Appends, AfterAppend;
    if !SameIdentity(run, proof) || !Terminal(proof.status) {
      return false;
    }
    if run.id in store.state.records {
      return store.state.records[run.id] == RecordOf(proof);
    }
    ghost var before := store.state;
    ok := Append(store, RecordOp(proof), c);
    if ok {
      AppendedRecord(before, proof, c);
    }
  }

  // ---------- Nobody else writes records ----------

  ghost predicate NoRecords(cs: seq<Change>) {
    forall i, k :: 0 <= i < |cs| && 0 <= k < |cs[i].calls| ==> !cs[i].calls[k].op.AppendExecutionRecord?
  }

  lemma TargetKeepsRecords(s: State, op: Op)
    requires TargetOp(s, op).Some?
    ensures TargetOp(s, op).value.records == s.records
  {
    hide ValidDesired, SecretsIn, Text.Blank, Trim, KnownTrust;
  }

  lemma SourceKeepsRecords(s: State, op: Op)
    requires SourceOp(s, op).Some?
    ensures SourceOp(s, op).value.records == s.records
  {
    hide SameSource, CompleteSource, CompleteWorkspace, Text.Blank;
  }

  lemma SecretKeepsRecords(s: State, op: Op, now: string)
    requires SecretOp(s, op, now).Some?
    ensures SecretOp(s, op, now).value.records == s.records
  {
    hide Referenced, Text.Blank, SecretId, KnownOrigin;
  }

  lemma HistoryKeepsRecords(s: State, op: Op, now: string)
    requires HistoryOp(s, op, now).Some? && !op.AppendExecutionRecord?
    ensures HistoryOp(s, op, now).value.records == s.records
  {
    hide CompleteBackup, Text.Blank;
  }

  lemma OtherOp(s: State, c: Call)
    requires Applied(s, c).Some? && !c.op.AppendExecutionRecord?
    ensures Applied(s, c).value.records == s.records
  {
    hide TargetOp, SecretOp, SourceOp, HistoryOp;
    if TargetOp(s, c.op).Some? {
      TargetKeepsRecords(s, c.op);
    }
    if SourceOp(s, c.op).Some? {
      SourceKeepsRecords(s, c.op);
    }
    if SecretOp(s, c.op, c.now).Some? {
      SecretKeepsRecords(s, c.op, c.now);
    }
    if HistoryOp(s, c.op, c.now).Some? {
      HistoryKeepsRecords(s, c.op, c.now);
    }
  }

  lemma {:induction false} OtherCalls(s: State, calls: seq<Call>)
    requires forall k :: 0 <= k < |calls| ==> !calls[k].op.AppendExecutionRecord?
    ensures Attempted(s, calls).records == s.records
    decreases |calls|
  {
    if calls != [] {
      hide Applied;
      var before, last := Attempted(s, calls[..|calls|-1]), calls[|calls|-1];
      OtherCalls(s, calls[..|calls|-1]);
      if Applied(before, last).Some? {
        OtherOp(before, last);
      }
    }
  }

  lemma {:induction false} OtherChanges(s: State, cs: seq<Change>)
    requires NoRecords(cs)
    ensures ChangedAll(s, cs).records == s.records
    decreases |cs|
  {
    if cs != [] {
      hide Attempted;
      var n := |cs| - 1;
      assert forall i :: 0 <= i < n ==> cs[..n][i] == cs[i];
      OtherChanges(s, cs[..n]);
      OtherCalls(ChangedAll(s, cs[..n]), cs[n].calls);
    }
  }

  lemma RegisterKeepsRecords(s: State, run: Run, c: Circumstances)
    requires NoRecords(c.race)
    ensures AfterRegister(s, run, c).records == s.records
  {
    OtherChanges(s, c.race);
    hide ChangedAll, Applied;
    if Applied(ChangedAll(s, c.race), Appending(BundleOp(run), c)).Some? {
      OtherOp(ChangedAll(s, c.race), Appending(BundleOp(run), c));
    }
  }

  /** The proof of the run is the only thing that can be new. */
  lemma FinishAddsProof(s: State, run: Run, proof: Proof, c: Circumstances)
    requires NoRecords(c.race)
    ensures var after := AfterFinish(s, run, proof, c).records;
      after == s.records || (Terminal(proof.status) && SameIdentity(run, proof) && run.id !in s.records &&
                             after == s.records[run.id := RecordOf(proof)])
    ensures !Finishes(s, run, proof, c) ==> AfterFinish(s, run, proof, c).records == s.records
  {
    OtherChanges(s, c.race);
    hide ChangedAll;
  }
}
