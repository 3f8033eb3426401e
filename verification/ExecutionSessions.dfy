/** Whole sequences of executions, reconciliations and other changes: what the history and the target
    see over all of them (`internal/execution/executor.go` with `internal/executionstate/adapter.go`). */
module ExecutionSessions {
  import opened Prelude
  import opened Checksums
  import opened ManagementState
  import opened ExecutionHistory
  import opened Executor
  import Assembly

  // ---------- Justification of the history ----------

  predicate ProofSeen(id: string, row: RecordRow, call: TargetCall) {
    && call.Observed? && call.run == id && call.seen.proof.Some?
    && Terminal(call.seen.proof.value.status) && call.seen.proof.value.run == id && RecordOf(call.seen.proof.value) == row
  }

  /** Every record is that of a terminal proof which the target showed for this run. */
  ghost predicate Justified(records: map<string, RecordRow>, calls: seq<TargetCall>) {
    forall id :: id in records ==> exists i :: 0 <= i < |calls| && ProofSeen(id, records[id], calls[i])
  }

  lemma StillJustified(records: map<string, RecordRow>, calls: seq<TargetCall>, more: seq<TargetCall>)
    requires Justified(records, calls)
    ensures Justified(records, calls + more)
  {
    forall id | id in records ensures exists i :: 0 <= i < |calls + more| && ProofSeen(id, records[id], (calls + more)[i]) {
      var i :| 0 <= i < |calls| && ProofSeen(id, records[id], calls[i]);
      assert (calls + more)[i] == calls[i];
    }
  }

  lemma RecordJustified(before: map<string, RecordRow>, planned: Run, past: seq<TargetCall>, calls: seq<TargetCall>,
                        after: map<string, RecordRow>)
    requires Justified(before, past) && RecordsAfter(before, planned, calls, after)
    ensures Justified(after, past + calls)
  {
    var all := past + calls;
    StillJustified(before, past, calls);
    if after != before {
      forall id | id in after ensures exists i :: 0 <= i < |all| && ProofSeen(id, after[id], all[i]) {
        if id == planned.id {
          assert ProofSeen(id, after[id], all[|all|-1]);
        } else {
          assert id in before && after[id] == before[id];
        }
      }
    }
  }

  // ---------- One start, one delivery ----------

  predicate Acts(call: TargetCall) { call.Started? || call.Sent? }

  predicate SameAct(a: TargetCall, b: TargetCall) {
    ((a.Started? && b.Started?) || (a.Sent? && b.Sent?)) && a.run == b.run
  }

  /** No run is started twice, and none is sent secrets twice. */
  ghost predicate Once(calls: seq<TargetCall>) { forall i, j :: 0 <= i < j < |calls| ==> !SameAct(calls[i], calls[j]) }

  ghost predicate NotYet(calls: seq<TargetCall>, id: string) { forall i :: 0 <= i < |calls| && Acts(calls[i]) ==> calls[i].run != id }

  lemma ExecuteActs(run: Run, resolve: string -> Option<string>, refs: seq<Assembly.SecretRef>, calls: seq<TargetCall>)
    requires ExecuteCalls(run, resolve, refs, calls)
    ensures Once(calls) && forall i :: 0 <= i < |calls| && Acts(calls[i]) ==> calls[i].run == run.id
  {
    hide SentInTurn;
    if |calls| >= 2 {
      var polled := calls[2..];
      assert calls[0] == calls[..2][0] && calls[1] == calls[..2][1];
      assert forall i :: 2 <= i < |calls| ==> calls[i] == polled[i - 2];
    }
  }

  lemma OnceMore(past: seq<TargetCall>, calls: seq<TargetCall>, id: string)
    requires Once(past) && Once(calls) && NotYet(past, id)
    requires forall i :: 0 <= i < |calls| && Acts(calls[i]) ==> calls[i].run == id
    ensures Once(past + calls)
  {
    var all := past + calls;
    forall i, j | 0 <= i < j < |all| ensures !SameAct(all[i], all[j]) {
      if i < |past| <= j {
        assert all[i] == past[i] && all[j] == calls[j - |past|];
      } else if |past| <= i {
        assert all[i] == calls[i - |past|] && all[j] == calls[j - |past|];
      }
    }
  }

  lemma StillNotYet(past: seq<TargetCall>, calls: seq<TargetCall>, id: string, other: string)
    requires NotYet(past, other) && id != other
    requires forall i :: 0 <= i < |calls| && Acts(calls[i]) ==> calls[i].run == id
    ensures NotYet(past + calls, other)
  {
  }

  // ---------- Sessions ----------

  datatype Session =
    | Execution(target: string, archive: Bundle, runId: string, outside: Outside)
    | Reconciliation(target: string, run: string, bundle: string, sha: string, seen: Option<Observation>, finish: Circumstances)
    | Other(changes: seq<Change>)

  /** Records are written by executions and reconciliations only. */
  ghost predicate Quiet(x: Session) {
    match x
    case Execution(_, _, _, o) => OthersWriteNoRecords(o)
    case Reconciliation(_, _, _, _, _, c) => NoRecords(c.race)
    case Other(cs) => NoRecords(cs)
  }

  method RunSession(store: Store, c: Assembly.Codec, x: Session, ghost past: seq<TargetCall>) returns (calls: seq<TargetCall>)
    requires IsSha(c.sha) && Inv(store.state) && Quiet(x) && Justified(store.state.records, past)
    modifies store
    ensures Inv(store.state) && Grows(old(store.state), store.state)
    ensures Justified(store.state.records, past + calls)
    ensures Once(calls) && forall i :: 0 <= i < |calls| && Acts(calls[i]) ==> x.Execution? && calls[i].run == x.runId
  {
    hide Inv, Grows, Runnable, ManifestOf, Decided, ExecuteCalls, NoRecords, Justified, RecordsAfter, EndRecorded;
    ghost var before := store.state;
    match x
    case Execution(target, bundle, runId, o) =>
      ghost var planned := Planned(c, target, bundle, Some(runId));
      var run, error;
      run, error, calls := Execute(store, c, target, bundle, Some(runId), o);
      if planned.Some? {
        RecordJustified(before.records, planned.value, past, calls, store.state.records);
        ExecuteActs(planned.value, o.resolve, ManifestOf(c, bundle).value.secrets, calls);
      } else {
        StillJustified(before.records, past, calls);
      }
    case Reconciliation(target, id, bundle, sha, seen, finish) =>
      var run, ok;
      run, ok, calls := Reconcile(store, target, id, bundle, sha, seen, finish);
      RecordJustified(before.records, Reconciled(target, id, bundle, sha), past, calls, store.state.records);
    case Other(changes) =>
      calls := [];
      CommitAll(store, changes);
      OtherChanges(before, changes);
      StillJustified(before.records, past, calls);
  }

  ghost predicate FreshIds(xs: seq<Session>, calls: seq<TargetCall>) {
    && (forall i, j :: 0 <= i < j < |xs| && xs[i].Execution? && xs[j].Execution? ==> xs[i].runId != xs[j].runId)
    && (forall i :: 0 <= i < |xs| && xs[i].Execution? ==> NotYet(calls, xs[i].runId))
  }

  /** Over any sequence of executions and reconciliations between other changes: history only grows, so no
      record ever changes; every record is that of a terminal proof which the target showed for that run;
      and as long as run IDs are not allocated twice, no run is started twice or sent secrets twice. */
  method RunSessions(store: Store, c: Assembly.Codec, xs: seq<Session>, past: seq<TargetCall>) returns (calls: seq<TargetCall>)
    requires IsSha(c.sha) && Inv(store.state) && forall i :: 0 <= i < |xs| ==> Quiet(xs[i])
    requires Justified(store.state.records, past) && Once(past) && FreshIds(xs, past)
    modifies store
    ensures Inv(store.state) && Grows(old(store.state), store.state)
    ensures past <= calls && Justified(store.state.records, calls) && Once(calls)
  {
    hide Inv, Grows, Quiet, Justified, Once, NotYet;
    ghost var start := store.state;
    calls := past;
    GrowsItself(start);
    for k := 0 to |xs|
      invariant Inv(store.state) && Grows(start, store.state)
      invariant past <= calls && Justified(store.state.records, calls) && Once(calls)
      invariant forall i :: k <= i < |xs| && xs[i].Execution? ==> NotYet(calls, xs[i].runId)
    {
      ghost var before := store.state;
      var more := RunSession(store, c, xs[k], calls);
      GrowsTransitive(start, before, store.state);
      ghost var id := if xs[k].Execution? then xs[k].runId else "";
      if xs[k].Execution? {
        OnceMore(calls, more, id);
        forall i | k < i < |xs| && xs[i].Execution? ensures NotYet(calls + more, xs[i].runId) {
          StillNotYet(calls, more, id, xs[i].runId);
        }
      } else {
        NothingActs(calls, more);
      }
      calls := calls + more;
    }
  }

  lemma NothingActs(past: seq<TargetCall>, calls: seq<TargetCall>)
    requires forall i :: 0 <= i < |calls| ==> !Acts(calls[i])
    ensures Once(past) ==> Once(past + calls)
    ensures forall id :: NotYet(past, id) ==> NotYet(past + calls, id)
  {
    assert forall i :: |past| <= i < |past + calls| ==> (past + calls)[i] == calls[i - |past|];
  }
}
