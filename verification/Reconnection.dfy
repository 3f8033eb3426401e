/** Comparison of restored execution history with the proofs on a target (`Reconcile` and
    `compareReconnection` in `internal/recoverypackage/service.go`). */
module Reconnection {
  import opened Prelude
  import opened Ordering
  import opened Checksums
  import opened ManagementState
  import opened StateRecovery
  import opened ExecutionHistory
  import opened Executor
  import RecoveryImport
  import Assembly

  /** What the inspection of a target reports about one execution proof. */
  datatype Fact = Fact(id: string, bundle: string, sha: string, outcome: string)

  datatype DifferenceKind = BundleMismatch | HistoryMismatch | LocalOnlyRun | TargetOnlyBundle | TargetOnlyRun

  datatype Difference = Difference(kind: DifferenceKind, execution: string, bundle: string, local: string, target: string)

  /** The kinds in the order of their names. */
  function KindKey(k: DifferenceKind): string {
    match k
    case BundleMismatch => "b"
    case HistoryMismatch => "e"
    case LocalOnlyRun => "l"
    case TargetOnlyBundle => "tb"
    case TargetOnlyRun => "tr"
  }

  function DifferenceKey(d: Difference): Key { [KindKey(d.kind), d.execution, d.bundle] }

  // ---------- What counts as a difference ----------

  function LocalBundles(s: State, target: string): map<string, BundleRow> {
    map id | id in s.bundles && s.bundles[id].target == target :: s.bundles[id]
  }

  function LocalRecords(s: State, target: string): map<string, RecordRow> {
    map id | id in s.records && s.records[id].target == target :: s.records[id]
  }

  predicate FromProof(bundles: map<string, BundleRow>, records: map<string, RecordRow>, f: Fact, d: Difference) {
    if f.bundle !in bundles then d == Difference(TargetOnlyBundle, f.id, f.bundle, "", f.sha)
    else
      || (bundles[f.bundle].sha != f.sha && d == Difference(BundleMismatch, f.id, f.bundle, bundles[f.bundle].sha, f.sha))
      || (f.id !in records && d == Difference(TargetOnlyRun, f.id, f.bundle, "", f.outcome))
      || (f.id in records && (records[f.id].bundle != f.bundle || records[f.id].outcome != f.outcome) &&
          d == Difference(HistoryMismatch, f.id, f.bundle, records[f.id].bundle + ":" + records[f.id].outcome,
                          f.bundle + ":" + f.outcome))
  }

  predicate HasFact(facts: seq<Fact>, id: string) { exists k :: 0 <= k < |facts| && facts[k].id == id }

  predicate FromRecord(records: map<string, RecordRow>, facts: seq<Fact>, d: Difference) {
    && d.execution in records && !HasFact(facts, d.execution)
    && d == Difference(LocalOnlyRun, d.execution, records[d.execution].bundle, records[d.execution].outcome, "")
  }

  ghost predicate FromProofs(bundles: map<string, BundleRow>, records: map<string, RecordRow>, facts: seq<Fact>, d: Difference) {
    exists k :: 0 <= k < |facts| && FromProof(bundles, records, facts[k], d)
  }

  ghost predicate IsDifference(s: State, target: string, facts: seq<Fact>, d: Difference) {
    || FromProofs(LocalBundles(s, target), LocalRecords(s, target), facts, d)
    || FromRecord(LocalRecords(s, target), facts, d)
  }

  /** A proof has a local bundle of the same hash and a local record of the same bundle and outcome. */
  predicate Agrees(s: State, target: string, f: Fact) {
    && f.bundle in s.bundles && s.bundles[f.bundle].target == target && s.bundles[f.bundle].sha == f.sha
    && f.id in s.records && s.records[f.id].target == target
    && s.records[f.id].bundle == f.bundle && s.records[f.id].outcome == f.outcome
  }

  ghost predicate Consistent(s: State, target: string, facts: seq<Fact>) {
    && (forall k :: 0 <= k < |facts| ==> Agrees(s, target, facts[k]))
    && (forall id :: id in s.records && s.records[id].target == target ==> HasFact(facts, id))
  }

  lemma DisagreementShows(s: State, target: string, facts: seq<Fact>, k: nat) returns (d: Difference)
    requires k < |facts| && !Agrees(s, target, facts[k])
    ensures IsDifference(s, target, facts, d)
  {
    var f, bundles, records := facts[k], LocalBundles(s, target), LocalRecords(s, target);
    d := if f.bundle !in bundles then Difference(TargetOnlyBundle, f.id, f.bundle, "", f.sha)
         else if bundles[f.bundle].sha != f.sha then Difference(BundleMismatch, f.id, f.bundle, bundles[f.bundle].sha, f.sha)
         else if f.id !in records then Difference(TargetOnlyRun, f.id, f.bundle, "", f.outcome)
         else Difference(HistoryMismatch, f.id, f.bundle, records[f.id].bundle + ":" + records[f.id].outcome, f.bundle + ":" + f.outcome);
    assert FromProof(bundles, records, f, d);
  }

  /** There is no difference exactly if every proof agrees with the history and every local record of the
      target has a proof. */
  lemma MatchesExactly(s: State, target: string, facts: seq<Fact>)
    ensures (forall d :: !IsDifference(s, target, facts, d)) <==> Consistent(s, target, facts)
  {
    if Consistent(s, target, facts) {
      forall d ensures !IsDifference(s, target, facts, d) {
        forall k | 0 <= k < |facts| ensures !FromProof(LocalBundles(s, target), LocalRecords(s, target), facts[k], d) {
          assert Agrees(s, target, facts[k]);
        }
      }
    }
    if !Consistent(s, target, facts) {
      if k :| 0 <= k < |facts| && !Agrees(s, target, facts[k]) {
        var d := DisagreementShows(s, target, facts, k);
      } else {
        var id :| id in s.records && s.records[id].target == target && !HasFact(facts, id);
        var d := Difference(LocalOnlyRun, id, s.records[id].bundle, s.records[id].outcome, "");
        assert FromRecord(LocalRecords(s, target), facts, d);
        assert IsDifference(s, target, facts, d);
      }
    }
  }

  // ---------- The comparison ----------

  ghost predicate Kept<T>(rows: Rows<T>, n: nat, keep: T -> bool, kept: map<string, T>) {
    && n <= |rows|
    && (forall id :: id in kept ==> exists k :: 0 <= k < n && rows[k] == (id, kept[id]) && keep(kept[id]))
    && (forall k :: 0 <= k < n && keep(rows[k].1) ==> rows[k].0 in kept)
  }

  method Keep<T(!new)>(m: map<string, T>, rows: Rows<T>, keep: T -> bool) returns (kept: map<string, T>)
    requires IsListing(m, rows)
    ensures kept == map id | id in m && keep(m[id]) :: m[id]
  {
    kept := map[];
    for i := 0 to |rows|
      invariant Kept(rows, i, keep, kept)
    {
      if keep(rows[i].1) {
        kept := kept[rows[i].0 := rows[i].1];
      }
    }
    forall id | id in m && keep(m[id]) ensures id in kept {
      var k := RowIn(m, rows, id);
    }
  }

  method CompareProof(bundles: map<string, BundleRow>, records: map<string, RecordRow>, f: Fact) returns (found: seq<Difference>)
    ensures forall d :: d in found <==> FromProof(bundles, records, f, d)
  {
    if f.bundle !in bundles {
      return [Difference(TargetOnlyBundle, f.id, f.bundle, "", f.sha)];
    }
    found := [];
    if bundles[f.bundle].sha != f.sha {
      found := found + [Difference(BundleMismatch, f.id, f.bundle, bundles[f.bundle].sha, f.sha)];
    }
    if f.id !in records {
      found := found + [Difference(TargetOnlyRun, f.id, f.bundle, "", f.outcome)];
    } else if records[f.id].bundle != f.bundle || records[f.id].outcome != f.outcome {
      found := found + [Difference(HistoryMismatch, f.id, f.bundle, records[f.id].bundle + ":" + records[f.id].outcome,
                                   f.bundle + ":" + f.outcome)];
    }
  }

  method CompareProofs(bundles: map<string, BundleRow>, records: map<string, RecordRow>, facts: seq<Fact>)
    returns (found: seq<Difference>, proofs: map<string, Fact>)
    ensures forall d :: d in found <==> FromProofs(bundles, records, facts, d)
    ensures forall id :: id in proofs <==> HasFact(facts, id)
  {
    hide FromProof;
    found, proofs := [], map[];
    for i := 0 to |facts|
      invariant forall d :: d in found <==> exists k :: 0 <= k < i && FromProof(bundles, records, facts[k], d)
      invariant forall id :: id in proofs <==> exists k :: 0 <= k < i && facts[k].id == id
    {
      proofs := proofs[facts[i].id := facts[i]];
      var more := CompareProof(bundles, records, facts[i]);
      found := found + more;
    }
  }

  method CompareRecords(records: map<string, RecordRow>, facts: seq<Fact>, proofs: map<string, Fact>) returns (found: seq<Difference>)
    requires forall id :: id in proofs <==> HasFact(facts, id)
    ensures forall d :: d in found <==> FromRecord(records, facts, d)
  {
    found := [];
    var todo := records.Keys;
    while todo != {}
      invariant todo <= records.Keys
      invariant forall d :: d in found <==> d.execution !in todo && FromRecord(records, facts, d)
      decreases |todo|
    {
      var id :| id in todo;
      if id !in proofs {
        found := found + [Difference(LocalOnlyRun, id, records[id].bundle, records[id].outcome, "")];
      }
      todo := todo - {id};
    }
  }

  datatype Report = Report(matches: bool, differences: seq<Difference>)

  method LocalHistory(normal: string -> string, s: State, target: string)
    returns (bundles: map<string, BundleRow>, records: map<string, RecordRow>)
    ensures bundles == LocalBundles(s, target) && records == LocalRecords(s, target)
  {
    hide IsListing, NormalizedTargets, MetaTable;
    var x := TakeSnapshot(normal, s);
    bundles := Keep(s.bundles, x.bundles, (b: BundleRow) => b.target == target);
    records := Keep(s.records, x.records, (b: RecordRow) => b.target == target);
  }

  method Collect(bundles: map<string, BundleRow>, records: map<string, RecordRow>, facts: seq<Fact>) returns (sorted: seq<Difference>)
    ensures forall d :: d in sorted <==> FromProofs(bundles, records, facts, d) || FromRecord(records, facts, d)
    ensures SortedBy(sorted, DifferenceKey)
    ensures sorted == [] <==> forall d :: d !in sorted
  {
    hide FromProofs, FromRecord;
    var found, proofs := CompareProofs(bundles, records, facts);
    var local := CompareRecords(records, facts, proofs);
    var all := found + local;
    sorted := Sort(all, DifferenceKey);
    SortSorts(all, DifferenceKey);
    PermutationMembers(sorted, all);
    if sorted != [] {
      assert sorted[0] in sorted;
    }
  }

  /** Exactly the differences, in the order of kind, execution and bundle; and none exactly if history and
      proofs are consistent. The comparison changes neither side. */
  ghost predicate IsReport(s: State, target: string, facts: seq<Fact>, r: Report) {
    && (forall d :: d in r.differences <==> IsDifference(s, target, facts, d))
    && SortedBy(r.differences, DifferenceKey)
    && (r.matches <==> Consistent(s, target, facts))
  }

  method Reconnect(normal: string -> string, s: State, target: string, facts: seq<Fact>) returns (r: Option<Report>)
    ensures r.Some? <==> target != "" && target in s.targets
    ensures r.Some? ==> IsReport(s, target, facts, r.value)
  {
    if target == "" {
      return None;
    }
    if target !in s.targets {
      return None;
    }
    var bundles, records := LocalHistory(normal, s, target);
    hide FromProofs, FromRecord, Consistent, LocalBundles, LocalRecords;
    var differences := Collect(bundles, records, facts);
    MatchesExactly(s, target, facts);
    r := Some(Report(differences == [], differences));
  }

  // ---------- What executions and recovery leave consistent ----------

  function FactOf(p: Proof): Fact { Fact(p.run, p.bundle, p.sha, OutcomeText(p.status)) }

  /** What an execution or reconciliation has recorded agrees with its proof, now and in every later state. */
  lemma RecordedAgrees(s: State, later: State, run: Run, proof: Proof)
    requires Known(s, run) && Recorded(s, proof) && SameIdentity(run, proof) && Grows(s, later)
    ensures Agrees(later, proof.target, FactOf(proof))
  {
  }

  /** A restored state gives the same differences as the state that was exported. */
  lemma RecoveryKeepsReport(normal: string -> string, s: State, includePat: bool, r: Recovery, into: State, id: string,
                            imported: BackupRow, target: string, facts: seq<Fact>, report: Report)
    requires Inv(s) && IsExport(normal, s, includePat, r) && ValidImported(id, imported)
    requires Replaced(into, WithoutBackups(r), id, imported).Some?
    ensures IsReport(Replaced(into, WithoutBackups(r), id, imported).value, target, facts, report) <==> IsReport(s, target, facts, report)
  {
    hide Inv, IsExport, Replaced, IsReport, ValidImported;
    ExportImports(normal, s, includePat, r, into, id, imported);
    SameHistory(s, Restored(normal, s, includePat, id, imported), target, facts, report);
  }

  lemma SameHistory(s: State, s': State, target: string, facts: seq<Fact>, report: Report)
    requires s.bundles == s'.bundles && s.records == s'.records
    ensures IsReport(s', target, facts, report) <==> IsReport(s, target, facts, report)
  {
    hide FromProofs, FromRecord;
    assert LocalBundles(s', target) == LocalBundles(s, target) && LocalRecords(s', target) == LocalRecords(s, target);
  }

  /** The history row of an executed bundle repeats its manifest, which is what a recovery import asks of it. */
  lemma ExecutedBundleRow(c: Assembly.Codec, target: string, b: Bundle, runId: Option<string>, s: State)
    requires IsSha(c.sha) && Planned(c, target, b, runId).Some? && Known(s, Planned(c, target, b, runId).value)
    ensures RecoveryImport.ArchiveOk(c, (b.id, s.bundles[b.id]), b.bytes)
  {
    var m := ManifestOf(c, b).value;
    assert RecoveryImport.RowMatches((b.id, s.bundles[b.id]), m);
  }
}
