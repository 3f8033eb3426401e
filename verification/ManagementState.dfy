/** The tables of the management state, the operations of a change and the transaction around them
    (`internal/managementstate`: store.go, source_state.go, bootstrap_target.go, ssh_identity.go and
    the migrations). Tables are maps by primary key; a secret row holds its value in the clear. */
module ManagementState {
  import opened Prelude
  import opened Text
  import opened Modules

  datatype Trust = Unknown | Confirmed | Blocked | Unset | OtherTrust

  datatype Origin = Generated | User | System | OtherOrigin

  datatype SourceKind = CloudInit | CoreSource | EmbeddedN8n | CustomModule | OtherSource

  datatype BackupType = RecoveryPackage | CoreBackup | ModuleBackup | RestorePoint | OtherBackup

  datatype DesiredModule = DesiredModule(instanceId: string, packageId: string, version: string, secretIds: seq<string>,
                                         dependencies: seq<Dependency>, resources: string)

  datatype Desired = Desired(settings: string, modules: seq<DesiredModule>)

  datatype Target = Target(address: string, sshUser: string, identity: string, hostKey: string, fingerprint: string,
                           trust: Trust, desired: Desired, observed: string)

  datatype SourceArtifact = SourceArtifact(kind: SourceKind, packageId: string, packagePath: string, version: string,
                                           commit: string, sha: string, storageRef: string)

  datatype Workspace = Workspace(kind: SourceKind, packageId: string, packagePath: string, base: string, baseCommit: string,
                                 sha: string, storageRef: string, synchronized: string)

  datatype Github = Github(owner: string, repository: string, ref: string, pat: string)

  datatype Secret = Secret(name: string, origin: Origin, createdAt: string, rotatedAt: string, rotations: int,
                           value: Option<string>)

  datatype BundleRow = BundleRow(target: string, kind: string, version: string, sha: string, createdAt: string)

  datatype RecordRow = RecordRow(bundle: string, target: string, outcome: string, startedAt: string, finishedAt: string)

  datatype BackupRow = BackupRow(kind: BackupType, target: string, instance: string, createdAt: string, location: string,
                                 sha: string)

  datatype State = State(targets: map<string, Target>, artifacts: map<string, SourceArtifact>,
                         workspaces: map<string, Workspace>, github: Option<Github>, secrets: map<string, Secret>,
                         bundles: map<string, BundleRow>, records: map<string, RecordRow>, backups: map<string, BackupRow>)

  const EMPTY := State(map[], map[], map[], None, map[], map[], map[], map[])

  // ---------- Constraints of the tables ----------

  predicate KnownTrust(t: Trust) { t in {Unknown, Confirmed, Blocked} }

  predicate KnownOrigin(o: Origin) { o in {Generated, User, System} }

  /** Unique over kind, package, commit and hash. */
  predicate SameSource(a: SourceArtifact, b: SourceArtifact) {
    a.kind == b.kind && a.packageId == b.packageId && a.commit == b.commit && a.sha == b.sha
  }

  // ---------- Desired states ----------

  predicate CompleteModule(m: DesiredModule) {
    && m.instanceId != "" && m.packageId != "" && !Blank(m.version)
    && forall d :: d in m.dependencies ==> d.targetModule != "" && !Blank(d.interfaceId) && !Blank(d.consumer)
  }

  predicate ValidDesired(d: Desired) {
    && (forall m :: m in d.modules ==> CompleteModule(m))
    && (forall i, j :: 0 <= i < j < |d.modules| ==> d.modules[i].instanceId != d.modules[j].instanceId)
  }

  /** Every secret that a desired module names is among the given ones. */
  predicate SecretsIn(d: Desired, ids: set<string>) {
    forall m :: m in d.modules ==> forall id :: id in m.secretIds ==> id in ids
  }

  /** `validateDesired` */
  method ValidateDesired(d: Desired) returns (ok: bool)
    ensures ok <==> ValidDesired(d)
  {
    var seen: set<string> := {};
    for i := 0 to |d.modules|
      invariant forall k :: 0 <= k < i ==> CompleteModule(d.modules[k]) && d.modules[k].instanceId in seen
      invariant forall id :: id in seen ==> exists k :: 0 <= k < i && d.modules[k].instanceId == id
      invariant forall j, k :: 0 <= j < k < i ==> d.modules[j].instanceId != d.modules[k].instanceId
    {
      var m := d.modules[i];
      assert m in d.modules;
      if m.instanceId == "" || m.packageId == "" || Blank(m.version) {
        return false;
      }
      if m.instanceId in seen {
        return false;
      }
      seen := seen + {m.instanceId};
      for j := 0 to |m.dependencies|
        invariant forall k :: 0 <= k < j ==>
          m.dependencies[k].targetModule != "" && !Blank(m.dependencies[k].interfaceId) && !Blank(m.dependencies[k].consumer)
      {
        var dep := m.dependencies[j];
        if dep.targetModule == "" || Blank(dep.interfaceId) || Blank(dep.consumer) {
          assert dep in m.dependencies && !CompleteModule(m);
          return false;
        }
      }
    }
    return true;
  }

  // ---------- Operations ----------

  datatype Op =
    | CreateTarget(id: string, target: Target)
    | CreatePendingTarget(id: string, sshUser: string)
    | SetTargetAddress(id: string, address: string)
    | SetSshTrust(id: string, hostKey: string, fingerprint: string, trust: Trust)
    | SetSshIdentity(id: string, secret: string)
    | SetDesiredState(id: string, desired: Desired)
    | RecordObservedState(id: string, observed: string)
    | CreateSecret(random: string, name: string, origin: Origin)
    | SetSecret(id: string, value: string)
    | RotateSecret(id: string, value: string)
    | DeleteSecret(id: string)
    | RegisterSourceArtifact(id: string, artifact: SourceArtifact)
    | CreateSourceWorkspace(id: string, workspace: Workspace)
    | UpdateSourceWorkspaceCurrent(id: string, sha: string)
    | MarkSourceWorkspaceSynchronized(id: string, commit: string, sha: string)
    | ConfigureCustomModuleGithub(github: Github)
    | AppendExecutionBundle(id: string, bundle: BundleRow)
    | AppendExecutionRecord(id: string, record: RecordRow)
    | RegisterBackup(id: string, backup: BackupRow)
    | DeleteBackup(id: string)

  /** An attempted operation: `now` is the clock, and `refused` says that the search for secret text in
      the data, or the database itself, turns it down. */
  datatype Call = Call(op: Op, now: string, refused: bool)

  const NOTHING_DESIRED := Desired("", [])

  function SecretId(random: string): string { "secret_" + random }

  function Trim(s: string): string { TrimRight(TrimLeft(s)) }

  function TrimLeft(s: string): string { if s != "" && IsSpace(s[0]) then TrimLeft(s[1..]) else s }

  function TrimRight(s: string): string { if s != "" && IsSpace(s[|s|-1]) then TrimRight(s[..|s|-1]) else s }

  /** Some target, the GitHub configuration or a desired module names the secret. */
  predicate Referenced(s: State, id: string) {
    || (exists t :: t in s.targets && s.targets[t].identity == id)
    || (s.github.Some? && s.github.value.pat == id)
    || (exists t :: t in s.targets && Desires(s.targets[t].desired, id))
  }

  predicate Desires(d: Desired, id: string) { exists m :: m in d.modules && id in m.secretIds }

  function WithTarget(s: State, id: string, t: Target): State { s.(targets := s.targets[id := t]) }

  function WithSecret(s: State, id: string, x: Secret): State { s.(secrets := s.secrets[id := x]) }

  function TargetOp(s: State, op: Op): Option<State> {
    match op
    case CreateTarget(id, t) =>
      var trust := if t.trust == Unset then Unknown else t.trust;
      if id == "" || Blank(t.address) || Blank(t.sshUser) || !KnownTrust(trust) || id in s.targets ||
         (t.identity != "" && t.identity !in s.secrets) then None
      else Some(WithTarget(s, id, t.(trust := trust, desired := NOTHING_DESIRED, observed := "")))
    case CreatePendingTarget(id, user) =>
      if id == "" || Blank(user) || id in s.targets then None
      else Some(WithTarget(s, id, Target("", user, "", "", "", Unknown, NOTHING_DESIRED, "")))
    case SetTargetAddress(id, address) =>
      if Trim(address) == "" || id !in s.targets then None
      else Some(WithTarget(s, id, s.targets[id].(address := Trim(address))))
    case SetSshTrust(id, hostKey, fingerprint, trust) =>
      if !KnownTrust(trust) || id !in s.targets then None
      else Some(WithTarget(s, id, s.targets[id].(hostKey := hostKey, fingerprint := fingerprint, trust := trust)))
    case SetSshIdentity(id, secret) =>
      if secret == "" || secret !in s.secrets || id !in s.targets then None
      else Some(WithTarget(s, id, s.targets[id].(identity := secret)))
    case SetDesiredState(id, desired) =>
      if !ValidDesired(desired) || !SecretsIn(desired, s.secrets.Keys) || id !in s.targets then None
      else Some(WithTarget(s, id, s.targets[id].(desired := desired)))
    case RecordObservedState(id, observed) =>
      if id !in s.targets then None else Some(WithTarget(s, id, s.targets[id].(observed := observed)))
    case _ => None
  }

  function SecretOp(s: State, op: Op, now: string): Option<State> {
    match op
    case CreateSecret(random, name, origin) =>
      if Blank(name) || !KnownOrigin(origin) || SecretId(random) in s.secrets then None
      else Some(WithSecret(s, SecretId(random), Secret(name, origin, now, "", 0, None)))
    case SetSecret(id, value) =>
      if value == "" || id !in s.secrets || s.secrets[id].value.Some? then None
      else Some(WithSecret(s, id, s.secrets[id].(value := Some(value))))
    case RotateSecret(id, value) =>
      if value == "" || id !in s.secrets || s.secrets[id].value.None? then None
      else Some(WithSecret(s, id, s.secrets[id].(value := Some(value), rotatedAt := now, rotations := s.secrets[id].rotations + 1)))
    case DeleteSecret(id) =>
      if Referenced(s, id) || id !in s.secrets then None else Some(s.(secrets := s.secrets - {id}))
    case ConfigureCustomModuleGithub(g) =>
      if Blank(g.owner) || Blank(g.repository) || Blank(g.ref) || g.pat == "" || g.pat !in s.secrets then None
      else Some(s.(github := Some(g)))
    case _ => None
  }

  predicate CompleteSource(id: string, a: SourceArtifact) {
    && id != "" && a.kind != OtherSource && !Blank(a.version) && !Blank(a.sha) && !Blank(a.storageRef)
    && (if a.kind == CustomModule then a.packageId != "" && !Blank(a.commit) && !Blank(a.packagePath) else a.packageId == "")
  }

  predicate CompleteWorkspace(id: string, w: Workspace) {
    && id != "" && w.kind != OtherSource && w.base != "" && !Blank(w.sha) && !Blank(w.storageRef)
    && (w.kind == CustomModule ==> w.packageId != "" && !Blank(w.baseCommit) && !Blank(w.packagePath))
  }

  function SourceOp(s: State, op: Op): Option<State> {
    match op
    case RegisterSourceArtifact(id, a) =>
      if !CompleteSource(id, a) || id in s.artifacts || (exists k :: k in s.artifacts && SameSource(s.artifacts[k], a)) then None
      else Some(s.(artifacts := s.artifacts[id := a]))
    case CreateSourceWorkspace(id, w) =>
      if !CompleteWorkspace(id, w) || w.base !in s.artifacts || s.artifacts[w.base].kind != w.kind || id in s.workspaces then None
      else Some(s.(workspaces := s.workspaces[id := w]))
    case UpdateSourceWorkspaceCurrent(id, sha) =>
      if Blank(sha) || id !in s.workspaces then None
      else Some(s.(workspaces := s.workspaces[id := s.workspaces[id].(sha := sha, synchronized := "")]))
    case MarkSourceWorkspaceSynchronized(id, commit, sha) =>
      if Blank(commit) || Blank(sha) || id !in s.workspaces then None
      else Some(s.(workspaces := s.workspaces[id := s.workspaces[id].(synchronized := commit, sha := sha)]))
    case _ => None
  }

  predicate CompleteBackup(id: string, b: BackupRow) {
    id != "" && b.target != "" && b.kind != OtherBackup && (b.kind in {ModuleBackup, RestorePoint} ==> b.instance != "")
  }

  function Dated(createdAt: string, now: string): string { if createdAt == "" then now else createdAt }

  function HistoryOp(s: State, op: Op, now: string): Option<State> {
    match op
    case AppendExecutionBundle(id, b) =>
      if id == "" || b.target == "" || Blank(b.kind) || Blank(b.version) || Blank(b.sha) || id in s.bundles then None
      else Some(s.(bundles := s.bundles[id := b.(createdAt := Dated(b.createdAt, now))]))
    case AppendExecutionRecord(id, r) =>
      if id == "" || r.bundle == "" || r.target == "" || Blank(r.outcome) || r.startedAt == "" ||
         r.bundle !in s.bundles || id in s.records then None
      else Some(s.(records := s.records[id := r]))
    case RegisterBackup(id, b) =>
      if !CompleteBackup(id, b) || id in s.backups then None
      else Some(s.(backups := s.backups[id := b.(createdAt := Dated(b.createdAt, now))]))
    case DeleteBackup(id) => if id == "" || id !in s.backups then None else Some(s.(backups := s.backups - {id}))
    case _ => None
  }

  /** The state after an operation, or None for its error. */
  function Applied(s: State, c: Call): Option<State> {
    if c.refused then None
    else match c.op
      case CreateTarget(_, _) => TargetOp(s, c.op)
      case CreatePendingTarget(_, _) => TargetOp(s, c.op)
      case SetTargetAddress(_, _) => TargetOp(s, c.op)
      case SetSshTrust(_, _, _, _) => TargetOp(s, c.op)
      case SetSshIdentity(_, _) => TargetOp(s, c.op)
      case SetDesiredState(_, _) => TargetOp(s, c.op)
      case RecordObservedState(_, _) => TargetOp(s, c.op)
      case CreateSecret(_, _, _) => SecretOp(s, c.op, c.now)
      case SetSecret(_, _) => SecretOp(s, c.op, c.now)
      case RotateSecret(_, _) => SecretOp(s, c.op, c.now)
      case DeleteSecret(_) => SecretOp(s, c.op, c.now)
      case ConfigureCustomModuleGithub(_) => SecretOp(s, c.op, c.now)
      case RegisterSourceArtifact(_, _) => SourceOp(s, c.op)
      case CreateSourceWorkspace(_, _) => SourceOp(s, c.op)
      case UpdateSourceWorkspaceCurrent(_, _) => SourceOp(s, c.op)
      case MarkSourceWorkspaceSynchronized(_, _, _) => SourceOp(s, c.op)
      case _ => HistoryOp(s, c.op, c.now)
  }

  /** A failing statement has no effect, and the function passed to a change may go on after it. */
  function Attempted(s: State, calls: seq<Call>): State {
    if calls == [] then s
    else
      var before := Attempted(s, calls[..|calls|-1]);
      var r := Applied(before, calls[|calls|-1]);
      if r.Some? then r.value else before
  }

  // ---------- The invariant ----------

  predicate TargetOk(id: string, t: Target, secrets: set<string>) {
    && id != "" && t.sshUser != "" && KnownTrust(t.trust) && ValidDesired(t.desired)
    && (t.identity == "" || t.identity in secrets) && SecretsIn(t.desired, secrets)
  }

  ghost predicate TargetsOk(targets: map<string, Target>, secrets: set<string>) {
    forall t :: t in targets ==> TargetOk(t, targets[t], secrets)
  }

  predicate SecretOk(id: string, x: Secret) { id != "" && x.name != "" && KnownOrigin(x.origin) && x.rotations >= 0 }

  ghost predicate SecretsOk(secrets: map<string, Secret>) { forall x :: x in secrets ==> SecretOk(x, secrets[x]) }

  predicate GithubOk(g: Option<Github>, secrets: set<string>) {
    g.Some? ==> g.value.owner != "" && g.value.repository != "" && g.value.ref != "" && g.value.pat != "" && g.value.pat in secrets
  }

  ghost predicate SourcesOk(artifacts: map<string, SourceArtifact>) {
    && (forall a :: a in artifacts ==> artifacts[a].kind != OtherSource)
    && (forall a, b :: a in artifacts && b in artifacts && a != b ==> !SameSource(artifacts[a], artifacts[b]))
  }

  ghost predicate WorkspacesOk(workspaces: map<string, Workspace>, artifacts: set<string>) {
    forall w :: w in workspaces ==> workspaces[w].kind != OtherSource && workspaces[w].base in artifacts
  }

  ghost predicate RecordsOk(records: map<string, RecordRow>, bundles: set<string>) {
    forall r :: r in records ==> records[r].bundle in bundles
  }

  ghost predicate BackupsOk(backups: map<string, BackupRow>) {
    forall b :: b in backups ==> backups[b].kind != OtherBackup
  }

  /** What holds of every reachable state: among others, every secret that a target, a desired module or
      the GitHub configuration names exists, as do the bundle of each record and the base of each
      workspace. */
  ghost predicate Inv(s: State) {
    && TargetsOk(s.targets, s.secrets.Keys) && SecretsOk(s.secrets) && GithubOk(s.github, s.secrets.Keys)
    && SourcesOk(s.artifacts) && WorkspacesOk(s.workspaces, s.artifacts.Keys)
    && RecordsOk(s.records, s.bundles.Keys) && BackupsOk(s.backups)
  }

  /** Append-only tables: rows that were there are there unchanged. */
  ghost predicate Extends<T(!new)>(before: map<string, T>, after: map<string, T>) {
    forall id :: id in before ==> id in after && after[id] == before[id]
  }

  predicate SameBase(a: Workspace, b: Workspace) {
    a.(sha := "", synchronized := "") == b.(sha := "", synchronized := "")
  }

  /** Execution history and source identities only grow, and the base of a workspace is fixed. */
  ghost predicate Grows(s: State, s': State) {
    && Extends(s.bundles, s'.bundles) && Extends(s.records, s'.records) && Extends(s.artifacts, s'.artifacts)
    && (forall w :: w in s.workspaces ==> w in s'.workspaces && SameBase(s.workspaces[w], s'.workspaces[w]))
  }

  lemma PutTarget(targets: map<string, Target>, id: string, t: Target, secrets: set<string>)
    requires TargetsOk(targets, secrets) && TargetOk(id, t, secrets)
    ensures TargetsOk(targets[id := t], secrets)
  {
  }

  lemma NewTargetRow(s: State, op: Op) returns (id: string, t: Target)
    requires TargetsOk(s.targets, s.secrets.Keys) && TargetOp(s, op).Some?
    ensures TargetOp(s, op).value == WithTarget(s, id, t) && TargetOk(id, t, s.secrets.Keys)
  {
    id := op.id;
    assert id in s.targets ==> TargetOk(id, s.targets[id], s.secrets.Keys);
    t := TargetOp(s, op).value.targets[id];
  }

  lemma TargetOpKeeps(s: State, op: Op)
    requires Inv(s) && TargetOp(s, op).Some?
    ensures Inv(TargetOp(s, op).value) && Grows(s, TargetOp(s, op).value)
  {
    hide TargetsOk, TargetOp, TargetOk;
    var id, t := NewTargetRow(s, op);
    PutTarget(s.targets, id, t, s.secrets.Keys);
  }

  lemma TargetsWithout(s: State, id: string)
    requires TargetsOk(s.targets, s.secrets.Keys) && !Referenced(s, id)
    ensures TargetsOk(s.targets, s.secrets.Keys - {id})
  {
    forall t | t in s.targets ensures TargetOk(t, s.targets[t], s.secrets.Keys - {id}) {
      assert TargetOk(t, s.targets[t], s.secrets.Keys) && !Desires(s.targets[t].desired, id);
    }
  }

  lemma MoreSecrets(targets: map<string, Target>, before: set<string>, after: set<string>)
    requires TargetsOk(targets, before) && before <= after
    ensures TargetsOk(targets, after)
  {
    forall t | t in targets ensures TargetOk(t, targets[t], after) {
      assert TargetOk(t, targets[t], before);
    }
  }

  lemma SecretOpKeeps(s: State, op: Op, now: string)
    requires Inv(s) && SecretOp(s, op, now).Some?
    ensures Inv(SecretOp(s, op, now).value) && Grows(s, SecretOp(s, op, now).value)
  {
    hide TargetsOk, SourcesOk, WorkspacesOk, RecordsOk, BackupsOk, Desires;
    var s' := SecretOp(s, op, now).value;
    if op.DeleteSecret? {
      TargetsWithout(s, op.id);
      assert s'.secrets.Keys == s.secrets.Keys - {op.id};
    } else {
      MoreSecrets(s.targets, s.secrets.Keys, s'.secrets.Keys);
    }
  }

  lemma PutSource(artifacts: map<string, SourceArtifact>, id: string, a: SourceArtifact)
    requires SourcesOk(artifacts) && id !in artifacts && a.kind != OtherSource
    requires forall k :: k in artifacts ==> !SameSource(artifacts[k], a)
    ensures SourcesOk(artifacts[id := a])
  {
  }

  lemma SourceOpKeeps(s: State, op: Op)
    requires Inv(s) && SourceOp(s, op).Some?
    ensures Inv(SourceOp(s, op).value) && Grows(s, SourceOp(s, op).value)
  {
    hide TargetsOk, SecretsOk, SourcesOk, SameSource, RecordsOk, BackupsOk, Blank;
    if op.RegisterSourceArtifact? {
      PutSource(s.artifacts, op.id, op.artifact);
    }
  }

  lemma HistoryOpKeeps(s: State, op: Op, now: string)
    requires Inv(s) && HistoryOp(s, op, now).Some?
    ensures Inv(HistoryOp(s, op, now).value) && Grows(s, HistoryOp(s, op, now).value)
  {
    hide TargetsOk, SecretsOk, SourcesOk, WorkspacesOk, Blank;
  }

  /** Every operation keeps the invariant and the history. */
  lemma AppliedKeeps(s: State, c: Call)
    requires Inv(s) && Applied(s, c).Some?
    ensures Inv(Applied(s, c).value) && Grows(s, Applied(s, c).value)
  {
    hide Inv, Grows;
    if TargetOp(s, c.op).Some? {
      TargetOpKeeps(s, c.op);
    }
    if SecretOp(s, c.op, c.now).Some? {
      SecretOpKeeps(s, c.op, c.now);
    }
    if SourceOp(s, c.op).Some? {
      SourceOpKeeps(s, c.op);
    }
    if HistoryOp(s, c.op, c.now).Some? {
      HistoryOpKeeps(s, c.op, c.now);
    }
  }

  lemma GrowsTransitive(s: State, s': State, s'': State)
    requires Grows(s, s') && Grows(s', s'')
    ensures Grows(s, s'')
  {
  }

  lemma {:induction false} AttemptedKeeps(s: State, calls: seq<Call>)
    requires Inv(s)
    ensures Inv(Attempted(s, calls)) && Grows(s, Attempted(s, calls))
    decreases |calls|
  {
    if calls != [] {
      hide Inv, Grows, Applied;
      var before, last := Attempted(s, calls[..|calls|-1]), calls[|calls|-1];
      AttemptedKeeps(s, calls[..|calls|-1]);
      if Applied(before, last).Some? {
        AppliedKeeps(before, last);
        GrowsTransitive(s, before, Applied(before, last).value);
      }
    }
  }

  // ---------- Transactions ----------

  /** A change: what its function attempts, whether the function returns an error, and whether the
      commit succeeds. */
  datatype Change = Change(calls: seq<Call>, aborts: bool, commits: bool)

  function Changed(s: State, c: Change): State {
    if c.aborts || !c.commits then s else Attempted(s, c.calls)
  }

  function ChangedAll(s: State, cs: seq<Change>): State {
    if cs == [] then s else Changed(ChangedAll(s, cs[..|cs|-1]), cs[|cs|-1])
  }

  /** Over any sequence of changes, whatever they attempt and however they end, every reference stays
      known and history only grows. */
  lemma {:induction false} ChangesKeep(s: State, cs: seq<Change>)
    requires Inv(s)
    ensures Inv(ChangedAll(s, cs)) && Grows(s, ChangedAll(s, cs))
    decreases |cs|
  {
    if cs != [] {
      ChangesKeep(s, cs[..|cs|-1]);
      var before, last := ChangedAll(s, cs[..|cs|-1]), cs[|cs|-1];
      hide Inv, Grows, Attempted;
      AttemptedKeeps(before, last.calls);
      if !last.aborts && last.commits {
        GrowsTransitive(s, before, Attempted(before, last.calls));
      }
    }
  }

  /** The database is created empty. */
  lemma ReachableStates(cs: seq<Change>)
    ensures Inv(ChangedAll(EMPTY, cs))
  {
    assert Inv(EMPTY);
    ChangesKeep(EMPTY, cs);
  }

  /** A secret can be deleted exactly if the invariant survives its absence. */
  lemma DeletableExactly(s: State, id: string, now: string)
    requires Inv(s) && id in s.secrets
    ensures Applied(s, Call(DeleteSecret(id), now, false)).Some? <==> Inv(s.(secrets := s.secrets - {id}))
  {
    hide SourcesOk, WorkspacesOk, RecordsOk, BackupsOk;
    var s' := s.(secrets := s.secrets - {id});
    assert SecretOk(id, s.secrets[id]);
    if Inv(s') {
      forall t | t in s.targets ensures s.targets[t].identity != id && !Desires(s.targets[t].desired, id) {
        assert TargetOk(t, s'.targets[t], s'.secrets.Keys);
      }
    }
    if Applied(s, Call(DeleteSecret(id), now, false)).Some? {
      SecretOpKeeps(s, DeleteSecret(id), now);
    }
  }

  /** A value in the same place: still set, and a different value only if it was rotated. */
  predicate SameOrRotated(x: Secret, y: Secret) {
    x.value.Some? && y.value.Some? && x.rotations <= y.rotations && (x.rotations == y.rotations ==> x.value == y.value)
  }

  lemma RotationStep(s: State, c: Call, id: string)
    requires id in s.secrets && s.secrets[id].value.Some? && c.op != DeleteSecret(id) && Applied(s, c).Some?
    ensures id in Applied(s, c).value.secrets && SameOrRotated(s.secrets[id], Applied(s, c).value.secrets[id])
  {
    hide Blank, Referenced, ValidDesired, SecretsIn;
  }

  /** Once a secret is set, nothing but its deletion unsets it, and the rotation counter tells every
      replacement of its value. */
  lemma {:induction false} RotationsTell(s: State, calls: seq<Call>, id: string)
    requires id in s.secrets && s.secrets[id].value.Some?
    requires forall c :: c in calls ==> c.op != DeleteSecret(id)
    ensures id in Attempted(s, calls).secrets && SameOrRotated(s.secrets[id], Attempted(s, calls).secrets[id])
    decreases |calls|
  {
    if calls != [] {
      hide Applied;
      var before, last := Attempted(s, calls[..|calls|-1]), calls[|calls|-1];
      RotationsTell(s, calls[..|calls|-1], id);
      assert last in calls;
      if Applied(before, last).Some? {
        RotationStep(before, last, id);
      }
    }
  }

  class Store {
    var state: State

    constructor ()
      ensures state == EMPTY && Inv(state)
    {
      state := EMPTY;
    }

    method Attempt(c: Call) returns (ok: bool)
      modifies this
      ensures ok <==> Applied(old(state), c).Some?
      ensures state == if ok then Applied(old(state), c).value else old(state)
    {
      var next := Applied(state, c);
      ok := next.Some?;
      if ok {
        state := next.value;
      }
    }

    /** Serialised by the lock of the store: all of the change or none of it. */
    method Commit(c: Change) returns (ok: bool)
      requires Inv(state)
      modifies this
      ensures ok <==> !c.aborts && c.commits
      ensures state == Changed(old(state), c)
      ensures Inv(state) && Grows(old(state), state)
    {
      var saved := state;
      AttemptedKeeps(state, c.calls);
      for i := 0 to |c.calls|
        invariant state == Attempted(saved, c.calls[..i])
      {
        assert c.calls[..i + 1][..i] == c.calls[..i];
        var _ := Attempt(c.calls[i]);
      }
      assert c.calls[..|c.calls|] == c.calls;
      ok := !c.aborts && c.commits;
      if !ok {
        state := saved;
      }
    }
  }

  /** `secretReferenced` */
  method SecretReferenced(s: State, id: string) returns (found: bool)
    ensures found <==> Referenced(s, id)
  {
    if exists t :: t in s.targets && s.targets[t].identity == id {
      return true;
    }
    if s.github.Some? && s.github.value.pat == id {
      return true;
    }
    var todo := s.targets.Keys;
    while todo != {}
      invariant todo <= s.targets.Keys
      invariant forall t :: t in s.targets && t !in todo ==> !Desires(s.targets[t].desired, id)
      decreases |todo|
    {
      var t :| t in todo;
      var modules := s.targets[t].desired.modules;
      for i := 0 to |modules|
        invariant forall k :: 0 <= k < i ==> id !in modules[k].secretIds
      {
        if id in modules[i].secretIds {
          assert modules[i] in modules;
          assert Desires(s.targets[t].desired, id);
          return true;
        }
      }
      todo := todo - {t};
    }
    return false;
  }
}
