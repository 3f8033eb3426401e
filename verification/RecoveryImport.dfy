/** The import of a recovery package: staged sources and bundles, the adopted package file and the
    replacement of the management state, all or nothing (`Import` in
    `internal/recoverypackage/service.go` with the imports it composes). */
module RecoveryImport {
  import opened Prelude
  import opened Checksums
  import opened StagedImport
  import opened ManagementState
  import opened StateRecovery
  import BundleVerify
  import Assembly

  /** What decryption and validation of a package have made available: the recovery state, the target and
      the identity of its manifest, the trees by storage reference, the bundle archives by ID, and the
      bytes of the package file. */
  datatype Package = Package(recovery: Recovery, target: string, id: string, createdAt: string,
                             trees: map<string, string>, bundles: map<string, string>, bytes: string)

  /** Which steps the outside makes fail. */
  datatype Faults = Faults(treeStage: bool, treeCopied: nat -> bool, treeMove: nat -> Move, bundleStage: bool, bundleCopied: nat -> bool,
                           bundleMove: nat -> Move, hashed: bool, work: bool, publication: Publication, commits: bool)

  ghost predicate NoFaults(f: Faults) {
    && !f.treeStage && (forall i :: f.treeCopied(i)) && (forall i :: f.treeMove(i) == Moved)
    && !f.bundleStage && (forall i :: f.bundleCopied(i)) && (forall i :: f.bundleMove(i) == Moved)
    && f.hashed && f.work && f.publication == Published && f.commits
  }

  // ---------- What a package has to hold ----------

  const SNAPSHOTS := "snapshots/sha256/"
  const WORKSPACES := "workspaces/"

  datatype WantedTree = WantedTree(path: string, declared: string, sha: string)

  function ArtifactTree(a: SourceArtifact): WantedTree { WantedTree(SNAPSHOTS + a.sha, a.storageRef, a.sha) }

  function WorkspaceTree(id: string, w: Workspace): WantedTree { WantedTree(WORKSPACES + id, w.storageRef, w.sha) }

  /** The storage references that the rows of a recovery state stand for. */
  function WantedTrees(x: Snapshot): (r: seq<WantedTree>)
    ensures |r| == |x.artifacts| + |x.workspaces|
    ensures forall i :: 0 <= i < |x.artifacts| ==> r[i] == ArtifactTree(x.artifacts[i].1)
    ensures forall i :: 0 <= i < |x.workspaces| ==> r[|x.artifacts| + i] == WorkspaceTree(x.workspaces[i].0, x.workspaces[i].1)
  {
    seq(|x.artifacts|, i requires 0 <= i < |x.artifacts| => ArtifactTree(x.artifacts[i].1)) +
    seq(|x.workspaces|, i requires 0 <= i < |x.workspaces| => WorkspaceTree(x.workspaces[i].0, x.workspaces[i].1))
  }

  /** Trees that may stand in for each other have the same hash. */
  function SameTree(sha: string -> string): (string, string) -> bool { (a, b) => sha(a) == sha(b) }

  predicate TreeOk(sha: string -> string, trees: map<string, string>, w: WantedTree) {
    w.declared == w.path && w.path in trees && sha(trees[w.path]) == w.sha
  }

  predicate TreeFits(sha: string -> string, files: map<string, string>, trees: map<string, string>, w: WantedTree) {
    TreeOk(sha, trees, w) && (w.path in files ==> sha(files[w.path]) == w.sha)
  }

  /** The package holds exactly the wanted trees, with their hashes, and none of them is there already
      with another hash. */
  ghost predicate TreesFit(sha: string -> string, files: map<string, string>, wanted: seq<WantedTree>, trees: map<string, string>) {
    && (forall p :: p in trees ==> exists i :: 0 <= i < |wanted| && wanted[i].path == p)
    && (forall i :: 0 <= i < |wanted| ==> TreeFits(sha, files, trees, wanted[i]))
  }

  function BundleFile(id: string): string { id + ".tar" }

  predicate CompleteRow(row: (string, BundleRow)) {
    row.0 != "" && row.1.target != "" && row.1.kind != "" && row.1.version != "" && ValidDigest(row.1.sha)
  }

  /** The archive verifies under the ID and hash of its row, and its manifest repeats the row. */
  ghost predicate ArchiveOk(c: Assembly.Codec, row: (string, BundleRow), data: string)
    requires IsSha(c.sha)
  {
    exists m :: BundleVerify.Accepted(c, row.0, row.1.sha, data, m) && RowMatches(row, m)
  }

  predicate RowMatches(row: (string, BundleRow), m: Assembly.Manifest) {
    && m.bundleId == row.0 && m.identity.targetId == row.1.target && Assembly.KindText(m.identity.kind) == row.1.kind
    && m.identity.version == row.1.version
  }

  /** Nor is another file there under its name. */
  ghost predicate RowFits(c: Assembly.Codec, files: map<string, string>, bundles: map<string, string>, row: (string, BundleRow))
    requires IsSha(c.sha)
  {
    && BundleFile(row.0) in bundles && ArchiveOk(c, row, bundles[BundleFile(row.0)])
    && (BundleFile(row.0) in files ==> files[BundleFile(row.0)] == bundles[BundleFile(row.0)])
  }

  ghost predicate BundlesFit(c: Assembly.Codec, files: map<string, string>, rows: Rows<BundleRow>, bundles: map<string, string>)
    requires IsSha(c.sha)
  {
    && (forall p :: p in bundles ==> exists i :: 0 <= i < |rows| && BundleFile(rows[i].0) == p)
    && (forall i :: 0 <= i < |rows| ==> CompleteRow(rows[i]) && RowFits(c, files, bundles, rows[i]))
  }

  method VerifyRow(c: Assembly.Codec, row: (string, BundleRow), data: string) returns (ok: bool)
    requires IsSha(c.sha)
    ensures ok <==> ArchiveOk(c, row, data)
  {
    var m := BundleVerify.Verify(c, row.0, row.1.sha, data);
    if m.None? {
      return false;
    }
    ok := RowMatches(row, m.value);
    forall m' | BundleVerify.Accepted(c, row.0, row.1.sha, data, m') ensures m' == m.value {
      OneManifest(c, row, data, m.value, m');
    }
  }

  /** An archive is accepted with one manifest only. */
  lemma OneManifest(c: Assembly.Codec, row: (string, BundleRow), data: string, m: Assembly.Manifest, m': Assembly.Manifest)
    requires IsSha(c.sha) && BundleVerify.Accepted(c, row.0, row.1.sha, data, m) && BundleVerify.Accepted(c, row.0, row.1.sha, data, m')
    ensures m == m'
  {
  }

  // ---------- Preparation ----------

  /** Ready to be committed: nothing is published yet, and the candidates come from the package. */
  ghost predicate Prepared(r: Import, content: map<string, string>)
    reads r, r.disk
  {
    && r.Valid() && r.Pending() && r.published == [] && !r.sealed && r.staged
    && forall i :: 0 <= i < |r.items| ==> r.items[i].path in content && r.items[i].content == content[r.items[i].path]
  }

  /** An object is there already or among the candidates. */
  ghost predicate Provided(base: map<string, string>, same: (string, string) -> bool, items: seq<Candidate>,
                           content: map<string, string>, path: string)
    requires path in content
  {
    if path in base then same(base[path], content[path]) else Candidate(path, content[path]) in items
  }

  /** An object of that path is the same or can be copied. */
  ghost predicate StageSucceeds(r: Import, content: map<string, string>, path: string, copied: bool)
    requires path in content
  {
    if path in r.base then r.same(r.base[path], content[path]) else copied
  }

  method StageOne(r: Import, content: map<string, string>, path: string, copied: bool) returns (ok: bool)
    requires Prepared(r, content) && path in content
    modifies r`items
    ensures Prepared(r, content)
    ensures ok <==> StageSucceeds(r, content, path, copied)
    ensures old(r.items) <= r.items && (ok ==> Provided(r.base, r.same, r.items, content, path))
  {
    ok := r.Stage(Candidate(path, content[path]), copied);
  }

  lemma StillProvided(before: seq<Candidate>, after: seq<Candidate>)
    requires before <= after
    ensures forall x :: x in before ==> x in after
  {
    forall x | x in before ensures x in after {
      var i :| 0 <= i < |before| && before[i] == x;
      assert after[i] == x;
    }
  }

  /** What the candidates prepared so far provide. */
  ghost predicate TreesStaged(base: map<string, string>, items: seq<Candidate>, sha: string -> string, wanted: seq<WantedTree>,
                              trees: map<string, string>)
  {
    forall k :: 0 <= k < |wanted| ==> TreeFits(sha, base, trees, wanted[k]) && Provided(base, SameTree(sha), items, trees, wanted[k].path)
  }

  method PrepareTrees(disk: Disk, sha: string -> string, wanted: seq<WantedTree>, trees: map<string, string>,
                      noStage: bool, copied: nat -> bool) returns (r: Import?)
    modifies disk
    ensures r == null ==> disk.files == old(disk.files) && disk.stages == old(disk.stages)
    ensures r != null ==> fresh(r) && r.disk == disk && r.base == old(disk.files) && r.stages == old(disk.stages)
    ensures r != null ==> r.same == SameTree(sha) && Prepared(r, trees) && disk.files == old(disk.files)
    ensures r != null ==> TreesStaged(r.base, r.items, sha, wanted, trees)
    ensures r != null ==> TreesFit(sha, old(disk.files), wanted, trees)
    ensures TreesFit(sha, old(disk.files), wanted, trees) && !noStage && (forall i :: copied(i)) ==> r != null
  {
    if exists p :: p in trees && !exists i :: 0 <= i < |wanted| && wanted[i].path == p {
      return null;
    }
    if noStage {
      return null;
    }
    r := new Import(disk, SameTree(sha), false);
    for i := 0 to |wanted|
      invariant fresh(r) && r.disk == disk && r.base == disk.files == old(disk.files) && r.stages == old(disk.stages)
      invariant r.same == SameTree(sha) && Prepared(r, trees)
      invariant TreesStaged(r.base, r.items, sha, wanted[..i], trees)
    {
      if !TreeOk(sha, trees, wanted[i]) {
        r.Close();
        return null;
      }
      ghost var before := r.items;
      var ok := StageOne(r, trees, wanted[i].path, copied(i));
      StillProvided(before, r.items);
      if !ok {
        r.Close();
        return null;
      }
    }
  }

  method StageBundle(r: Import, c: Assembly.Codec, row: (string, BundleRow), bundles: map<string, string>, copied: bool)
    returns (ok: bool)
    requires IsSha(c.sha) && r.same == SameBytes() && Prepared(r, bundles) && BundleFile(row.0) in bundles
    modifies r`items
    ensures Prepared(r, bundles)
    ensures (ok ==> RowFits(c, r.base, bundles, row)) && (RowFits(c, r.base, bundles, row) && copied ==> ok)
    ensures old(r.items) <= r.items && (ok ==> Provided(r.base, r.same, r.items, bundles, BundleFile(row.0)))
  {
    hide ArchiveOk;
    var file := BundleFile(row.0);
    ok := VerifyRow(c, row, bundles[file]);
    if ok {
      ok := StageOne(r, bundles, file, copied);
    }
  }

  ghost predicate BundlesStaged(base: map<string, string>, items: seq<Candidate>, c: Assembly.Codec, rows: Rows<BundleRow>,
                                bundles: map<string, string>)
    requires IsSha(c.sha)
  {
    forall k :: 0 <= k < |rows| ==> RowFits(c, base, bundles, rows[k]) && Provided(base, SameBytes(), items, bundles, BundleFile(rows[k].0))
  }

  lemma RowsInPackage(c: Assembly.Codec, files: map<string, string>, rows: Rows<BundleRow>, bundles: map<string, string>)
    requires IsSha(c.sha) && BundlesFit(c, files, rows, bundles)
    ensures forall i :: 0 <= i < |rows| ==> CompleteRow(rows[i]) && BundleFile(rows[i].0) in bundles
  {
  }

  lemma BundleStaged(base: map<string, string>, before: seq<Candidate>, after: seq<Candidate>, c: Assembly.Codec,
                     rows: Rows<BundleRow>, i: nat, bundles: map<string, string>)
    requires IsSha(c.sha) && i < |rows| && before <= after && BundlesStaged(base, before, c, rows[..i], bundles)
    requires RowFits(c, base, bundles, rows[i]) && Provided(base, SameBytes(), after, bundles, BundleFile(rows[i].0))
    ensures BundlesStaged(base, after, c, rows[..i + 1], bundles)
  {
    hide ArchiveOk;
    StillProvided(before, after);
    forall k | 0 <= k < i
      ensures RowFits(c, base, bundles, rows[k]) && Provided(base, SameBytes(), after, bundles, BundleFile(rows[k].0))
    {
      assert rows[..i][k] == rows[k];
    }
  }

  method PrepareBundles(disk: Disk, c: Assembly.Codec, rows: Rows<BundleRow>, bundles: map<string, string>,
                        noStage: bool, copied: nat -> bool) returns (r: Import?)
    requires IsSha(c.sha)
    modifies disk
    ensures r == null ==> disk.files == old(disk.files) && disk.stages == old(disk.stages)
    ensures r != null ==> fresh(r) && r.disk == disk && r.base == old(disk.files) && r.stages == old(disk.stages)
    ensures r != null ==> r.same == SameBytes() && Prepared(r, bundles) && disk.files == old(disk.files)
    ensures r != null ==> BundlesStaged(r.base, r.items, c, rows, bundles)
    ensures r != null ==> BundlesFit(c, old(disk.files), rows, bundles)
    ensures BundlesFit(c, old(disk.files), rows, bundles) && !noStage && (forall i :: copied(i)) ==> r != null
  {
    hide RowFits, CompleteRow, Provided;
    if exists p :: p in bundles && !exists i :: 0 <= i < |rows| && BundleFile(rows[i].0) == p {
      return null;
    }
    if exists i :: 0 <= i < |rows| && (!CompleteRow(rows[i]) || BundleFile(rows[i].0) !in bundles) {
      if BundlesFit(c, old(disk.files), rows, bundles) {
        RowsInPackage(c, old(disk.files), rows, bundles);
      }
      return null;
    }
    if noStage {
      return null;
    }
    r := new Import(disk, SameBytes(), true);
    for i := 0 to |rows|
      invariant fresh(r) && r.disk == disk && r.base == disk.files == old(disk.files) && r.stages == old(disk.stages)
      invariant r.same == SameBytes() && Prepared(r, bundles)
      invariant BundlesStaged(r.base, r.items, c, rows[..i], bundles)
    {
      ghost var before := r.items;
      var ok := StageBundle(r, c, rows[i], bundles, copied(i));
      if !ok {
        r.Close();
        return null;
      }
      BundleStaged(r.base, before, r.items, c, rows, i, bundles);
    }
  }

  function SameBytes(): (string, string) -> bool { (a, b) => a == b }

  // ---------- Publication ----------

  /** What was there is there unchanged, and what is new comes from the package. */
  ghost predicate Landed(before: map<string, string>, after: map<string, string>, content: map<string, string>) {
    && Extends(before, after)
    && forall p :: p in after ==> p in before || (p in content && after[p] == content[p])
  }

  method Publish(r: Import, content: map<string, string>, outcome: nat -> Move) returns (ok: bool)
    requires Prepared(r, content)
    modifies r`published, r`staged, r.disk
    ensures r.Valid() && r.Pending() && r.items == old(r.items)
    ensures ok ==> r.staged && Landed(r.base, r.disk.files, content)
    ensures ok ==> forall i :: 0 <= i < |r.items| ==> Fits(r.disk.files, r.same, r.items[i])
    ensures !ok ==> r.disk.files == r.base && r.published == []
    ensures (forall i :: outcome(i) == Moved) ==> ok
  {
    ok := r.Commit(outcome);
  }

  ghost predicate TreesPresent(sha: string -> string, files: map<string, string>, wanted: seq<WantedTree>) {
    forall i :: 0 <= i < |wanted| ==> wanted[i].path in files && sha(files[wanted[i].path]) == wanted[i].sha
  }

  ghost predicate BundlesPresent(c: Assembly.Codec, files: map<string, string>, rows: Rows<BundleRow>)
    requires IsSha(c.sha)
  {
    forall i :: 0 <= i < |rows| ==> BundleFile(rows[i].0) in files && ArchiveOk(c, rows[i], files[BundleFile(rows[i].0)])
  }

  lemma TreesLand(base: map<string, string>, files: map<string, string>, items: seq<Candidate>, sha: string -> string,
                  wanted: seq<WantedTree>, trees: map<string, string>)
    requires Landed(base, files, trees)
    requires TreesStaged(base, items, sha, wanted, trees)
    requires forall i :: 0 <= i < |items| ==> Fits(files, SameTree(sha), items[i])
    ensures TreesPresent(sha, files, wanted)
  {
    forall i | 0 <= i < |wanted| ensures wanted[i].path in files && sha(files[wanted[i].path]) == wanted[i].sha {
      assert TreeFits(sha, base, trees, wanted[i]) && Provided(base, SameTree(sha), items, trees, wanted[i].path);
    }
  }

  lemma BundlesLand(base: map<string, string>, files: map<string, string>, items: seq<Candidate>, c: Assembly.Codec,
                    rows: Rows<BundleRow>, bundles: map<string, string>)
    requires IsSha(c.sha) && Landed(base, files, bundles)
    requires BundlesStaged(base, items, c, rows, bundles)
    requires forall i :: 0 <= i < |items| ==> Fits(files, SameBytes(), items[i])
    ensures BundlesPresent(c, files, rows)
  {
    hide ArchiveOk;
    forall i | 0 <= i < |rows|
      ensures BundleFile(rows[i].0) in files && ArchiveOk(c, rows[i], files[BundleFile(rows[i].0)])
    {
      assert RowFits(c, base, bundles, rows[i]) && Provided(base, SameBytes(), items, bundles, BundleFile(rows[i].0));
    }
  }

  // ---------- Adoption of the package file ----------

  function BackupName(id: string): string { "recovery-package-" + id + ".tar.zst.age" }

  function Registration(sha: string -> string, p: Package): BackupRow {
    BackupRow(RecoveryPackage, p.target, "", p.createdAt, BackupName(p.id), sha(p.bytes))
  }

  predicate NameFree(sha: string -> string, files: map<string, string>, p: Package) {
    BackupName(p.id) in files ==> sha(files[BackupName(p.id)]) == sha(p.bytes)
  }

  /** `AdoptValidatedRecovery` with the replacement of the management state as its commit: the file is
      published before the state is replaced and removed again if that fails. */
  method Adopt(backups: Disk, store: Store, sha: string -> string, p: Package, temp: string, f: Faults) returns (ok: bool)
    requires temp !in backups.files && temp != BackupName(p.id)
    modifies backups, store
    ensures backups.stages == old(backups.stages)
    ensures !ok ==> backups.files == old(backups.files) && store.state == old(store.state)
    ensures ok ==> Replaced(old(store.state), p.recovery, p.id, Registration(sha, p)) == Some(store.state)
    ensures ok ==> NameFree(sha, old(backups.files), p)
    ensures ok ==> backups.files == if BackupName(p.id) in old(backups.files) then old(backups.files)
                                    else old(backups.files)[BackupName(p.id) := p.bytes]
    ensures NoFaults(f) && NameFree(sha, old(backups.files), p) ==>
      (ok <==> Replaced(old(store.state), p.recovery, p.id, Registration(sha, p)).Some?)
  {
    hide Replaced;
    if !f.hashed {
      return false;
    }
    var name, created := BackupName(p.id), false;
    if name in backups.files {
      if sha(backups.files[name]) != sha(p.bytes) {
        return false;
      }
    } else {
      if !f.work {
        return false;
      }
      backups.stages := backups.stages + 1;
      created := PublishFileExclusive(backups, temp, name, p.bytes, f.publication);
      backups.stages := backups.stages - 1;
      if !created {
        return false;
      }
    }
    ok := ReplaceFromRecovery(store, p.recovery, p.id, Registration(sha, p), f.commits);
    if !ok && created {
      backups.files := backups.files - {name};
      assert backups.files == old(backups.files);
    }
  }

  // ---------- The import ----------

  /** Everything an import can change: the source library, the bundle store, the backup directory and the
      management state. */
  datatype World = World(sources: map<string, string>, bundles: map<string, string>, backups: map<string, string>, state: State)

  function Seen(sources: Disk, bundles: Disk, backups: Disk, store: Store): World
    reads sources, bundles, backups, store
  {
    World(sources.files, bundles.files, backups.files, store.state)
  }

  /** Nothing in the package or at its destination stands against the import. */
  ghost predicate Importable(c: Assembly.Codec, tree: string -> string, p: Package, w: World)
    requires IsSha(c.sha)
  {
    var x := p.recovery.snapshot;
    && x.backups == [] && HasId(x.targets, p.target)
    && TreesFit(tree, w.sources, WantedTrees(x), p.trees) && BundlesFit(c, w.bundles, x.bundles, p.bundles)
    && NameFree(c.sha, w.backups, p) && Replaced(w.state, p.recovery, p.id, Registration(c.sha, p)).Some?
  }

  /** Every named object is there with its declared hash, the management state is the one of the package,
      and nothing else has changed. */
  ghost predicate Imported(c: Assembly.Codec, tree: string -> string, p: Package, before: World, after: World)
    requires IsSha(c.sha)
  {
    var x := p.recovery.snapshot;
    && TreesPresent(tree, after.sources, WantedTrees(x)) && BundlesPresent(c, after.bundles, x.bundles)
    && BackupName(p.id) in after.backups && c.sha(after.backups[BackupName(p.id)]) == c.sha(p.bytes)
    && Replaced(before.state, p.recovery, p.id, Registration(c.sha, p)) == Some(after.state)
    && Landed(before.sources, after.sources, p.trees) && Landed(before.bundles, after.bundles, p.bundles)
    && Landed(before.backups, after.backups, map[BackupName(p.id) := p.bytes])
  }

  method PublishBoth(s: Import, b: Import, c: Assembly.Codec, tree: string -> string, p: Package, f: Faults) returns (ok: bool)
    requires s != b && s.disk != b.disk && IsSha(c.sha) && s.same == SameTree(tree) && b.same == SameBytes()
    requires Prepared(s, p.trees) && TreesStaged(s.base, s.items, tree, WantedTrees(p.recovery.snapshot), p.trees)
    requires Prepared(b, p.bundles) && BundlesStaged(b.base, b.items, c, p.recovery.snapshot.bundles, p.bundles)
    modifies s`published, s`staged, b`published, b`staged, s.disk, b.disk
    ensures s.Valid() && s.Pending() && b.Valid() && b.Pending()
    ensures ok ==> TreesPresent(tree, s.disk.files, WantedTrees(p.recovery.snapshot)) && Landed(s.base, s.disk.files, p.trees)
    ensures ok ==> BundlesPresent(c, b.disk.files, p.recovery.snapshot.bundles) && Landed(b.base, b.disk.files, p.bundles)
    ensures NoFaults(f) ==> ok
  {
    hide Import.Valid, Import.Pending, Agree, Fits, Landed;
    hide TreesStaged, BundlesStaged, ArchiveOk, WantedTrees, TreesPresent, BundlesPresent;
    ok := Publish(s, p.trees, f.treeMove);
    if ok {
      TreesLand(s.base, s.disk.files, s.items, tree, WantedTrees(p.recovery.snapshot), p.trees);
      ok := Publish(b, p.bundles, f.bundleMove);
    }
    if ok {
      BundlesLand(b.base, b.disk.files, b.items, c, p.recovery.snapshot.bundles, p.bundles);
    }
  }

  method FinishBoth(s: Import, b: Import, ok: bool)
    requires s != b && s.disk != b.disk && !s.sealed && !b.sealed
    requires s.Valid() && s.Pending() && b.Valid() && b.Pending()
    modifies s, b, s.disk, b.disk
    ensures s.disk.stages == s.stages && s.disk.files == if ok then old(s.disk.files) else s.base
    ensures b.disk.stages == b.stages && b.disk.files == if ok then old(b.disk.files) else b.base
  {
    hide Import.Valid, Import.Pending;
    if ok {
      s.Seal();
      b.Seal();
    }
    b.Close();
    s.Close();
  }

  lemma FileLands(sha: string -> string, before: map<string, string>, after: map<string, string>, p: Package)
    requires NameFree(sha, before, p)
    requires after == if BackupName(p.id) in before then before else before[BackupName(p.id) := p.bytes]
    ensures BackupName(p.id) in after && sha(after[BackupName(p.id)]) == sha(p.bytes)
    ensures Landed(before, after, map[BackupName(p.id) := p.bytes])
  {
  }

  /** From prepared imports to the end: publication, adoption and seal, with the deferred closing. */
  method CommitAll(s: Import, b: Import, backups: Disk, store: Store, c: Assembly.Codec, tree: string -> string, p: Package,
                   temp: string, f: Faults) returns (ok: bool)
    requires s != b && s.disk != b.disk && s.disk != backups && b.disk != backups && IsSha(c.sha)
    requires temp !in backups.files && temp != BackupName(p.id)
    requires Prepared(s, p.trees) && TreesStaged(s.base, s.items, tree, WantedTrees(p.recovery.snapshot), p.trees)
    requires Prepared(b, p.bundles) && BundlesStaged(b.base, b.items, c, p.recovery.snapshot.bundles, p.bundles)
    requires s.same == SameTree(tree) && b.same == SameBytes() && s.disk.files == s.base && b.disk.files == b.base
    modifies s, b, s.disk, b.disk, backups, store
    ensures s.disk.stages == s.stages && b.disk.stages == b.stages && backups.stages == old(backups.stages)
    ensures !ok ==> Seen(s.disk, b.disk, backups, store) == old(Seen(s.disk, b.disk, backups, store))
    ensures ok ==> Imported(c, tree, p, old(Seen(s.disk, b.disk, backups, store)), Seen(s.disk, b.disk, backups, store))
    ensures ok ==> NameFree(c.sha, old(backups.files), p)
    ensures ok ==> Replaced(old(store.state), p.recovery, p.id, Registration(c.sha, p)).Some?
    ensures NoFaults(f) && NameFree(c.sha, old(backups.files), p) ==>
      (ok <==> Replaced(old(store.state), p.recovery, p.id, Registration(c.sha, p)).Some?)
  {
    hide Import.Valid, Import.Pending, Agree, Fits, Landed;
    hide Replaced, Registration, TreesStaged, BundlesStaged, ArchiveOk, WantedTrees, TreesPresent, BundlesPresent;
    ok := PublishBoth(s, b, c, tree, p, f);
    if ok {
      ok := Adopt(backups, store, c.sha, p, temp, f);
    }
    FinishBoth(s, b, ok);
    if ok {
      FileLands(c.sha, old(backups.files), backups.files, p);
    }
  }

  /** All or nothing: whichever step fails, the published trees, bundles and backup files and the
      management state are those from before; success leaves exactly what the package stands for; and in
      either case no stage directory is left. Without failing steps the import succeeds exactly if
      nothing stands against it. */
  method ImportPackage(sources: Disk, bundles: Disk, backups: Disk, store: Store, c: Assembly.Codec, tree: string -> string,
                       p: Package, temp: string, f: Faults) returns (ok: bool)
    requires sources != bundles && sources != backups && bundles != backups && IsSha(c.sha)
    requires temp !in backups.files && temp != BackupName(p.id)
    modifies sources, bundles, backups, store
    ensures sources.stages == old(sources.stages) && bundles.stages == old(bundles.stages) && backups.stages == old(backups.stages)
    ensures !ok ==> Seen(sources, bundles, backups, store) == old(Seen(sources, bundles, backups, store))
    ensures ok ==> Imported(c, tree, p, old(Seen(sources, bundles, backups, store)), Seen(sources, bundles, backups, store))
    ensures ok ==> Importable(c, tree, p, old(Seen(sources, bundles, backups, store)))
    ensures NoFaults(f) && Importable(c, tree, p, old(Seen(sources, bundles, backups, store))) ==> ok
  {
    hide Replaced, Registration, TreesFit, BundlesFit, TreesStaged, BundlesStaged, NameFree, WantedTrees, Imported;
    var x := p.recovery.snapshot;
    if x.backups != [] || !HasId(x.targets, p.target) {
      return false;
    }
    var s := PrepareTrees(sources, tree, WantedTrees(x), p.trees, f.treeStage, f.treeCopied);
    if s == null {
      return false;
    }
    var b := PrepareBundles(bundles, c, x.bundles, p.bundles, f.bundleStage, f.bundleCopied);
    if b == null {
      s.Close();
      return false;
    }
    ok := CommitAll(s, b, backups, store, c, tree, p, temp, f);
  }
}
