/** Production of a recovery package and the way from one machine to another: what is produced on the one
    is what the other imports (`Produce` in `internal/recoverypackage/service.go`, `ExportRecovery` of the
    source library and of the execution bundles). */
module RecoveryPackage {
  import opened Prelude
  import opened Ordering
  import opened Text
  import opened Checksums
  import opened StagedImport
  import opened ManagementState
  import opened StateRecovery
  import opened RecoveryImport
  import BundleVerify
  import BundleStore
  import Assembly

  function Picked(files: map<string, string>, paths: set<string>): map<string, string> {
    map p | p in files && p in paths :: files[p]
  }

  // ---------- Trees ----------

  /** The library registers sources under the storage references of their hashes, and workspaces under
      those of their IDs. */
  ghost predicate Canonical(s: State) {
    && (forall a :: a in s.artifacts ==> s.artifacts[a].storageRef == SNAPSHOTS + s.artifacts[a].sha)
    && (forall w :: w in s.workspaces ==> s.workspaces[w].storageRef == WORKSPACES + w)
  }

  predicate Held(sha: string -> string, sources: map<string, string>, w: WantedTree) {
    w.path in sources && sha(sources[w.path]) == w.sha
  }

  function Paths(wanted: seq<WantedTree>): (r: set<string>)
    ensures forall p :: p in r <==> exists i :: 0 <= i < |wanted| && wanted[i].path == p
  {
    set i | 0 <= i < |wanted| :: wanted[i].path
  }

  /** Every tree is held with its hash, and none is exported twice: copying a tree onto itself fails on
      its first file, so only a tree that is `bare` of files survives that. */
  ghost predicate TreesExport(sha: string -> string, bare: string -> bool, sources: map<string, string>, wanted: seq<WantedTree>) {
    && (forall i :: 0 <= i < |wanted| ==> Held(sha, sources, wanted[i]))
    && (forall i, j :: 0 <= i < j < |wanted| && wanted[i].path == wanted[j].path ==> bare(sources[wanted[j].path]))
  }

  /** The copied trees are those of the first wanted ones. */
  ghost predicate TreesCopied(sha: string -> string, bare: string -> bool, sources: map<string, string>, wanted: seq<WantedTree>,
                              out: map<string, string>)
  {
    TreesExport(sha, bare, sources, wanted) && out == Picked(sources, Paths(wanted))
  }

  lemma OneMorePath(wanted: seq<WantedTree>, i: nat)
    requires i < |wanted|
    ensures Paths(wanted[..i + 1]) == Paths(wanted[..i]) + {wanted[i].path}
  {
    assert forall k :: 0 <= k < i ==> wanted[..i + 1][k] == wanted[..i][k];
    assert wanted[..i + 1][i] == wanted[i];
  }

  lemma OneMorePicked(files: map<string, string>, paths: set<string>, p: string)
    requires p in files
    ensures Picked(files, paths + {p}) == Picked(files, paths)[p := files[p]]
  {
  }

  lemma TreeCopied(sha: string -> string, bare: string -> bool, sources: map<string, string>, wanted: seq<WantedTree>, i: nat,
                   out: map<string, string>)
    requires i < |wanted| && TreesCopied(sha, bare, sources, wanted[..i], out) && Held(sha, sources, wanted[i])
    requires wanted[i].path in out ==> bare(sources[wanted[i].path])
    ensures TreesCopied(sha, bare, sources, wanted[..i + 1], out[wanted[i].path := sources[wanted[i].path]])
  {
    var now, before := wanted[..i + 1], wanted[..i];
    OneMorePath(wanted, i);
    assert forall k :: 0 <= k < i ==> now[k] == before[k];
    forall j, k | 0 <= j < k < |now| && now[j].path == now[k].path ensures bare(sources[now[k].path]) {
      assert now[j] == before[j];
      assert k < i ==> now[k] == before[k];
      assert k == i ==> now[k] == wanted[i] && before[j].path in Paths(before);
    }
    OneMorePicked(sources, Paths(before), wanted[i].path);
    hide Picked, Held;
  }

  method ExportTrees(sha: string -> string, bare: string -> bool, sources: map<string, string>, wanted: seq<WantedTree>)
    returns (r: Option<map<string, string>>)
    ensures r.Some? <==> TreesExport(sha, bare, sources, wanted)
    ensures r.Some? ==> r.value == Picked(sources, Paths(wanted))
  {
    var out: map<string, string> := map[];
    hide TreesCopied;
    assert TreesCopied(sha, bare, sources, wanted[..0], out) by {
      NothingCopied(sha, bare, sources, wanted);
    }
    for i := 0 to |wanted|
      invariant TreesCopied(sha, bare, sources, wanted[..i], out)
    {
      var w := wanted[i];
      if w.path !in sources || sha(sources[w.path]) != w.sha || (w.path in out && !bare(sources[w.path])) {
        NotExported(sha, bare, sources, wanted, i, out);
        return None;
      }
      TreeCopied(sha, bare, sources, wanted, i, out);
      out := out[w.path := sources[w.path]];
    }
    assert wanted[..|wanted|] == wanted;
    AllCopied(sha, bare, sources, wanted, out);
    return Some(out);
  }

  lemma NothingCopied(sha: string -> string, bare: string -> bool, sources: map<string, string>, wanted: seq<WantedTree>)
    ensures TreesCopied(sha, bare, sources, wanted[..0], map[])
  {
  }

  lemma AllCopied(sha: string -> string, bare: string -> bool, sources: map<string, string>, wanted: seq<WantedTree>,
                  out: map<string, string>)
    requires TreesCopied(sha, bare, sources, wanted, out)
    ensures TreesExport(sha, bare, sources, wanted) && out == Picked(sources, Paths(wanted))
  {
  }

  lemma NotExported(sha: string -> string, bare: string -> bool, sources: map<string, string>, wanted: seq<WantedTree>, i: nat,
                    out: map<string, string>)
    requires i < |wanted| && TreesCopied(sha, bare, sources, wanted[..i], out)
    requires !Held(sha, sources, wanted[i]) || (wanted[i].path in out && !bare(sources[wanted[i].path]))
    ensures !TreesExport(sha, bare, sources, wanted)
  {
    if wanted[i].path in out {
      var k :| 0 <= k < i && wanted[..i][k].path == wanted[i].path;
      assert wanted[k].path == wanted[i].path;
    }
  }

  // ---------- Bundles ----------

  /** `Open` finds the bundle under its ID, and its hash is the one in the history. */
  ghost predicate Opens(c: Assembly.Codec, files: map<string, string>, row: (string, BundleRow))
    requires IsSha(c.sha)
  {
    && BundleStore.OpenableId(row.0) && BundleFile(row.0) in files
    && exists m :: BundleVerify.Accepted(c, row.0, row.1.sha, files[BundleFile(row.0)], m)
  }

  function BundleFiles(rows: Rows<BundleRow>): (r: set<string>)
    ensures forall p :: p in r <==> exists i :: 0 <= i < |rows| && BundleFile(rows[i].0) == p
  {
    set i | 0 <= i < |rows| :: BundleFile(rows[i].0)
  }

  method OpenRow(c: Assembly.Codec, files: map<string, string>, row: (string, BundleRow)) returns (ok: bool)
    requires IsSha(c.sha)
    ensures (ok <==> Opens(c, files, row)) && (ok ==> BundleFile(row.0) in files)
  {
    var file := BundleFile(row.0);
    if !BundleStore.OpenableId(row.0) || file !in files {
      return false;
    }
    var m := BundleVerify.Verify(c, row.0, c.sha(files[file]), files[file]);
    ok := m.Some? && c.sha(files[file]) == row.1.sha;
  }

  lemma OneMoreBundle(files: map<string, string>, rows: Rows<BundleRow>, i: nat)
    requires i < |rows| && BundleFile(rows[i].0) in files
    ensures Picked(files, BundleFiles(rows[..i + 1])) ==
      Picked(files, BundleFiles(rows[..i]))[BundleFile(rows[i].0) := files[BundleFile(rows[i].0)]]
  {
    assert forall k :: 0 <= k < i ==> rows[..i + 1][k] == rows[..i][k];
    assert rows[..i + 1][i] == rows[i];
    assert BundleFiles(rows[..i + 1]) == BundleFiles(rows[..i]) + {BundleFile(rows[i].0)};
  }

  lemma NothingPicked(files: map<string, string>, rows: Rows<BundleRow>)
    ensures Picked(files, BundleFiles(rows[..0])) == map[]
  {
  }

  method ExportBundles(c: Assembly.Codec, files: map<string, string>, rows: Rows<BundleRow>) returns (r: Option<map<string, string>>)
    requires IsSha(c.sha)
    ensures r.Some? <==> forall i :: 0 <= i < |rows| ==> Opens(c, files, rows[i])
    ensures r.Some? ==> r.value == Picked(files, BundleFiles(rows))
  {
    hide Opens, Picked, BundleFiles;
    var out: map<string, string> := map[];
    NothingPicked(files, rows);
    for i := 0 to |rows|
      invariant forall k :: 0 <= k < i ==> Opens(c, files, rows[k])
      invariant out == Picked(files, BundleFiles(rows[..i]))
    {
      var ok := OpenRow(c, files, rows[i]);
      if !ok {
        return None;
      }
      OneMoreBundle(files, rows, i);
      out := out[BundleFile(rows[i].0) := files[BundleFile(rows[i].0)]];
    }
    assert rows[..|rows|] == rows;
    return Some(out);
  }

  // ---------- Production ----------

  /** Every source is held with its hash, and no two source rows share a tree that has files. */
  ghost predicate SourcesExport(sha: string -> string, bare: string -> bool, sources: map<string, string>, s: State) {
    && (forall a :: a in s.artifacts ==> Held(sha, sources, ArtifactTree(s.artifacts[a])))
    && (forall w :: w in s.workspaces ==> Held(sha, sources, WorkspaceTree(w, s.workspaces[w])))
    && (forall a, b :: a in s.artifacts && b in s.artifacts && a != b && s.artifacts[a].sha == s.artifacts[b].sha ==>
          bare(sources[SNAPSHOTS + s.artifacts[a].sha]))
  }

  ghost predicate BundlesExport(c: Assembly.Codec, files: map<string, string>, s: State)
    requires IsSha(c.sha)
  {
    forall b :: b in s.bundles ==> Opens(c, files, (b, s.bundles[b]))
  }

  lemma PathsApart(a: SourceArtifact, id: string, w: Workspace)
    ensures ArtifactTree(a).path != WorkspaceTree(id, w).path
  {
    assert ArtifactTree(a).path[0] != WorkspaceTree(id, w).path[0];
  }

  lemma SamePrefix(p: string, a: string, b: string)
    requires p + a == p + b
    ensures a == b
  {
    assert (p + a)[|p|..] == a && (p + b)[|p|..] == b;
  }

  lemma SameWorkspacePath(a: string, v: Workspace, b: string, w: Workspace)
    requires WorkspaceTree(a, v).path == WorkspaceTree(b, w).path
    ensures a == b
  {
    SamePrefix(WORKSPACES, a, b);
  }

  lemma SameArtifactPath(a: SourceArtifact, b: SourceArtifact)
    requires ArtifactTree(a).path == ArtifactTree(b).path
    ensures a.sha == b.sha
  {
    SamePrefix(SNAPSHOTS, a.sha, b.sha);
  }

  /** Each wanted tree is that of a row. */
  lemma WantedIsRow(s: State, x: Snapshot, i: nat)
    requires HoldsRows(s.artifacts, x.artifacts) && HoldsRows(s.workspaces, x.workspaces) && i < |WantedTrees(x)|
    ensures i < |x.artifacts| ==>
      x.artifacts[i].0 in s.artifacts && WantedTrees(x)[i] == ArtifactTree(s.artifacts[x.artifacts[i].0])
    ensures i >= |x.artifacts| ==> var j := i - |x.artifacts|;
      x.workspaces[j].0 in s.workspaces && WantedTrees(x)[i] == WorkspaceTree(x.workspaces[j].0, s.workspaces[x.workspaces[j].0])
  {
    if i >= |x.artifacts| {
      var j := i - |x.artifacts|;
      assert WantedTrees(x)[|x.artifacts| + j].path == WORKSPACES + x.workspaces[j].0;
    }
  }

  lemma ArtifactAt(x: Snapshot, i: nat) returns (a: SourceArtifact)
    requires i < |x.artifacts|
    ensures WantedTrees(x)[i] == ArtifactTree(a)
  {
    a := x.artifacts[i].1;
  }

  lemma WorkspaceAt(x: Snapshot, i: nat) returns (id: string, w: Workspace)
    requires |x.artifacts| <= i < |WantedTrees(x)|
    ensures WantedTrees(x)[i] == WorkspaceTree(id, w) && id == x.workspaces[i - |x.artifacts|].0
  {
    var j := i - |x.artifacts|;
    assert WantedTrees(x)[|x.artifacts| + j] == WorkspaceTree(x.workspaces[j].0, x.workspaces[j].1);
    id, w := x.workspaces[j].0, x.workspaces[j].1;
  }

  lemma NoSharedWorkspace(x: Snapshot, i: nat, j: nat)
    requires DistinctIds(x.workspaces)
    requires i < j < |WantedTrees(x)| && j >= |x.artifacts|
    ensures WantedTrees(x)[i].path != WantedTrees(x)[j].path
  {
    hide WantedTrees, ArtifactTree, WorkspaceTree;
    var id, w := WorkspaceAt(x, j);
    if i < |x.artifacts| {
      var a := ArtifactAt(x, i);
      PathsApart(a, id, w);
    } else if WantedTrees(x)[i].path == WantedTrees(x)[j].path {
      var id', w' := WorkspaceAt(x, i);
      SameWorkspacePath(id', w', id, w);
    }
  }

  /** Two wanted trees at one path are those of two source rows with one hash. */
  lemma SharedPath(s: State, x: Snapshot, i: nat, j: nat)
    requires HoldsRows(s.artifacts, x.artifacts) && HoldsRows(s.workspaces, x.workspaces)
    requires DistinctIds(x.artifacts) && DistinctIds(x.workspaces)
    requires i < j < |WantedTrees(x)| && WantedTrees(x)[i].path == WantedTrees(x)[j].path
    ensures j < |x.artifacts| && x.artifacts[i].0 in s.artifacts && x.artifacts[j].0 in s.artifacts
    ensures x.artifacts[i].0 != x.artifacts[j].0 && s.artifacts[x.artifacts[i].0].sha == s.artifacts[x.artifacts[j].0].sha
  {
    if j >= |x.artifacts| {
      NoSharedWorkspace(x, i, j);
    } else {
      WantedIsRow(s, x, i);
      WantedIsRow(s, x, j);
      hide WantedTrees, HoldsRows, ArtifactTree, WorkspaceTree;
      SameArtifactPath(s.artifacts[x.artifacts[i].0], s.artifacts[x.artifacts[j].0]);
    }
  }

  lemma RowsExport(sha: string -> string, bare: string -> bool, sources: map<string, string>, s: State, x: Snapshot)
    requires HoldsRows(s.artifacts, x.artifacts) && HoldsRows(s.workspaces, x.workspaces)
    requires DistinctIds(x.artifacts) && DistinctIds(x.workspaces) && SourcesExport(sha, bare, sources, s)
    ensures TreesExport(sha, bare, sources, WantedTrees(x))
  {
    hide WantedTrees, HoldsRows, DistinctIds;
    var wanted := WantedTrees(x);
    forall i | 0 <= i < |wanted| ensures Held(sha, sources, wanted[i]) {
      WantedIsRow(s, x, i);
    }
    forall i, j | 0 <= i < j < |wanted| && wanted[i].path == wanted[j].path ensures bare(sources[wanted[j].path]) {
      SharedPath(s, x, i, j);
      WantedIsRow(s, x, i);
      WantedIsRow(s, x, j);
    }
  }

  lemma ExportsRows(sha: string -> string, bare: string -> bool, sources: map<string, string>, s: State, x: Snapshot)
    requires HoldsRows(s.artifacts, x.artifacts) && HoldsRows(s.workspaces, x.workspaces)
    requires TreesExport(sha, bare, sources, WantedTrees(x))
    ensures SourcesExport(sha, bare, sources, s)
  {
    var wanted := WantedTrees(x);
    forall a | a in s.artifacts ensures Held(sha, sources, ArtifactTree(s.artifacts[a])) {
      var i := RowIn(s.artifacts, x.artifacts, a);
      assert Held(sha, sources, wanted[i]);
    }
    forall w | w in s.workspaces ensures Held(sha, sources, WorkspaceTree(w, s.workspaces[w])) {
      var i := RowIn(s.workspaces, x.workspaces, w);
      assert Held(sha, sources, wanted[|x.artifacts| + i]);
    }
    forall a, b | a in s.artifacts && b in s.artifacts && a != b && s.artifacts[a].sha == s.artifacts[b].sha
      ensures bare(sources[SNAPSHOTS + s.artifacts[a].sha])
    {
      var i := RowIn(s.artifacts, x.artifacts, a);
      var j := RowIn(s.artifacts, x.artifacts, b);
      assert wanted[i].path == wanted[j].path && (i < j || j < i);
    }
  }

  function ModuleSource(commit: string): SourceArtifact {
    SourceArtifact(CustomModule, "package", "modules/package", "1", commit, "hash", SNAPSHOTS + "hash")
  }

  /** Two commits of a module that did not change between them. */
  const UNCHANGED := EMPTY.(artifacts := map["a" := ModuleSource("1"), "b" := ModuleSource("2")])

  function Registering(id: string, commit: string): Call {
    Call(RegisterSourceArtifact(id, ModuleSource(commit)), "", false)
  }

  /** One change registers both. */
  const REGISTRATIONS := [Change([Registering("a", "1"), Registering("b", "2")], false, true)]

  lemma ModuleSourceComplete(id: string, commit: string)
    requires id != "" && commit in ["1", "2"]
    ensures CompleteSource(id, ModuleSource(commit))
  {
    assert !IsSpace("1"[0]) && !IsSpace("2"[0]) && !IsSpace("hash"[0]) && !IsSpace((SNAPSHOTS + "hash")[0]);
    assert !IsSpace("modules/package"[0]);
  }

  const FIRST_REGISTERED := EMPTY.(artifacts := map["a" := ModuleSource("1")])

  lemma FirstRegistration()
    ensures Applied(EMPTY, Registering("a", "1")) == Some(FIRST_REGISTERED)
  {
    ModuleSourceComplete("a", "1");
  }

  lemma SecondRegistration()
    ensures Applied(FIRST_REGISTERED, Registering("b", "2")) == Some(UNCHANGED)
  {
    assert "1"[0] != "2"[0] && "a"[0] != "b"[0];
    ModuleSourceComplete("b", "2");
  }

  lemma UnchangedIsReachable()
    ensures ChangedAll(EMPTY, REGISTRATIONS) == UNCHANGED
  {
    FirstRegistration();
    SecondRegistration();
    hide Applied;
    var a, b := Registering("a", "1"), Registering("b", "2");
    assert [a, b][..1] == [a] && [a][..0] == [];
    assert Attempted(EMPTY, [a]) == FIRST_REGISTERED;
    assert Attempted(EMPTY, [a, b]) == UNCHANGED;
    assert REGISTRATIONS[..0] == [];
  }

  /** Such a state is reachable and every source is held, and yet no package can be made of it. */
  lemma UnchangedModuleDoesNotExport(tree: string -> string, bare: string -> bool, sources: map<string, string>)
    requires Held(tree, sources, ArtifactTree(ModuleSource("1"))) && !bare(sources[SNAPSHOTS + "hash"])
    ensures ChangedAll(EMPTY, REGISTRATIONS) == UNCHANGED
    ensures Canonical(UNCHANGED) && !SourcesExport(tree, bare, sources, UNCHANGED)
    ensures forall a :: a in UNCHANGED.artifacts ==> Held(tree, sources, ArtifactTree(UNCHANGED.artifacts[a]))
  {
    UnchangedIsReachable();
    assert "1"[0] != "2"[0] && "a"[0] != "b"[0];
    var a, b := UNCHANGED.artifacts["a"], UNCHANGED.artifacts["b"];
    assert a.sha == b.sha && !bare(sources[SNAPSHOTS + a.sha]);
  }

  /** The package is the export of the state with the trees and bundles that it names. */
  ghost predicate IsProduced(normal: string -> string, s: State, includePat: bool, sources: map<string, string>,
                             bundles: map<string, string>, r: Recovery, p: Package)
  {
    && IsExport(normal, s, includePat, r) && p.recovery == WithoutBackups(r) && p.target in s.targets
    && p.trees == Picked(sources, Paths(WantedTrees(r.snapshot))) && p.bundles == Picked(bundles, BundleFiles(r.snapshot.bundles))
  }

  /** Identity and bytes of the package come from its encryption. A package is produced exactly if the
      target is known, every source is held unchanged and exported once, and every bundle opens. */
  method Produce(c: Assembly.Codec, tree: string -> string, bare: string -> bool, normal: string -> string, s: State, includePat: bool,
                 sources: map<string, string>, bundles: map<string, string>, target: string, id: string, createdAt: string, bytes: string)
    returns (p: Option<Package>, ghost r: Recovery)
    requires IsSha(c.sha) && Canonical(s)
    ensures p.Some? <==> target in s.targets && SourcesExport(tree, bare, sources, s) && BundlesExport(c, bundles, s)
    ensures p.Some? ==> IsProduced(normal, s, includePat, sources, bundles, r, p.value)
    ensures p.Some? ==> p.value.target == target && p.value.id == id && p.value.createdAt == createdAt && p.value.bytes == bytes
  {
    hide SourcesExport, TreesExport, Picked, Opens, SortedBy, Normalized, WantedTrees;
    var e := ExportRecovery(normal, s, includePat);
    r := e;
    ListedTarget(normal, s, e.snapshot, target);
    if !HasId(e.snapshot.targets, target) {
      return None, r;
    }
    var trees := ExportTrees(tree, bare, sources, WantedTrees(e.snapshot));
    SourcesExactly(tree, bare, sources, normal, s, e.snapshot);
    if trees.None? {
      return None, r;
    }
    var archives := ExportBundles(c, bundles, e.snapshot.bundles);
    BundlesExactly(c, bundles, s, e.snapshot);
    if archives.None? {
      return None, r;
    }
    p := Some(Package(WithoutBackups(e), target, id, createdAt, trees.value, archives.value, bytes));
  }

  lemma ListedTarget(normal: string -> string, s: State, x: Snapshot, target: string)
    requires IsSnapshot(normal, s, x)
    ensures HasId(x.targets, target) <==> target in s.targets
  {
    var m := NormalizedTargets(normal, s.targets);
    if HasId(x.targets, target) {
      var i :| 0 <= i < |x.targets| && x.targets[i].0 == target;
      assert x.targets[i].0 in m;
    }
    if target in s.targets {
      assert target in m;
    }
  }

  lemma SourcesExactly(sha: string -> string, bare: string -> bool, sources: map<string, string>, normal: string -> string,
                       s: State, x: Snapshot)
    requires IsSnapshot(normal, s, x)
    ensures TreesExport(sha, bare, sources, WantedTrees(x)) <==> SourcesExport(sha, bare, sources, s)
  {
    hide TreesExport, SourcesExport, SortedBy;
    if SourcesExport(sha, bare, sources, s) {
      RowsExport(sha, bare, sources, s, x);
    }
    if TreesExport(sha, bare, sources, WantedTrees(x)) {
      ExportsRows(sha, bare, sources, s, x);
    }
  }

  lemma BundlesExactly(c: Assembly.Codec, files: map<string, string>, s: State, x: Snapshot)
    requires IsSha(c.sha) && HoldsRows(s.bundles, x.bundles)
    ensures (forall i :: 0 <= i < |x.bundles| ==> Opens(c, files, x.bundles[i])) <==> BundlesExport(c, files, s)
  {
    hide Opens;
    if BundlesExport(c, files, s) {
      forall i | 0 <= i < |x.bundles| ensures Opens(c, files, x.bundles[i]) {
        assert x.bundles[i] == (x.bundles[i].0, s.bundles[x.bundles[i].0]);
      }
    }
    if forall i :: 0 <= i < |x.bundles| ==> Opens(c, files, x.bundles[i]) {
      forall b | b in s.bundles ensures Opens(c, files, (b, s.bundles[b])) {
        var i := RowIn(s.bundles, x.bundles, b);
      }
    }
  }

  // ---------- From one machine to another ----------

  /** Nothing else is there under the names of the package. */
  ghost predicate Undisputed(c: Assembly.Codec, tree: string -> string, p: Package, w: World) {
    && (forall q :: q in w.sources && q in p.trees ==> tree(w.sources[q]) == tree(p.trees[q]))
    && (forall q :: q in w.bundles && q in p.bundles ==> w.bundles[q] == p.bundles[q])
    && NameFree(c.sha, w.backups, p)
  }

  /** Every history row repeats the manifest of its bundle. */
  ghost predicate Registered(c: Assembly.Codec, files: map<string, string>, s: State)
    requires IsSha(c.sha)
  {
    forall b :: b in s.bundles ==>
      var row := (b, s.bundles[b]);
      CompleteRow(row) && BundleFile(b) in files && ArchiveOk(c, row, files[BundleFile(b)])
  }

  lemma ProducedTreesFit(tree: string -> string, bare: string -> bool, dest: map<string, string>, sources: map<string, string>,
                         s: State, x: Snapshot)
    requires HoldsRows(s.artifacts, x.artifacts) && HoldsRows(s.workspaces, x.workspaces) && Canonical(s)
    requires TreesExport(tree, bare, sources, WantedTrees(x))
    requires forall q :: q in dest && q in Picked(sources, Paths(WantedTrees(x))) ==> tree(dest[q]) == tree(sources[q])
    ensures TreesFit(tree, dest, WantedTrees(x), Picked(sources, Paths(WantedTrees(x))))
  {
    var wanted := WantedTrees(x);
    var trees := Picked(sources, Paths(wanted));
    forall i | 0 <= i < |wanted| ensures TreeFits(tree, dest, trees, wanted[i]) {
      WantedIsRow(s, x, i);
      assert Held(tree, sources, wanted[i]) && wanted[i].path in trees;
    }
  }

  lemma ProducedRow(c: Assembly.Codec, dest: map<string, string>, files: map<string, string>, s: State, rows: Rows<BundleRow>, i: nat)
    requires IsSha(c.sha) && HoldsRows(s.bundles, rows) && BundlesExport(c, files, s) && i < |rows|
    requires forall q :: q in dest && q in Picked(files, BundleFiles(rows)) ==> dest[q] == files[q]
    ensures rows[i].0 in s.bundles && rows[i].1 == s.bundles[rows[i].0] && BundleFile(rows[i].0) in files
    ensures RowFits(c, dest, Picked(files, BundleFiles(rows)), rows[i]) <==> ArchiveOk(c, rows[i], files[BundleFile(rows[i].0)])
  {
    hide ArchiveOk;
    assert Opens(c, files, (rows[i].0, s.bundles[rows[i].0]));
    assert BundleFile(rows[i].0) in Picked(files, BundleFiles(rows));
  }

  lemma ProducedBundlesFit(c: Assembly.Codec, dest: map<string, string>, files: map<string, string>, s: State, x: Snapshot)
    requires IsSha(c.sha) && HoldsRows(s.bundles, x.bundles) && BundlesExport(c, files, s)
    requires forall q :: q in dest && q in Picked(files, BundleFiles(x.bundles)) ==> dest[q] == files[q]
    ensures BundlesFit(c, dest, x.bundles, Picked(files, BundleFiles(x.bundles))) <==> Registered(c, files, s)
  {
    var rows := x.bundles;
    var bundles := Picked(files, BundleFiles(rows));
    hide ArchiveOk, CompleteRow, RowFits, BundlesExport;
    forall i | 0 <= i < |rows|
      ensures rows[i].0 in s.bundles && rows[i].1 == s.bundles[rows[i].0] && BundleFile(rows[i].0) in files
      ensures RowFits(c, dest, bundles, rows[i]) <==> ArchiveOk(c, rows[i], files[BundleFile(rows[i].0)])
    {
      ProducedRow(c, dest, files, s, rows, i);
    }
    if Registered(c, files, s) {
      forall i | 0 <= i < |rows| ensures CompleteRow(rows[i]) && RowFits(c, dest, bundles, rows[i]) {
        assert rows[i] == (rows[i].0, s.bundles[rows[i].0]);
      }
    }
    if BundlesFit(c, dest, rows, bundles) {
      forall b | b in s.bundles
        ensures CompleteRow((b, s.bundles[b])) && BundleFile(b) in files && ArchiveOk(c, (b, s.bundles[b]), files[BundleFile(b)])
      {
        var i := RowIn(s.bundles, rows, b);
        assert CompleteRow(rows[i]) && RowFits(c, dest, bundles, rows[i]);
      }
    }
  }

  /** A package that was produced from a reachable state can be imported where nothing is disputed exactly
      if the management state there is empty, every target has an address and a key that travels, and the
      history rows repeat the manifests of their bundles; the state is then the restored one. */
  lemma ProducedImports(c: Assembly.Codec, tree: string -> string, bare: string -> bool, normal: string -> string, s: State,
                        includePat: bool, sources: map<string, string>, bundles: map<string, string>, r: Recovery, p: Package, w: World)
    requires IsSha(c.sha) && Inv(s) && Canonical(s) && IsProduced(normal, s, includePat, sources, bundles, r, p) && p.id != ""
    requires SourcesExport(tree, bare, sources, s) && BundlesExport(c, bundles, s) && Undisputed(c, tree, p, w)
    ensures Importable(c, tree, p, w) <==> w.state == EMPTY && Portable(s, includePat) && Registered(c, bundles, s)
    ensures Importable(c, tree, p, w) ==>
      Replaced(w.state, p.recovery, p.id, Registration(c.sha, p)) == Some(Restored(normal, s, includePat, p.id, Registration(c.sha, p)))
  {
    hide TargetsOk, SecretsOk, SourcesOk, WorkspacesOk, RecordsOk, BackupsOk, SortedBy;
    hide Restored, Replaced, Portable, Registered, TreesFit, TreesExport, SourcesExport, BundlesExport, WantedTrees;
    assert TargetOk(p.target, s.targets[p.target], s.secrets.Keys) by { KnownTarget(s, p.target); }
    ExportImports(normal, s, includePat, r, w.state, p.id, Registration(c.sha, p));
    SourcesExactly(tree, bare, sources, normal, s, r.snapshot);
    SameWanted(r);
    ProducedTreesFit(tree, bare, w.sources, sources, s, r.snapshot);
    ProducedBundlesFit(c, w.bundles, bundles, s, r.snapshot);
    ListedTarget(normal, s, r.snapshot, p.target);
  }

  lemma KnownTarget(s: State, t: string)
    requires TargetsOk(s.targets, s.secrets.Keys) && t in s.targets
    ensures TargetOk(t, s.targets[t], s.secrets.Keys)
  {
  }

  lemma SameWanted(r: Recovery)
    ensures WantedTrees(WithoutBackups(r).snapshot) == WantedTrees(r.snapshot)
  {
    var x, y := WithoutBackups(r).snapshot, r.snapshot;
    assert x.artifacts == y.artifacts && x.workspaces == y.workspaces;
    assert WantedTrees(x)[..|x.artifacts|] == WantedTrees(y)[..|y.artifacts|];
    assert WantedTrees(x)[|x.artifacts|..] == WantedTrees(y)[|y.artifacts|..];
  }

  /** A package made on one machine and imported on another without failing steps: the import succeeds
      exactly under the conditions above, and the other machine then has the restored state, the trees of
      its sources and the bundles of its history. */
  method Transfer(c: Assembly.Codec, tree: string -> string, bare: string -> bool, normal: string -> string, from: World,
                  includePat: bool, target: string, id: string, createdAt: string, bytes: string,
                  sources: Disk, bundles: Disk, backups: Disk, store: Store, temp: string, f: Faults)
    returns (p: Option<Package>, ok: bool)
    requires IsSha(c.sha) && Inv(from.state) && Canonical(from.state) && id != "" && NoFaults(f)
    requires sources != bundles && sources != backups && bundles != backups
    requires temp !in backups.files && temp != BackupName(id)
    modifies sources, bundles, backups, store
    ensures p.Some? <==> target in from.state.targets && SourcesExport(tree, bare, from.sources, from.state) && BundlesExport(c, from.bundles, from.state)
    ensures p.None? ==> !ok
    ensures p.Some? && Undisputed(c, tree, p.value, old(Seen(sources, bundles, backups, store))) ==>
      (ok <==> old(store.state) == EMPTY && Portable(from.state, includePat) && Registered(c, from.bundles, from.state))
    ensures p.Some? && ok && Undisputed(c, tree, p.value, old(Seen(sources, bundles, backups, store))) ==>
      store.state == Restored(normal, from.state, includePat, id, Registration(c.sha, p.value)) && Inv(store.state)
    ensures p.Some? && ok ==> Imported(c, tree, p.value, old(Seen(sources, bundles, backups, store)), Seen(sources, bundles, backups, store))
    ensures !ok ==> Seen(sources, bundles, backups, store) == old(Seen(sources, bundles, backups, store))
  {
    hide Inv, Canonical, Portable, Registered, Restored, Replaced, Importable, Undisputed, IsProduced, SourcesExport, BundlesExport;
    ghost var r;
    p, r := Produce(c, tree, bare, normal, from.state, includePat, from.sources, from.bundles, target, id, createdAt, bytes);
    if p.None? {
      return p, false;
    }
    ghost var before := Seen(sources, bundles, backups, store);
    ok := ImportPackage(sources, bundles, backups, store, c, tree, p.value, temp, f);
    if Undisputed(c, tree, p.value, before) {
      ProducedImports(c, tree, bare, normal, from.state, includePat, from.sources, from.bundles, r, p.value, before);
      if ok {
        ProducedKeeps(c, normal, from.state, includePat, from, r, p.value);
      }
    }
  }

  lemma ProducedKeeps(c: Assembly.Codec, normal: string -> string, s: State, includePat: bool, from: World, r: Recovery, p: Package)
    requires Inv(s) && IsProduced(normal, s, includePat, from.sources, from.bundles, r, p) && p.id != ""
    ensures Inv(Restored(normal, s, includePat, p.id, Registration(c.sha, p)))
  {
    KnownTarget(s, p.target);
    hide TargetsOk, SecretsOk, SourcesOk, WorkspacesOk, RecordsOk, BackupsOk, IsExport, Restored;
    RestoredKeeps(normal, s, includePat, p.id, Registration(c.sha, p));
  }
}
