/** Assembly of execution bundles: input checks, normalisation, identity and canonical archive
    (`internal/executionbundle/normalize.go`, `canonical.go` and `assembler.go`). Bytes and texts are
    both strings of characters. */
module Assembly {
  import opened Prelude
  import opened Ordering
  import opened Text
  import opened Members
  import opened Checksums
  import opened Plan

  datatype Kind = Installation | Migration | Validation

  function KindText(k: Kind): string {
    match k case Installation => "installation" case Migration => "migration" case Validation => "validation"
  }

  datatype Source = Source(kind: string, id: string, version: string, gitCommit: string, packageSha: string)

  datatype Image = Image(name: string, ref: string, digest: string)

  datatype SecretRef = SecretRef(secretId: string, container: string, delivery: string, target: string)

  datatype ArtifactSpec = ArtifactSpec(path: string, targetPath: string, sha: string, mode: int)

  datatype ValidationSpec = ValidationSpec(id: string, readOnly: bool)

  datatype Runner = Runner(version: string, path: string, sha: string)

  datatype Identity = Identity(kind: Kind, targetId: string, subjectKind: string, subjectId: string, subjectIdentity: string,
                               packageId: string, packageSha: string, version: string)

  datatype Manifest = Manifest(formatVersion: int, runner: Runner, bundleId: string, identity: Identity,
                               sources: seq<Source>, images: seq<Image>, artifacts: seq<ArtifactSpec>, actions: seq<ActionSpec>,
                               writablePaths: seq<string>, secrets: seq<SecretRef>, preconditions: seq<Precondition>,
                               post: string, validations: seq<ValidationSpec>, steps: seq<Step>, backupRequired: bool)

  datatype File = File(path: string, targetPath: string, mode: int, data: string)

  datatype Input = Input(identity: Identity, sources: seq<Source>, images: seq<Image>, files: seq<File>,
                         actions: seq<File>, actionIds: seq<string>, writablePaths: seq<string>, secrets: seq<SecretRef>,
                         preconditions: seq<Precondition>, post: Option<string>, validations: seq<ValidationSpec>,
                         steps: seq<Step>, backupRequired: bool)

  datatype Entry = Entry(name: string, regular: bool, data: string)

  /** SHA-256 in hexadecimal, canonical JSON of manifests and the tar format. */
  datatype Codec = Codec(sha: string -> string, encode: Manifest -> string, decode: string -> Option<Manifest>,
                         tar: seq<File> -> string, untar: string -> Option<seq<Entry>>, runner: string) {
    /** Hashes are 64 digits, decoding inverts encoding, and an archive lists its files in order. */
    ghost predicate Valid() {
      && IsSha(sha)
      && (forall m :: decode(encode(m) + "\n") == Some(m))
      && (forall fs :: tar(fs) != "" && untar(tar(fs)) == Some(Entries(fs)))
    }
  }

  function Entries(fs: seq<File>): (es: seq<Entry>)
    ensures |es| == |fs| && forall i :: 0 <= i < |es| ==> es[i] == Entry(fs[i].path, true, fs[i].data)
  {
    seq(|fs|, i requires 0 <= i < |fs| => Entry(fs[i].path, true, fs[i].data))
  }

  // ---------- Input checks ----------

  const FORBIDDEN_IN_WRITABLE := "\r\n\0\t "

  predicate WritableOk(p: string) { p != "" && "/" <= p && Clean(p) && Lacks(p, FORBIDDEN_IN_WRITABLE) }

  predicate ValidInput(inp: Input) {
    var id := inp.identity;
    && !Blank(id.targetId) && !Blank(id.subjectKind) && !Blank(id.subjectId) && !Blank(id.subjectIdentity) && !Blank(id.version)
    && |inp.actionIds| == |inp.actions|
    && (inp.writablePaths != [] ==> id.subjectKind == "module")
    && (forall p :: p in inp.writablePaths ==> WritableOk(p)) && Distinct(inp.writablePaths)
    && (id.packageSha != "" ==> ValidDigest(id.packageSha))
    && (forall s :: s in inp.sources ==> !Blank(s.kind) && !Blank(s.id) && !Blank(s.version) && ValidDigest(s.packageSha))
    && (forall i :: i in inp.images ==> !Blank(i.name) && !Blank(i.ref) && "sha256:" <= i.digest && ValidDigest(i.digest[7..]))
    && (id.kind == Validation ==> forall s :: s in inp.steps ==> !s.mutating)
  }

  /** No permission bit outside 0755. */
  predicate SafeMode(mode: int) {
    0 <= mode < 0x200 && (mode / 8) % 8 in {0, 1, 4, 5} && mode % 8 in {0, 1, 4, 5}
  }

  function WithMode(f: File): File { if f.mode == 0 then f.(mode := 0x124) else f }

  predicate FileOk(f: File) { BundlePath(f.path) && SafeMode(WithMode(f).mode) }

  predicate TargetOk(f: File) { "/" <= f.targetPath && Clean(f.targetPath) && Lacks(f.targetPath, LINE_OR_NUL) }

  function WithModes(fs: seq<File>): (r: seq<File>)
    ensures |r| == |fs| && forall i :: 0 <= i < |r| ==> r[i] == WithMode(fs[i])
  {
    seq(|fs|, i requires 0 <= i < |fs| => WithMode(fs[i]))
  }

  function MembersOf(fs: seq<File>): (r: seq<Member>)
    ensures |r| == |fs| && forall i :: 0 <= i < |r| ==> r[i] == (fs[i].path, fs[i].data)
  {
    seq(|fs|, i requires 0 <= i < |fs| => (fs[i].path, fs[i].data))
  }

  function Spec(sha: string -> string, f: File): ArtifactSpec { ArtifactSpec(f.path, f.targetPath, sha(f.data), f.mode) }

  /** Artifacts record the mode as given; the member gets the default one for zero. */
  function Specs(sha: string -> string, fs: seq<File>): (r: seq<ArtifactSpec>)
    ensures |r| == |fs| && forall i :: 0 <= i < |r| ==> r[i] == Spec(sha, fs[i])
  {
    seq(|fs|, i requires 0 <= i < |fs| => Spec(sha, fs[i]))
  }

  function Actions(sha: string -> string, ids: seq<string>, fs: seq<File>): (r: seq<ActionSpec>)
    requires |ids| == |fs|
    ensures |r| == |fs| && forall i :: 0 <= i < |r| ==> r[i] == ActionSpec(ids[i], fs[i].path, sha(fs[i].data))
  {
    seq(|fs|, i requires 0 <= i < |fs| => ActionSpec(ids[i], fs[i].path, sha(fs[i].data)))
  }

  function SpecKey(a: ArtifactSpec): Key { [a.path] }

  ghost predicate FilesOk(files: seq<File>, actions: seq<File>) {
    && (forall f :: f in files ==> TargetOk(f))
    && (forall f :: f in files + actions ==> FileOk(f))
    && DistinctMembers(MembersOf(files + actions))
  }

  /** What `add` has accepted so far. */
  ghost predicate Added(all: seq<File>, n: nat, seen: set<string>, out: seq<File>) {
    && n <= |all| && out == WithModes(all[..n])
    && (forall p :: p in seen <==> exists i :: 0 <= i < n && all[i].path == p)
    && (forall i :: 0 <= i < n ==> FileOk(all[i]))
    && (forall i, j :: 0 <= i < j < n ==> all[i].path != all[j].path)
  }

  lemma AddOneMore(all: seq<File>, n: nat, seen: set<string>, out: seq<File>)
    requires n < |all| && Added(all, n, seen, out) && FileOk(all[n]) && all[n].path !in seen
    ensures Added(all, n + 1, seen + {all[n].path}, out + [WithMode(all[n])])
  {
    assert WithModes(all[..n + 1]) == WithModes(all[..n]) + [WithMode(all[n])];
    forall p ensures p in seen + {all[n].path} <==> exists i :: 0 <= i < n + 1 && all[i].path == p {
      if i :| 0 <= i < n + 1 && all[i].path == p {
        assert i < n ==> p in seen;
      }
      if p in seen {
        var i :| 0 <= i < n && all[i].path == p;
      }
    }
  }

  lemma NotAdded(all: seq<File>, n: nat, seen: set<string>, out: seq<File>)
    requires n < |all| && Added(all, n, seen, out) && all[n].path in seen
    ensures !DistinctMembers(MembersOf(all))
  {
    var i :| 0 <= i < n && all[i].path == all[n].path;
    assert MembersOf(all)[i].0 == MembersOf(all)[n].0;
  }

  lemma AllAdded(all: seq<File>, seen: set<string>, out: seq<File>)
    requires Added(all, |all|, seen, out)
    ensures out == WithModes(all) && DistinctMembers(MembersOf(all)) && forall f :: f in all ==> FileOk(f)
  {
    assert all[..|all|] == all;
  }

  /** The closure `add`: rejects an unsafe or repeated path and an unsafe mode. */
  method Add(ghost all: seq<File>, ghost n: nat, f: File, seen: set<string>, out: seq<File>)
    returns (ok: bool, seen': set<string>, out': seq<File>)
    requires n < |all| && all[n] == f && Added(all, n, seen, out)
    ensures if ok then Added(all, n + 1, seen', out') else !FileOk(f) || !DistinctMembers(MembersOf(all))
  {
    ok, seen', out' := false, seen, out;
    if !FileOk(f) {
      return;
    }
    if f.path in seen {
      NotAdded(all, n, seen, out);
      return;
    }
    AddOneMore(all, n, seen, out);
    ok, seen', out' := true, seen + {f.path}, out + [WithMode(f)];
  }

  method AddArtifacts(sha: string -> string, files: seq<File>, ghost all: seq<File>)
    returns (ok: bool, seen: set<string>, out: seq<File>, artifacts: seq<ArtifactSpec>)
    requires files <= all
    ensures if ok then Added(all, |files|, seen, out) && artifacts == Specs(sha, files) && forall f :: f in files ==> TargetOk(f)
            else (exists f :: f in files && (!TargetOk(f) || !FileOk(f))) || !DistinctMembers(MembersOf(all))
  {
    ok, seen, out, artifacts := true, {}, [], [];
    for i := 0 to |files|
      invariant ok && Added(all, i, seen, out) && artifacts == Specs(sha, files[..i])
      invariant forall k :: 0 <= k < i ==> TargetOk(files[k])
    {
      hide Added, FileOk, DistinctMembers, TargetOk;
      var f := files[i];
      assert f in files;
      if !TargetOk(f) {
        ok := false;
        return;
      }
      ok, seen, out := Add(all, i, f, seen, out);
      if !ok {
        return;
      }
      assert Specs(sha, files[..i + 1]) == Specs(sha, files[..i]) + [Spec(sha, f)];
      artifacts := artifacts + [Spec(sha, f)];
    }
    assert files[..|files|] == files;
  }

  method AddActions(sha: string -> string, actions: seq<File>, ids: seq<string>, ghost all: seq<File>, ghost n: nat,
                    seen0: set<string>, out0: seq<File>)
    returns (ok: bool, seen: set<string>, out: seq<File>, specs: seq<ActionSpec>)
    requires |ids| == |actions| && |all| == n + |actions| && all[n..] == actions && Added(all, n, seen0, out0)
    ensures if ok then Added(all, |all|, seen, out) && specs == Actions(sha, ids, actions)
            else (exists f :: f in actions && !FileOk(f)) || !DistinctMembers(MembersOf(all))
  {
    ok, seen, out, specs := true, seen0, out0, [];
    for i := 0 to |actions|
      invariant ok && Added(all, n + i, seen, out) && |specs| == i
      invariant forall k :: 0 <= k < i ==> specs[k] == ActionSpec(ids[k], actions[k].path, sha(actions[k].data))
    {
      hide Added, FileOk, DistinctMembers;
      var f := actions[i];
      assert all[n + i] == all[n..][i] && f in actions;
      ok, seen, out := Add(all, n + i, f, seen, out);
      if !ok {
        return;
      }
      specs := specs + [ActionSpec(ids[i], f.path, sha(f.data))];
    }
  }

  /** `normalizeFiles`: accepts exactly safe and pairwise different paths with safe modes; artifacts
      come out sorted by path, actions in their given order. */
  method NormalizeFiles(sha: string -> string, files: seq<File>, actions: seq<File>, ids: seq<string>)
    returns (ok: bool, out: seq<File>, artifacts: seq<ArtifactSpec>, specs: seq<ActionSpec>)
    requires |ids| == |actions|
    ensures ok <==> FilesOk(files, actions)
    ensures ok ==> out == WithModes(files + actions) && artifacts == Sort(Specs(sha, files), SpecKey)
                   && specs == Actions(sha, ids, actions)
  {
    ghost var all := files + actions;
    assert forall f :: f in all <==> f in files || f in actions;
    var seen: set<string>;
    specs := [];
    ok, seen, out, artifacts := AddArtifacts(sha, files, all);
    if !ok {
      return;
    }
    ok, seen, out, specs := AddActions(sha, actions, ids, all, |files|, seen, out);
    if !ok {
      return;
    }
    AllAdded(all, seen, out);
    artifacts := Sort(artifacts, SpecKey);
  }

  // ---------- The canonical manifest ----------

  function SourceKey(s: Source): Key { [s.kind, s.id] }
  function ImageKey(i: Image): Key { [i.name] }
  function SecretKey(s: SecretRef): Key { [s.secretId, s.container, s.target] }
  function ValidationKey(v: ValidationSpec): Key { [v.id] }

  /** `normalizeManifest` sorts every list but the actions and the steps. */
  function NormalizeManifest(m: Manifest): Manifest {
    m.(sources := Sort(m.sources, SourceKey), images := Sort(m.images, ImageKey), artifacts := Sort(m.artifacts, SpecKey),
       writablePaths := Sort(m.writablePaths, StringKey), secrets := Sort(m.secrets, SecretKey),
       preconditions := Sort(m.preconditions, PreconditionKey), validations := Sort(m.validations, ValidationKey))
  }

  const RUNNER_PATH := "runtime/runner.py"
  const MANIFEST_PATH := "manifest.json"

  function BundleIdOf(c: Codec, m: Manifest): string
    requires |c.sha(c.encode(m.(bundleId := "")))| >= 32
  {
    "bundle_" + c.sha(c.encode(m.(bundleId := "")))[..32]
  }

  function RawManifest(c: Codec, inp: Input): Manifest
    requires inp.post.Some? && |inp.actionIds| == |inp.actions|
  {
    Manifest(2, Runner("1", RUNNER_PATH, c.sha(c.runner)), "", inp.identity, inp.sources, inp.images,
             Sort(Specs(c.sha, inp.files), SpecKey), Actions(c.sha, inp.actionIds, inp.actions), inp.writablePaths, inp.secrets,
             inp.preconditions, inp.post.value, inp.validations, inp.steps, inp.backupRequired)
  }

  function FinalManifest(c: Codec, inp: Input): Manifest
    requires inp.post.Some? && |inp.actionIds| == |inp.actions| && forall d :: |c.sha(d)| >= 32
  {
    var m := NormalizeManifest(RawManifest(c, inp));
    m.(bundleId := BundleIdOf(c, m))
  }

  function RunnerFile(c: Codec): File { File(RUNNER_PATH, "", 0x16d, c.runner) }

  function ManifestFile(c: Codec, m: Manifest): File { File(MANIFEST_PATH, "", 0x124, c.encode(m) + "\n") }

  function SumsFile(c: Codec, fs: seq<File>): File {
    File(SUMS, "", 0x124, Document(c.sha, Sort(MembersOf(fs), MemberKey)))
  }

  function FileKey(f: File): Key { [f.path] }

  /** The files that the checksum document covers. */
  function Payload(c: Codec, inp: Input, m: Manifest): seq<File> {
    WithModes(inp.files + inp.actions) + [RunnerFile(c), ManifestFile(c, m)]
  }

  function AllFiles(c: Codec, inp: Input, m: Manifest): seq<File> {
    Payload(c, inp, m) + [SumsFile(c, Payload(c, inp, m))]
  }

  datatype Assembled = Assembled(id: string, sha: string, bytes: string, manifest: Manifest)

  function AssembledBundle(c: Codec, inp: Input): Assembled
    requires inp.post.Some? && |inp.actionIds| == |inp.actions| && forall d :: |c.sha(d)| >= 32
  {
    var m := FinalManifest(c, inp);
    var bytes := c.tar(Sort(AllFiles(c, inp, m), FileKey));
    Assembled(m.bundleId, c.sha(bytes), bytes, m)
  }

  ghost predicate InputOk(inp: Input) { ValidInput(inp) && FilesOk(inp.files, inp.actions) && inp.post.Some? }

  /** Everything but writing to the store. */
  method Assemble(c: Codec, inp: Input) returns (r: Option<Assembled>)
    requires IsSha(c.sha)
    ensures r.Some? <==> InputOk(inp)
    ensures r.Some? ==> r.value == AssembledBundle(c, inp)
  {
    if !ValidInput(inp) {
      return None;
    }
    var ok, files, artifacts, specs := NormalizeFiles(c.sha, inp.files, inp.actions, inp.actionIds);
    if !ok || inp.post.None? {
      return None;
    }
    files := files + [RunnerFile(c)];
    var m := NormalizeManifest(
      Manifest(2, Runner("1", RUNNER_PATH, c.sha(c.runner)), "", inp.identity, inp.sources, inp.images, artifacts, specs,
               inp.writablePaths, inp.secrets, inp.preconditions, inp.post.value, inp.validations, inp.steps, inp.backupRequired));
    m := m.(bundleId := BundleIdOf(c, m));
    files := files + [ManifestFile(c, m)];
    assert files == Payload(c, inp, m);
    var doc := ChecksumDocument(c.sha, MembersOf(files));
    files := Sort(files + [File(SUMS, "", 0x124, doc)], FileKey);
    var bytes := c.tar(files);
    return Some(Assembled(m.bundleId, c.sha(bytes), bytes, m));
  }
}
