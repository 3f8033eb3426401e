/** The bundle of a prepared operation as the target runner reads it, and what running it does: from a
    request to the files of a target. */
module PreparedBundle {
  import opened Prelude
  import opened Ordering
  import opened Modules
  import opened Artifacts
  import opened Plan
  import opened Runner
  import opened PreparedRun
  import opened Compiler
  import opened TargetRun
  import Assembly
  import BundleVerify
  import Checksums
  import Members
  import LinkNets
  import ModuleOrder

  // ---------- What the runner reads ----------

  /** An artifact of the manifest with its bytes in the archive. */
  function ArtifactOf(files: map<string, string>, s: Assembly.ArtifactSpec): Artifact {
    Artifact(s.path, s.targetPath, s.mode, if s.path in files then files[s.path] else "", s.sha)
  }

  function PostArtifacts(t: Tools, post: string): map<string, string> {
    match t.decodePost(post)
    case None => map[]
    case Some(doc) => doc.artifacts
  }

  /** The decoded manifest with the files of the archive. */
  function RunnerBundle(t: Tools, bytes: string, m: Assembly.Manifest): Bundle {
    var files := BundleVerify.FilesOf(t.codec, bytes);
    Bundle(m.identity.kind == Assembly.Validation, m.identity.targetId, m.preconditions,
           Mapped(m.artifacts, (s: Assembly.ArtifactSpec) => ArtifactOf(files, s)), m.actions, m.steps, PostArtifacts(t, m.post), files)
  }

  function JobOf(t: Tools, bytes: string, m: Assembly.Manifest): Job {
    Job(m.bundleId, RunnerBundle(t, bytes, m), set s | s in m.secrets :: s.secretId)
  }

  /** The bundle was prepared for the request, and the runner accepts its bytes with this manifest. */
  ghost predicate Delivered(t: Tools, q: PrepareRequest, m: Assembly.Manifest)
    requires t.Valid()
  {
    PreparedBundle(t, q).Some? && BundleVerify.RunnerAccepted(t.codec, PreparedBundle(t, q).value.bytes, m)
  }

  /** The bundle that runs on the target. */
  ghost function BundleOf(t: Tools, q: PrepareRequest, m: Assembly.Manifest): Bundle
    requires t.Valid() && Delivered(t, q, m)
  {
    RunnerBundle(t, PreparedBundle(t, q).value.bytes, m)
  }

  // ---------- The archive holds the input files ----------

  ghost predicate HoldsFiles(files: map<string, string>, fs: seq<Assembly.File>) {
    forall f :: f in fs ==> f.path in files && files[f.path] == f.data
  }

  lemma PayloadHolds(c: Assembly.Codec, inputs: seq<Assembly.File>, payload: seq<Assembly.File>)
    requires |inputs| <= |payload| && payload[..|inputs|] == Assembly.WithModes(inputs)
    requires Members.DistinctMembers(Assembly.MembersOf(payload)) && forall f :: f in inputs ==> f.path != Checksums.SUMS
    ensures HoldsFiles(Checksums.WithSums(c.sha, Assembly.MembersOf(payload)), inputs)
  {
    hide Checksums.Document, Members.FileMap;
    forall f | f in inputs
      ensures var files := Checksums.WithSums(c.sha, Assembly.MembersOf(payload)); f.path in files && files[f.path] == f.data
    {
      var i :| 0 <= i < |inputs| && inputs[i] == f;
      assert payload[i] == payload[..|inputs|][i] == Assembly.WithMode(f);
      BundleVerify.FileIn(payload, Assembly.WithMode(f));
    }
  }

  lemma ArchiveHolds(c: Assembly.Codec, inp: Assembly.Input)
    requires c.Valid() && Assembly.InputOk(inp) && BundleVerify.Unreserved(inp.files + inp.actions)
    ensures HoldsFiles(BundleVerify.FilesOf(c, Assembly.AssembledBundle(c, inp).bytes), inp.files + inp.actions)
  {
    var m, inputs := Assembly.FinalManifest(c, inp), inp.files + inp.actions;
    BundleVerify.AssembledFiles(c, inp);
    BundleVerify.PayloadMembers(c, inp, m);
    hide Assembly.InputOk, Assembly.FinalManifest, Assembly.AssembledBundle, BundleVerify.FilesOf, HoldsFiles, Checksums.WithSums;
    PayloadHolds(c, inputs, Assembly.Payload(c, inp, m));
  }

  lemma FilesAreMembers(files: map<string, string>, artifacts: seq<Artifact>, scripts: seq<ActionFile>)
    requires HoldsFiles(files, BundleFiles(artifacts) + ScriptFiles(scripts))
    ensures HoldsMembers(files, BundleMembers(artifacts, scripts))
  {
    var fs, ms := BundleFiles(artifacts) + ScriptFiles(scripts), BundleMembers(artifacts, scripts);
    forall i | 0 <= i < |ms| ensures ms[i].0 in files && files[ms[i].0] == ms[i].1 {
      assert fs[i] in fs && ms[i] == (fs[i].path, fs[i].data);
    }
  }

  // ---------- The manifest says what was planned ----------

  lemma SpecsAreArtifacts(sha: string -> string, files: map<string, string>, artifacts: seq<Artifact>, specs: seq<Assembly.ArtifactSpec>)
    requires IsPermutation(specs, Assembly.Specs(sha, BundleFiles(artifacts))) && HoldsFiles(files, BundleFiles(artifacts))
    requires forall a :: a in artifacts ==> a.sha == sha(a.data)
    ensures IsPermutation(Mapped(specs, (s: Assembly.ArtifactSpec) => ArtifactOf(files, s)), artifacts)
  {
    var f, all := (s: Assembly.ArtifactSpec) => ArtifactOf(files, s), Assembly.Specs(sha, BundleFiles(artifacts));
    forall i | 0 <= i < |artifacts| ensures f(all[i]) == artifacts[i] {
      assert artifacts[i] in artifacts && BundleFiles(artifacts)[i] in BundleFiles(artifacts);
    }
    assert Mapped(all, f) == artifacts;
    MappedPermutation(specs, all, f);
  }

  lemma ManifestArtifacts(c: Assembly.Codec, inp: Assembly.Input)
    requires c.Valid() && Assembly.InputOk(inp)
    ensures IsPermutation(Assembly.AssembledBundle(c, inp).manifest.artifacts, Assembly.Specs(c.sha, inp.files))
  {
    var specs := Assembly.Specs(c.sha, inp.files);
    var sorted := Sort(specs, Assembly.SpecKey);
    SortSorts(specs, Assembly.SpecKey);
    SortSorts(sorted, Assembly.SpecKey);
    assert Assembly.AssembledBundle(c, inp).manifest.artifacts == Sort(sorted, Assembly.SpecKey);
  }

  lemma ManifestFields(c: Assembly.Codec, inp: Assembly.Input)
    requires c.Valid() && Assembly.InputOk(inp)
    ensures var m := Assembly.AssembledBundle(c, inp).manifest;
      && m.identity == inp.identity && m.steps == inp.steps && Some(m.post) == inp.post && |inp.actionIds| == |inp.actions|
      && m.actions == Assembly.Actions(c.sha, inp.actionIds, inp.actions)
      && m.preconditions == Sort(inp.preconditions, PreconditionKey)
  {
  }

  lemma ScriptSpecs(sha: string -> string, plan: PlanState)
    requires |plan.ids| == |plan.files|
    ensures Assembly.Actions(sha, plan.ids, ScriptFiles(plan.files)) == ActionSpecs(sha, plan)
  {
  }

  /** The runner accepts a prepared bundle only with the manifest it was assembled with. */
  lemma OwnManifest(t: Tools, q: PrepareRequest, m: Assembly.Manifest)
    requires t.Valid() && Delivered(t, q, m)
    ensures m == PreparedBundle(t, q).value.manifest
  {
    var inp := InputOf(t, q, DraftOf(t, q).value);
    hide DraftOf, InputOf, Assembly.InputOk, Assembly.AssembledBundle, BundleVerify.RunnerAccepted, BundleVerify.Accepted;
    BundleVerify.RunnerAcceptsAssembled(t.codec, inp, m);
    BundleVerify.VerifyAcceptsAssembled(t.codec, inp, m);
  }

  /** Of the conditions on the paths of a bundle that the runner accepts, prepared ones can only break two: a
      backslash, and a line break that only Python knows, both from an instance ID or an action's file name. */
  lemma DeliveredExactly(t: Tools, q: PrepareRequest, m: Assembly.Manifest)
    requires t.Valid() && PreparedBundle(t, q).Some?
    ensures var inp := InputOf(t, q, DraftOf(t, q).value); var inputs := inp.files + inp.actions;
      Delivered(t, q, m) <==> m == PreparedBundle(t, q).value.manifest && BundleVerify.NoBackslash(inputs) &&
                              BundleVerify.NoBreaks(inputs, Checksums.PythonBreak)
  {
    var inp := InputOf(t, q, DraftOf(t, q).value);
    ModuleOrder.PreparedUnreserved(t, q);
    hide DraftOf, InputOf, Assembly.InputOk, Assembly.AssembledBundle, BundleVerify.RunnerAccepted, BundleVerify.Accepted,
      BundleVerify.NoBackslash, BundleVerify.NoBreaks, BundleVerify.Unreserved, BundleVerify.NoDots;
    BundleVerify.RunnerAcceptsAssembled(t.codec, inp, m);
    BundleVerify.VerifyAcceptsAssembled(t.codec, inp, m);
  }

  // ---------- The delivered bundle is the prepared one ----------

  lemma DraftPlans(t: Tools, q: PrepareRequest)
    requires t.Valid() && DraftOf(t, q).Some?
    ensures var d := DraftOf(t, q).value; var mods := ModulesOf(d.modules);
      && UpdateActions(q.plan, mods).Ok? && PlanOf(t.base, q.plan, mods, d.artifacts, UpdateActions(q.plan, mods).value) == Ok(d.plan)
      && d.artifacts == GeneratedArtifacts(ContentOf(t, d.modules, d.links), mods, d.links) && |d.plan.ids| == |d.plan.files|
  {
    hide CompiledModules, DetachedSubject, GeneratedArtifacts, PlanOf, UpdateActions, ValidRequest, SubjectDesired, ClaimsPass,
      Removable, LinkNets.DerivedLinks, ModulesOf;
    var d := DraftOf(t, q).value;
    var mods := ModulesOf(d.modules);
    PlanSteps(t.base, q.plan, mods, d.artifacts, UpdateActions(q.plan, mods).value);
  }

  lemma DraftArtifacts(t: Tools, q: PrepareRequest)
    requires t.Valid() && PreparedBundle(t, q).Some?
    ensures var d := DraftOf(t, q).value;
      DistinctPaths(d.artifacts) && forall a :: a in d.artifacts ==> a.sha == t.codec.sha(a.data)
  {
    var d := DraftOf(t, q).value;
    var c, mods := ContentOf(t, d.modules, d.links), ModulesOf(d.modules);
    DraftPlans(t, q);
    hide DraftOf, GeneratedArtifacts, PlanOf, UpdateActions, Assembly.FilesOk;
    ModuleOrder.SharedNamesRefused(c, mods, d.links, ScriptFiles(d.plan.files));
    GeneratedTargetsDistinct(c, mods, d.links);
  }

  /** The manifest repeats the request and its draft. */
  ghost predicate Says(t: Tools, q: PrepareRequest, d: Draft, m: Assembly.Manifest) {
    && m.identity.kind == KindOf(q.plan.operation) && m.identity.targetId == q.plan.targetId && m.steps == d.plan.steps
    && m.preconditions == Sort(Preconditions(q.plan), PreconditionKey) && m.post == t.encodePost(PostOf(q, d.modules, d.artifacts))
    && |d.plan.ids| == |d.plan.files| && m.actions == Assembly.Actions(t.codec.sha, d.plan.ids, ScriptFiles(d.plan.files))
    && IsPermutation(m.artifacts, Assembly.Specs(t.codec.sha, BundleFiles(d.artifacts)))
  }

  lemma AssembledSays(t: Tools, q: PrepareRequest, d: Draft)
    requires t.Valid() && Assembly.InputOk(InputOf(t, q, d))
    ensures Says(t, q, d, Assembly.AssembledBundle(t.codec, InputOf(t, q, d)).manifest)
  {
    var inp := InputOf(t, q, d);
    ManifestFields(t.codec, inp);
    ManifestArtifacts(t.codec, inp);
    hide Assembly.InputOk, Assembly.AssembledBundle, Preconditions, AllImages, SecretRefs, Validations, FindCompiled;
  }

  lemma SaidIsCarried(t: Tools, q: PrepareRequest, d: Draft, bytes: string, m: Assembly.Manifest)
    requires t.Valid() && Says(t, q, d, m) && forall a :: a in d.artifacts ==> a.sha == t.codec.sha(a.data)
    requires HoldsFiles(BundleVerify.FilesOf(t.codec, bytes), BundleFiles(d.artifacts) + ScriptFiles(d.plan.files))
    ensures Carries(t.codec.sha, q.plan, d.artifacts, d.plan, RunnerBundle(t, bytes, m))
  {
    hide BundleVerify.FilesOf, Preconditions;
    var files := BundleVerify.FilesOf(t.codec, bytes);
    FilesAreMembers(files, d.artifacts, d.plan.files);
    ScriptSpecs(t.codec.sha, d.plan);
    assert HoldsFiles(files, BundleFiles(d.artifacts));
    SpecsAreArtifacts(t.codec.sha, files, d.artifacts, m.artifacts);
  }

  lemma DeliveredCarries(t: Tools, q: PrepareRequest, m: Assembly.Manifest)
    requires t.Valid() && Delivered(t, q, m) && |DraftOf(t, q).value.plan.ids| == |DraftOf(t, q).value.plan.files|
    ensures var d := DraftOf(t, q).value; Carries(t.codec.sha, q.plan, d.artifacts, d.plan, BundleOf(t, q, m))
  {
    hide DraftOf, BundleVerify.RunnerAccepted, BundleVerify.Unreserved, Assembly.InputOk, Assembly.AssembledBundle, Carries, Says,
      HoldsFiles, RunnerBundle;
    var d := DraftOf(t, q).value;
    OwnManifest(t, q, m);
    DraftArtifacts(t, q);
    ModuleOrder.PreparedUnreserved(t, q);
    ArchiveHolds(t.codec, InputOf(t, q, d));
    AssembledSays(t, q, d);
    SaidIsCarried(t, q, d, PreparedBundle(t, q).value.bytes, m);
  }

  /** What runs on the target is the prepared operation: the steps of the plan, the generated artifacts with
      their bytes, the actions with their scripts, the preconditions and the expected post-state. */
  lemma DeliveredIsPrepared(t: Tools, q: PrepareRequest, m: Assembly.Manifest)
    requires t.Valid() && Delivered(t, q, m)
    ensures var d := DraftOf(t, q).value;
      IsPrepared(t.base, t.codec.sha, q.plan, ModulesOf(d.modules), d.artifacts, d.plan, BundleOf(t, q, m))
  {
    DraftPlans(t, q);
    DraftArtifacts(t, q);
    DeliveredCarries(t, q, m);
    hide DraftOf, GeneratedArtifacts, PlanOf, UpdateActions, Carries, PreparedBundle, DistinctPaths;
  }

  // ---------- From the request to the files of the target ----------

  /** A structural operation that was prepared, assembled and accepted by the runner, whatever the actions and
      the writes do: its steps stop at the first artifact that is blocked or cannot be written, with exactly the
      earlier ones applied; or at a failing action with all artifacts applied; or they end with every generated
      file on the target, and the runner's own post-state check passes. */
  lemma DeliveredRun(t: Tools, q: PrepareRequest, m: Assembly.Manifest, o: Outside, fs: Files)
    requires t.Valid() && Delivered(t, q, m) && q.plan.operation != Validate
    requires Sandboxed(o, DraftOf(t, q).value.artifacts)
    ensures var b, artifacts := BundleOf(t, q, m), DraftOf(t, q).value.artifacts;
      var st := After(StepsOf(t.codec.sha, b, o), b.steps, fs, |b.steps|);
      if st.Running? then AllDesired(t.codec.sha, fs, st.files, artifacts) && PostAccepts(t.codec.sha, st.files, b.post)
      else if st.at < |artifacts| then
        StoppedAt(t.codec.sha, fs, st.files, artifacts, st.at, ArtifactPre(b.preconditions), o.write(st.at))
      else st.error == ExitCode && AllDesired(t.codec.sha, fs, st.files, artifacts)
  {
    var d := DraftOf(t, q).value;
    hide DraftOf, Delivered, BundleOf, IsPrepared, Sandboxed, AllDesired, StoppedAt, PostAccepts;
    DeliveredIsPrepared(t, q, m);
    CompilerMeetsRunner(t.base, t.codec.sha, q.plan, ModulesOf(d.modules), d.artifacts, d.plan, BundleOf(t, q, m), o, fs);
  }

  /** The whole run of such a bundle: a structural operation succeeds exactly if it gets to its steps, none of
      them stops it and a due promotion works, and then every generated file is on the target; a validation
      changes no file and makes no claim. */
  lemma DeliveredOutcome(t: Tools, q: PrepareRequest, m: Assembly.Manifest, s: Surroundings, fs: Files, claims: map<string, string>)
    requires t.Valid() && Delivered(t, q, m) && Sandboxed(s.outside, DraftOf(t, q).value.artifacts)
    ensures var job, sha := JobOf(t, PreparedBundle(t, q).value.bytes, m), t.codec.sha;
      if q.plan.operation == Validate then
        FilesAfter(sha, job, s, fs, claims) == fs && forall run :: ClaimsAfter(sha, job, s, fs, claims, run) == claims
      else
        (ExitOf(sha, job, s, fs, claims) == SUCCESS <==>
         Enters(sha, job, s, fs, claims) && Steps(sha, job, s, fs).Running? && (s.promotes ==> s.promoted)) &&
        (ExitOf(sha, job, s, fs, claims) == SUCCESS ==>
         AllDesired(sha, fs, FilesAfter(sha, job, s, fs, claims), DraftOf(t, q).value.artifacts))
  {
    hide DraftOf, IsPrepared, Sandboxed, AllDesired, ExitOf, FilesAfter, ClaimsAfter, Enters, TargetRun.Steps, RunnerBundle,
      BundleVerify.RunnerAccepted, Assembly.InputOk, Assembly.AssembledBundle;
    var d, job := DraftOf(t, q).value, JobOf(t, PreparedBundle(t, q).value.bytes, m);
    DeliveredIsPrepared(t, q, m);
    if q.plan.operation == Validate {
      UntouchedFiles(t.base, t.codec.sha, q.plan, ModulesOf(d.modules), d.artifacts, d.plan, job, s, fs, claims);
    } else {
      PreparedSucceeds(t.base, t.codec.sha, q.plan, ModulesOf(d.modules), d.artifacts, d.plan, job, s, fs, claims);
    }
  }

  // ---------- Uninstallations ----------

  /** The plan looks up the same subject as the rest of the compiler. */
  lemma {:induction false} SameSubject(cs: seq<Compiled>, subject: string)
    ensures FindModule(ModulesOf(cs), subject) ==
      if FindCompiled(cs, subject).Some? then Some(ModuleOf(FindCompiled(cs, subject).value)) else None
    decreases |cs|
  {
    if cs != [] {
      SameSubject(cs[1..], subject);
      assert ModulesOf(cs)[1..] == ModulesOf(cs[1..]);
    }
  }

  /** The modules that stay do not need the removed one, which is the installed one and no desired one. */
  lemma UninstallDraft(t: Tools, q: PrepareRequest)
    requires t.Valid() && DraftOf(t, q).Some? && q.plan.operation == Uninstall
    ensures var d, o := DraftOf(t, q).value, FindObserved(q.plan.observed, q.plan.subject);
      && o.Some? && FindCompiled(d.modules, q.plan.subject).None?
      && (o.value.moduleId != "" ==> !Required(ModulesOf(d.modules), o.value.moduleId))
      && d.detached.Some? && Installed(o.value, d.detached.value.desired.source, d.detached.value.contract, d.detached.value.images)
  {
    hide CompiledModules, GeneratedArtifacts, PlanOf, UpdateActions, ValidRequest, ClaimsPass, LinkNets.DerivedLinks, Installed, Required;
  }

  /** The bundle of an uninstallation names the module that is installed, by version, package and hash; that
      module is not desired any more and no desired module depends on it; and the steps are those that
      apply the artifacts of the modules that stay. */
  lemma UninstallsInstalled(t: Tools, q: PrepareRequest)
    requires t.Valid() && PreparedBundle(t, q).Some? && q.plan.operation == Uninstall
    ensures var d, o := DraftOf(t, q).value, FindObserved(q.plan.observed, q.plan.subject);
      && o.Some? && (forall c :: c in d.modules ==> c.desired.instanceId != q.plan.subject)
      && (o.value.moduleId != "" ==> !Required(ModulesOf(d.modules), o.value.moduleId))
      && var m := PreparedBundle(t, q).value.manifest;
      && m.identity.subjectId == q.plan.subject && m.identity.version == o.value.version
      && m.identity.packageId == o.value.packageId && m.identity.packageSha == o.value.packageSha
      && m.steps == ApplySteps(Uninstall, d.artifacts)
  {
    UninstallDraft(t, q);
    DraftPlans(t, q);
    var d := DraftOf(t, q).value;
    ManifestFields(t.codec, InputOf(t, q, d));
    SameSubject(d.modules, q.plan.subject);
    PlanSteps(t.base, q.plan, ModulesOf(d.modules), d.artifacts, UpdateActions(q.plan, ModulesOf(d.modules)).value);
    hide DraftOf, PlanOf, GeneratedArtifacts, Assembly.InputOk, Assembly.AssembledBundle, Required, ModulesOf, AllImages, SecretRefs,
      Validations, Preconditions;
  }
}
