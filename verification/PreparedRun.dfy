/** The compiler meets the runner: what running the steps of a prepared operation does to the files
    of a target. */
module PreparedRun {
  import opened Prelude
  import opened Ordering
  import opened Modules
  import opened Members
  import opened Artifacts
  import opened Plan
  import opened Runner

  // ---------- The bundle of a prepared operation ----------

  function ActionSpecs(sha: string -> string, st: PlanState): (r: seq<ActionSpec>)
    requires |st.ids| == |st.files|
    ensures |r| == |st.ids| && forall i :: 0 <= i < |r| ==> r[i] == ActionSpec(st.ids[i], st.files[i].path, sha(st.files[i].data))
  {
    seq(|st.ids|, i requires 0 <= i < |st.ids| => ActionSpec(st.ids[i], st.files[i].path, sha(st.files[i].data)))
  }

  function BundleMembers(artifacts: seq<Artifact>, files: seq<ActionFile>): (r: seq<Member>)
    ensures |r| == |artifacts| + |files|
    ensures forall i :: 0 <= i < |artifacts| ==> r[i] == (artifacts[i].path, artifacts[i].data)
    ensures forall i :: 0 <= i < |files| ==> r[|artifacts| + i] == (files[i].path, files[i].data)
  {
    seq(|artifacts|, i requires 0 <= i < |artifacts| => (artifacts[i].path, artifacts[i].data)) +
    seq(|files|, i requires 0 <= i < |files| => (files[i].path, files[i].data))
  }

  ghost predicate HoldsMembers(files: map<string, string>, ms: seq<Member>) {
    forall i :: 0 <= i < |ms| ==> ms[i].0 in files && files[ms[i].0] == ms[i].1
  }

  /** The bundle says what was planned and holds its bytes, among other files. */
  ghost predicate Carries(sha: string -> string, req: Request, artifacts: seq<Artifact>, plan: PlanState, b: Bundle)
    requires |plan.ids| == |plan.files|
  {
    && b.validation == (req.operation == Validate) && b.targetId == req.targetId
    && b.preconditions == Sort(Preconditions(req), PreconditionKey) && IsPermutation(b.artifacts, artifacts)
    && b.actions == ActionSpecs(sha, plan) && b.steps == plan.steps && b.post == ExpectedPost(artifacts)
    && HoldsMembers(b.files, BundleMembers(artifacts, plan.files))
  }

  /** A bundle of an operation that passed planning and assembly. */
  ghost predicate IsPrepared(base: string -> string, sha: string -> string, req: Request, mods: seq<Module>,
                             artifacts: seq<Artifact>, plan: PlanState, b: Bundle) {
    && UpdateActions(req, mods).Ok?
    && PlanOf(base, req, mods, artifacts, UpdateActions(req, mods).value) == Ok(plan)
    && DistinctPaths(artifacts) && (forall a :: a in artifacts ==> a.sha == sha(a.data))
    && |plan.ids| == |plan.files| && Carries(sha, req, artifacts, plan, b)
  }

  // ---------- Lookups in the bundle ----------

  lemma {:induction false} ArtifactByPathHas(artifacts: seq<Artifact>, i: nat)
    requires DistinctPaths(artifacts) && i < |artifacts|
    ensures artifacts[i].path in ArtifactByPath(artifacts) && ArtifactByPath(artifacts)[artifacts[i].path] == artifacts[i]
    decreases |artifacts|
  {
    if i < |artifacts| - 1 {
      ArtifactByPathHas(artifacts[..|artifacts|-1], i);
    }
  }

  lemma ListedArtifactFound(listed: seq<Artifact>, artifacts: seq<Artifact>, a: Artifact)
    requires IsPermutation(listed, artifacts) && DistinctPaths(artifacts) && a in artifacts
    ensures a.path in ArtifactByPath(listed) && ArtifactByPath(listed)[a.path] == a
  {
    PermutationMembers(listed, artifacts);
    DistinctPathsReordered(artifacts, listed);
    var i :| 0 <= i < |listed| && listed[i] == a;
    ArtifactByPathHas(listed, i);
  }

  lemma {:induction false} ActionByIdHas(actions: seq<ActionSpec>, i: nat)
    requires i < |actions| && forall j, k :: 0 <= j < k < |actions| ==> actions[j].id != actions[k].id
    ensures actions[i].id in ActionById(actions) && ActionById(actions)[actions[i].id] == actions[i]
    decreases |actions|
  {
    if i < |actions| - 1 {
      ActionByIdHas(actions[..|actions|-1], i);
    }
  }

  /** The number of apply steps, which come first. */
  function Applies(req: Request, artifacts: seq<Artifact>): nat {
    if req.operation == Validate then 0 else |artifacts|
  }

  /** Step i applies exactly the artifact's bytes: no lookup can fail. */
  predicate AppliesAt(b: Bundle, a: Artifact, i: nat)
    requires i < |b.steps|
  {
    var step, specs := b.steps[i], ArtifactByPath(b.artifacts);
    && !b.validation && step.mutating && step.kind == ApplyArtifact && step.artifact == a.path
    && a.path in specs && specs[a.path] == a && a.path in b.files && b.files[a.path] == a.data
  }

  /** Step i runs a known action whose script is unaltered; a validation only runs read-only ones. */
  predicate RunsAt(sha: string -> string, b: Bundle, i: nat)
    requires i < |b.steps|
  {
    var step, actions := b.steps[i], ActionById(b.actions);
    && !(b.validation && step.mutating) && step.kind == RunAction && step.action in actions
    && actions[step.action].path in b.files && sha(b.files[actions[step.action].path]) == actions[step.action].sha
  }

  /** The plan in the bundle: apply the artifacts in order, then run actions. */
  ghost predicate FollowsPlan(sha: string -> string, b: Bundle, artifacts: seq<Artifact>, n: nat) {
    && n <= |b.steps| && n <= |artifacts|
    && (forall i :: 0 <= i < n ==> AppliesAt(b, artifacts[i], i))
    && (forall i :: n <= i < |b.steps| ==> RunsAt(sha, b, i))
  }

  lemma PreparedApplies(base: string -> string, sha: string -> string, req: Request, mods: seq<Module>,
                        artifacts: seq<Artifact>, plan: PlanState, b: Bundle, i: nat)
    requires IsPrepared(base, sha, req, mods, artifacts, plan, b) && i < Applies(req, artifacts)
    ensures i < |b.steps| && AppliesAt(b, artifacts[i], i)
  {
    PlanSteps(base, req, mods, artifacts, UpdateActions(req, mods).value);
    assert b.steps[i] == ApplyStep(artifacts[i].path);
    ListedArtifactFound(b.artifacts, artifacts, artifacts[i]);
    assert BundleMembers(artifacts, plan.files)[i] == (artifacts[i].path, artifacts[i].data);
  }

  lemma ActionFound(sha: string -> string, artifacts: seq<Artifact>, plan: PlanState, b: Bundle, k: nat)
    requires |plan.ids| == |plan.files| && Distinct(plan.ids) && k < |plan.ids|
    requires b.actions == ActionSpecs(sha, plan) && HoldsMembers(b.files, BundleMembers(artifacts, plan.files))
    ensures var actions := ActionById(b.actions);
      && plan.ids[k] in actions && actions[plan.ids[k]].path in b.files
      && sha(b.files[actions[plan.ids[k]].path]) == actions[plan.ids[k]].sha
  {
    ActionByIdHas(b.actions, k);
    assert BundleMembers(artifacts, plan.files)[|artifacts| + k] == (plan.files[k].path, plan.files[k].data);
  }

  lemma TailKinds(applies: seq<Step>, updates: seq<Step>, last: seq<Step>, i: nat)
    requires |applies| <= i < |applies + updates + last|
    requires forall s :: s in updates ==> s.kind == RunAction
    requires forall s :: s in last ==> s.kind == RunAction && !s.mutating
    ensures var s := (applies + updates + last)[i]; s.kind == RunAction && (updates == [] ==> !s.mutating)
  {
    var s := (applies + updates + last)[i];
    assert s in updates || s in last;
  }

  lemma LaterStepsAreActions(base: string -> string, req: Request, mods: seq<Module>, artifacts: seq<Artifact>,
                             updateActions: seq<string>, plan: PlanState, i: nat)
    requires PlanOf(base, req, mods, artifacts, updateActions) == Ok(plan)
    requires Applies(req, artifacts) <= i < |plan.steps|
    ensures plan.steps[i].kind == RunAction
    ensures updateActions == [] ==> !plan.steps[i].mutating
  {
    PlanSteps(base, req, mods, artifacts, updateActions);
    var last := match FindModule(mods, req.subject) case None => [] case Some(m) => [ActionStep(m.validationAction, false)];
    TailKinds(ApplySteps(req.operation, artifacts), ActionSteps(updateActions), last, i);
  }

  lemma PreparedRuns(base: string -> string, sha: string -> string, req: Request, mods: seq<Module>,
                     artifacts: seq<Artifact>, plan: PlanState, b: Bundle, i: nat)
    requires IsPrepared(base, sha, req, mods, artifacts, plan, b) && Applies(req, artifacts) <= i < |b.steps|
    ensures RunsAt(sha, b, i)
  {
    PlanSteps(base, req, mods, artifacts, UpdateActions(req, mods).value);
    LaterStepsAreActions(base, req, mods, artifacts, UpdateActions(req, mods).value, plan, i);
    var step := plan.steps[i];
    assert step in plan.steps;
    var k :| 0 <= k < |plan.ids| && plan.ids[k] == step.action;
    ActionFound(sha, artifacts, plan, b, k);
  }

  lemma PreparedFollowsPlan(base: string -> string, sha: string -> string, req: Request, mods: seq<Module>,
                            artifacts: seq<Artifact>, plan: PlanState, b: Bundle)
    requires IsPrepared(base, sha, req, mods, artifacts, plan, b)
    ensures FollowsPlan(sha, b, artifacts, Applies(req, artifacts))
  {
    PlanSteps(base, req, mods, artifacts, UpdateActions(req, mods).value);
    forall i | 0 <= i < Applies(req, artifacts) ensures AppliesAt(b, artifacts[i], i) {
      PreparedApplies(base, sha, req, mods, artifacts, plan, b, i);
    }
    forall i | Applies(req, artifacts) <= i < |b.steps| ensures RunsAt(sha, b, i) {
      PreparedRuns(base, sha, req, mods, artifacts, plan, b, i);
    }
  }

  function Exited(o: Outside, i: nat, mutating: bool, fs: Files): Applied {
    var result := o.exits(i, mutating, fs);
    if result.0 then Done(result.1) else Raised(result.1, ExitCode)
  }

  /** How the runner's step function acts on a bundle that follows a plan. */
  ghost predicate PlannedSteps(run: StepRunner, sha: string -> string, steps: seq<Step>, artifacts: seq<Artifact>, n: nat,
                               pre: map<string, string>, o: Outside) {
    && n <= |artifacts| && n <= |steps|
    && (forall i, fs :: 0 <= i < n ==> run(i, fs) == Apply(sha, fs, artifacts[i], artifacts[i].data, pre, o.write(i)))
    && (forall i, fs :: n <= i < |steps| ==> run(i, fs) == Exited(o, i, steps[i].mutating, fs))
  }

  lemma RunnerFollowsPlan(sha: string -> string, b: Bundle, artifacts: seq<Artifact>, n: nat, o: Outside)
    requires FollowsPlan(sha, b, artifacts, n)
    ensures PlannedSteps(StepsOf(sha, b, o), sha, b.steps, artifacts, n, ArtifactPre(b.preconditions), o)
  {
    var run, pre := StepsOf(sha, b, o), ArtifactPre(b.preconditions);
    forall i, fs | 0 <= i < n ensures run(i, fs) == Apply(sha, fs, artifacts[i], artifacts[i].data, pre, o.write(i)) {
      assert AppliesAt(b, artifacts[i], i);
    }
    forall i, fs | n <= i < |b.steps| ensures run(i, fs) == Exited(o, i, b.steps[i].mutating, fs) {
      assert RunsAt(sha, b, i);
    }
  }

  // ---------- Applying the artifacts ----------

  predicate SameAt(fs: Files, gs: Files, p: string) {
    (p in fs <==> p in gs) && (p in fs ==> fs[p] == gs[p])
  }

  /** The target is a regular file with the desired hash: the artifact's bytes, unless the file had
      that hash before and was left alone. */
  predicate Desired(sha: string -> string, before: Files, after: Files, a: Artifact) {
    && a.targetPath in after && after[a.targetPath].Regular? && sha(after[a.targetPath].data) == a.sha
    && (after[a.targetPath].data == a.data || SameAt(before, after, a.targetPath))
  }

  predicate IsTarget(artifacts: seq<Artifact>, p: string) {
    exists a :: a in artifacts && a.targetPath == p
  }

  ghost predicate OnlyTargets(before: Files, after: Files, artifacts: seq<Artifact>) {
    forall p :: !IsTarget(artifacts, p) ==> SameAt(before, after, p)
  }

  /** Exactly the given artifacts have been applied. */
  ghost predicate AppliedAll(sha: string -> string, before: Files, after: Files, artifacts: seq<Artifact>) {
    && OnlyTargets(before, after, artifacts)
    && forall a :: a in artifacts ==> Desired(sha, before, after, a)
  }

  /** What is written when a target neither blocks nor is already as desired. */
  predicate NeedsWrite(sha: string -> string, fs: Files, a: Artifact) {
    !(Exists(fs, a.targetPath) && fs[a.targetPath].Regular? && sha(fs[a.targetPath].data) == a.sha)
  }

  predicate Stops(sha: string -> string, fs: Files, a: Artifact, pre: map<string, string>, w: WriteOutcome) {
    Blocked(sha, fs, a, pre) || (NeedsWrite(sha, fs, a) && w != Written)
  }

  lemma ApplyResult(sha: string -> string, fs: Files, a: Artifact, pre: map<string, string>, w: WriteOutcome)
    requires a.sha == sha(a.data)
    ensures Apply(sha, fs, a, a.data, pre, w).Raised? <==> Stops(sha, fs, a, pre, w)
    ensures var after := Apply(sha, fs, a, a.data, pre, w).files;
      if Blocked(sha, fs, a, pre) || !NeedsWrite(sha, fs, a) || w == NotWritten then after == fs
      else after == fs[a.targetPath := Regular(a.data)]
  {
  }

  lemma AppliedOneMore(sha: string -> string, before: Files, fs: Files, artifacts: seq<Artifact>, a: Artifact, after: Files)
    requires AppliedAll(sha, before, fs, artifacts) && a.sha == sha(a.data)
    requires !IsTarget(artifacts, a.targetPath)
    requires if NeedsWrite(sha, fs, a) then after == fs[a.targetPath := Regular(a.data)] else after == fs
    ensures AppliedAll(sha, before, after, artifacts + [a])
  {
    var all := artifacts + [a];
    assert forall x :: x in all <==> x in artifacts || x == a;
    assert SameAt(before, fs, a.targetPath);
    forall p | !IsTarget(all, p) ensures SameAt(before, after, p) {
      assert a in all && p != a.targetPath;
      assert forall x :: x in artifacts ==> x in all;
      assert SameAt(before, fs, p);
    }
    forall x | x in artifacts ensures Desired(sha, before, after, x) {
      assert Desired(sha, before, fs, x);
    }
  }

  /** The run stopped at an artifact: all earlier ones are applied, nothing else is touched, except
      that a write that failed after its rename has already put the new bytes in place. */
  ghost predicate StoppedAt(sha: string -> string, before: Files, after: Files, artifacts: seq<Artifact>, at: nat,
                            pre: map<string, string>, w: WriteOutcome)
    requires at < |artifacts|
  {
    var a := artifacts[at];
    if w == WrittenThenFailed && AppliedAll(sha, before, after, artifacts[..at + 1]) then true
    else AppliedAll(sha, before, after, artifacts[..at]) && Stops(sha, after, a, pre, w)
  }

  lemma TargetsApart(artifacts: seq<Artifact>, k: nat)
    requires DistinctPaths(artifacts) && k < |artifacts|
    ensures !IsTarget(artifacts[..k], artifacts[k].targetPath)
    ensures artifacts[..k + 1] == artifacts[..k] + [artifacts[k]]
  {
  }

  /** One step of the apply phase. */
  lemma ApplyNext(sha: string -> string, artifacts: seq<Artifact>, pre: map<string, string>, w: WriteOutcome,
                  fs0: Files, fs: Files, k: nat)
    requires k < |artifacts| && DistinctPaths(artifacts) && artifacts[k].sha == sha(artifacts[k].data)
    requires AppliedAll(sha, fs0, fs, artifacts[..k])
    ensures var r := Apply(sha, fs, artifacts[k], artifacts[k].data, pre, w);
      if r.Done? then AppliedAll(sha, fs0, r.files, artifacts[..k + 1]) else StoppedAt(sha, fs0, r.files, artifacts, k, pre, w)
  {
    var a := artifacts[k];
    ApplyResult(sha, fs, a, pre, w);
    TargetsApart(artifacts, k);
    var r := Apply(sha, fs, a, a.data, pre, w);
    if r.Done? || (w == WrittenThenFailed && !Blocked(sha, fs, a, pre)) {
      AppliedOneMore(sha, fs0, fs, artifacts[..k], a, r.files);
    }
  }

  predicate StepKeeps(r: Applied, i: nat, inv: (nat, Files) -> bool, stop: (nat, Files, Reason) -> bool) {
    match r
    case Done(fs) => inv(i + 1, fs)
    case Raised(fs, e) => stop(i, fs, e)
  }

  ghost predicate Preserves(run: StepRunner, lo: nat, hi: nat, inv: (nat, Files) -> bool, stop: (nat, Files, Reason) -> bool) {
    forall i: nat, fs: Files :: lo <= i < hi && inv(i, fs) ==> StepKeeps(run(i, fs), i, inv, stop)
  }

  /** Induction over the steps of a run from one point to another. */
  lemma {:induction false} RunInvariant(run: StepRunner, steps: seq<Step>, fs0: Files, lo: nat, hi: nat,
                                        inv: (nat, Files) -> bool, stop: (nat, Files, Reason) -> bool)
    requires lo <= hi <= |steps| && After(run, steps, fs0, lo).Running? && inv(lo, After(run, steps, fs0, lo).files)
    requires Preserves(run, lo, hi, inv, stop)
    ensures var st := After(run, steps, fs0, hi);
      if st.Running? then inv(hi, st.files) else lo <= st.at < hi && stop(st.at, st.files, st.error)
    decreases hi
  {
    if lo < hi {
      assert Preserves(run, lo, hi - 1, inv, stop);
      RunInvariant(run, steps, fs0, lo, hi - 1, inv, stop);
      var st := After(run, steps, fs0, hi - 1);
      if st.Running? {
        assert inv(hi - 1, st.files);
      }
    }
  }

  /** The apply phase either has applied every artifact or stopped at one of them. */
  lemma ApplyPhase(run: StepRunner, steps: seq<Step>, sha: string -> string, artifacts: seq<Artifact>, n: nat,
                   pre: map<string, string>, o: Outside, fs0: Files)
    requires DistinctPaths(artifacts) && forall a :: a in artifacts ==> a.sha == sha(a.data)
    requires PlannedSteps(run, sha, steps, artifacts, n, pre, o)
    ensures var st := After(run, steps, fs0, n);
      if st.Running? then AppliedAll(sha, fs0, st.files, artifacts[..n])
      else st.at < n && StoppedAt(sha, fs0, st.files, artifacts, st.at, pre, o.write(st.at))
  {
    var inv := (k: nat, fs: Files) => k <= |artifacts| && AppliedAll(sha, fs0, fs, artifacts[..k]);
    var stop := (k: nat, fs: Files, e: Reason) => k < |artifacts| && StoppedAt(sha, fs0, fs, artifacts, k, pre, o.write(k));
    forall i: nat, fs | i < n && inv(i, fs)
      ensures StepKeeps(run(i, fs), i, inv, stop)
    {
      assert artifacts[i] in artifacts;
      ApplyNext(sha, artifacts, pre, o.write(i), fs0, fs, i);
    }
    assert Preserves(run, 0, n, inv, stop);
    RunInvariant(run, steps, fs0, 0, n, inv, stop);
  }

  // ---------- Running the actions ----------

  /** Actions run in a sandbox: they leave the artifact targets alone, and a read-only action leaves
      every file alone. */
  ghost predicate Sandboxed(o: Outside, artifacts: seq<Artifact>) {
    && (forall i, m, fs, a :: a in artifacts ==> SameAt(fs, o.exits(i, m, fs).1, a.targetPath))
    && (forall i, fs :: o.exits(i, false, fs).1 == fs)
  }

  ghost predicate AllDesired(sha: string -> string, before: Files, after: Files, artifacts: seq<Artifact>) {
    forall a :: a in artifacts ==> Desired(sha, before, after, a)
  }

  lemma DesiredStays(sha: string -> string, before: Files, fs: Files, after: Files, artifacts: seq<Artifact>)
    requires AllDesired(sha, before, fs, artifacts)
    requires forall a :: a in artifacts ==> SameAt(fs, after, a.targetPath)
    ensures AllDesired(sha, before, after, artifacts)
  {
    forall a | a in artifacts ensures Desired(sha, before, after, a) {
      assert Desired(sha, before, fs, a);
    }
  }

  lemma ActionPhase(run: StepRunner, steps: seq<Step>, sha: string -> string, artifacts: seq<Artifact>, n: nat,
                    pre: map<string, string>, o: Outside, fs0: Files)
    requires Sandboxed(o, artifacts) && PlannedSteps(run, sha, steps, artifacts, n, pre, o)
    requires After(run, steps, fs0, n).Running? && AllDesired(sha, fs0, After(run, steps, fs0, n).files, artifacts)
    ensures var st := After(run, steps, fs0, |steps|);
      AllDesired(sha, fs0, st.files, artifacts) && (st.Failed? ==> n <= st.at && st.error == ExitCode)
  {
    var inv := (k: nat, fs: Files) => AllDesired(sha, fs0, fs, artifacts);
    var stop := (k: nat, fs: Files, e: Reason) => e == ExitCode && AllDesired(sha, fs0, fs, artifacts);
    forall i: nat, fs | n <= i < |steps| && inv(i, fs)
      ensures StepKeeps(run(i, fs), i, inv, stop)
    {
      DesiredStays(sha, fs0, fs, run(i, fs).files, artifacts);
    }
    assert Preserves(run, n, |steps|, inv, stop);
    RunInvariant(run, steps, fs0, n, |steps|, inv, stop);
  }

  // ---------- The whole run ----------

  lemma DesiredPostAccepts(sha: string -> string, before: Files, after: Files, artifacts: seq<Artifact>)
    requires AllDesired(sha, before, after, artifacts) && DistinctPaths(artifacts)
    ensures PostAccepts(sha, after, ExpectedPost(artifacts))
  {
    ExpectedPostExact(artifacts);
    forall p | p in ExpectedPost(artifacts) ensures HasSha(sha, after, p, ExpectedPost(artifacts)[p]) {
      var a :| a in artifacts && a.targetPath == p && a.sha == ExpectedPost(artifacts)[p];
      assert Desired(sha, before, after, a);
    }
  }

  /** Running a prepared structural operation either stops at the first artifact that is blocked or
      cannot be written, with exactly the earlier ones applied; or stops at a failing action with all
      artifacts applied; or ends with every target as desired, so that the post-state is accepted. */
  lemma CompilerMeetsRunner(base: string -> string, sha: string -> string, req: Request, mods: seq<Module>,
                            artifacts: seq<Artifact>, plan: PlanState, b: Bundle, o: Outside, fs0: Files)
    requires IsPrepared(base, sha, req, mods, artifacts, plan, b) && req.operation != Validate
    requires Sandboxed(o, artifacts)
    ensures var st := After(StepsOf(sha, b, o), b.steps, fs0, |b.steps|);
      if st.Running? then AllDesired(sha, fs0, st.files, artifacts) && PostAccepts(sha, st.files, b.post)
      else if st.at < |artifacts| then StoppedAt(sha, fs0, st.files, artifacts, st.at, ArtifactPre(b.preconditions), o.write(st.at))
      else st.error == ExitCode && AllDesired(sha, fs0, st.files, artifacts)
  {
    PreparedFollowsPlan(base, sha, req, mods, artifacts, plan, b);
    RunnerFollowsPlan(sha, b, artifacts, |artifacts|, o);
    PlannedRun(StepsOf(sha, b, o), b.steps, sha, artifacts, ArtifactPre(b.preconditions), o, fs0);
  }

  lemma PlannedRun(run: StepRunner, steps: seq<Step>, sha: string -> string, artifacts: seq<Artifact>,
                   pre: map<string, string>, o: Outside, fs0: Files)
    requires DistinctPaths(artifacts) && forall a :: a in artifacts ==> a.sha == sha(a.data)
    requires PlannedSteps(run, sha, steps, artifacts, |artifacts|, pre, o) && Sandboxed(o, artifacts)
    ensures var st := After(run, steps, fs0, |steps|);
      if st.Running? then AllDesired(sha, fs0, st.files, artifacts) && PostAccepts(sha, st.files, ExpectedPost(artifacts))
      else if st.at < |artifacts| then StoppedAt(sha, fs0, st.files, artifacts, st.at, pre, o.write(st.at))
      else st.error == ExitCode && AllDesired(sha, fs0, st.files, artifacts)
  {
    var n := |artifacts|;
    ApplyPhase(run, steps, sha, artifacts, n, pre, o, fs0);
    assert artifacts[..n] == artifacts;
    if After(run, steps, fs0, n).Failed? {
      FailedStays(run, steps, fs0, n, |steps|);
    } else {
      ActionPhase(run, steps, sha, artifacts, n, pre, o, fs0);
      DesiredPostAccepts(sha, fs0, After(run, steps, fs0, |steps|).files, artifacts);
    }
  }

  /** The steps of a validation change no file, whether or not they succeed. */
  lemma ValidationChangesNothing(base: string -> string, sha: string -> string, req: Request, mods: seq<Module>,
                                 artifacts: seq<Artifact>, plan: PlanState, b: Bundle, o: Outside, fs0: Files)
    requires IsPrepared(base, sha, req, mods, artifacts, plan, b) && req.operation == Validate
    requires Sandboxed(o, artifacts)
    ensures After(StepsOf(sha, b, o), b.steps, fs0, |b.steps|).files == fs0
  {
    var run := StepsOf(sha, b, o);
    PreparedFollowsPlan(base, sha, req, mods, artifacts, plan, b);
    RunnerFollowsPlan(sha, b, artifacts, 0, o);
    var inv := (k: nat, fs: Files) => fs == fs0;
    var stop := (k: nat, fs: Files, e: Reason) => fs == fs0;
    forall i: nat, fs | i < |b.steps| && inv(i, fs) ensures StepKeeps(run(i, fs), i, inv, stop) {
      assert RunsAt(sha, b, i);
      assert run(i, fs) == Exited(o, i, false, fs);
    }
    assert Preserves(run, 0, |b.steps|, inv, stop);
    RunInvariant(run, b.steps, fs0, 0, |b.steps|, inv, stop);
  }

  // ---------- What can stop a run ----------

  lemma PreconditionsHeld(sha: string -> string, inv: Inventory, fs0: Files, req: Request, b: Bundle)
    requires b.preconditions == Sort(Preconditions(req), PreconditionKey)
    requires forall pre :: pre in Preconditions(req) ==> Met(sha, inv, req.targetId, fs0, pre)
    ensures forall p :: p in ArtifactPre(b.preconditions) ==> HasSha(sha, fs0, p, ArtifactPre(b.preconditions)[p])
  {
    SortSorts(Preconditions(req), PreconditionKey);
    PermutationMembers(b.preconditions, Preconditions(req));
    ArtifactPreActual(sha, inv, req.targetId, fs0, b.preconditions);
  }

  /** A plain file whose hash the dictionary lists does not block, whatever was applied before. */
  lemma ListedIsNotBlocked(sha: string -> string, fs0: Files, fs: Files, artifacts: seq<Artifact>, a: Artifact, pre: map<string, string>)
    requires OnlyTargets(fs0, fs, artifacts) && !IsTarget(artifacts, a.targetPath)
    requires a.targetPath in pre && pre[a.targetPath] != "" && HasSha(sha, fs0, a.targetPath, pre[a.targetPath])
    requires fs0[a.targetPath].Regular?
    ensures !Blocked(sha, fs, a, pre)
  {
    assert SameAt(fs0, fs, a.targetPath);
  }

  /** After the preconditions have passed, drift can only be met at a target that they do not list, or
      where a symbolic link stands in for the listed file. */
  lemma DriftIsUnlisted(base: string -> string, sha: string -> string, req: Request, mods: seq<Module>,
                        artifacts: seq<Artifact>, plan: PlanState, b: Bundle, o: Outside, inv: Inventory, fs0: Files)
    requires IsPrepared(base, sha, req, mods, artifacts, plan, b) && req.operation != Validate
    requires Sandboxed(o, artifacts) && forall x :: sha(x) != ""
    requires forall pre :: pre in Preconditions(req) ==> Met(sha, inv, req.targetId, fs0, pre)
    ensures var st := After(StepsOf(sha, b, o), b.steps, fs0, |b.steps|);
      st.Failed? && st.at < |artifacts| && o.write(st.at) == Written ==>
        var p := artifacts[st.at].targetPath;
        p !in ArtifactPre(b.preconditions) || (p in fs0 && fs0[p].SymLink?)
  {
    CompilerMeetsRunner(base, sha, req, mods, artifacts, plan, b, o, fs0);
    PreconditionsHeld(sha, inv, fs0, req, b);
    var st, pre := After(StepsOf(sha, b, o), b.steps, fs0, |b.steps|), ArtifactPre(b.preconditions);
    if st.Failed? && st.at < |artifacts| && o.write(st.at) == Written && artifacts[st.at].targetPath in pre {
      var a := artifacts[st.at];
      TargetsApart(artifacts, st.at);
      assert HasSha(sha, fs0, a.targetPath, pre[a.targetPath]);
      if fs0[a.targetPath].Regular? {
        ListedIsNotBlocked(sha, fs0, st.files, artifacts[..st.at], a, pre);
      }
    }
  }

  ghost predicate NoLinkTargets(fs: Files, artifacts: seq<Artifact>) {
    forall a :: a in artifacts && a.targetPath in fs ==> !fs[a.targetPath].SymLink?
  }

  lemma StopsLater(sha: string -> string, fs0: Files, fs: Files, artifacts: seq<Artifact>, k: nat, pre: map<string, string>, w: WriteOutcome)
    requires k < |artifacts| && DistinctPaths(artifacts) && NoLinkTargets(fs0, artifacts)
    requires AppliedAll(sha, fs0, fs, artifacts[..k])
    ensures Stops(sha, fs, artifacts[k], pre, w) == Stops(sha, fs0, artifacts[k], pre, w)
  {
    var p := artifacts[k].targetPath;
    TargetsApart(artifacts, k);
    assert artifacts[k] in artifacts && SameAt(fs0, fs, p);
    assert Exists(fs, p) == Exists(fs0, p);
  }

  /** No artifact before the given one would stop the run on the initial files. */
  ghost predicate NoneStops(sha: string -> string, fs0: Files, artifacts: seq<Artifact>, k: nat, pre: map<string, string>, o: Outside)
    requires k <= |artifacts|
  {
    forall i :: 0 <= i < k ==> !Stops(sha, fs0, artifacts[i], pre, o.write(i))
  }

  ghost predicate ApplyingUntil(sha: string -> string, fs0: Files, fs: Files, artifacts: seq<Artifact>, k: nat,
                                pre: map<string, string>, o: Outside) {
    k <= |artifacts| && AppliedAll(sha, fs0, fs, artifacts[..k]) && NoneStops(sha, fs0, artifacts, k, pre, o)
  }

  ghost predicate FirstStop(sha: string -> string, fs0: Files, artifacts: seq<Artifact>, k: nat, pre: map<string, string>, o: Outside) {
    k < |artifacts| && NoneStops(sha, fs0, artifacts, k, pre, o) && Stops(sha, fs0, artifacts[k], pre, o.write(k))
  }

  lemma ApplyOrStop(sha: string -> string, artifacts: seq<Artifact>, pre: map<string, string>, o: Outside, fs0: Files, fs: Files, k: nat)
    requires k < |artifacts| && DistinctPaths(artifacts) && artifacts[k].sha == sha(artifacts[k].data)
    requires NoLinkTargets(fs0, artifacts) && ApplyingUntil(sha, fs0, fs, artifacts, k, pre, o)
    ensures var r := Apply(sha, fs, artifacts[k], artifacts[k].data, pre, o.write(k));
      if r.Done? then ApplyingUntil(sha, fs0, r.files, artifacts, k + 1, pre, o) else FirstStop(sha, fs0, artifacts, k, pre, o)
  {
    ApplyNext(sha, artifacts, pre, o.write(k), fs0, fs, k);
    ApplyResult(sha, fs, artifacts[k], pre, o.write(k));
    StopsLater(sha, fs0, fs, artifacts, k, pre, o.write(k));
  }

  lemma PlannedStops(run: StepRunner, steps: seq<Step>, sha: string -> string, artifacts: seq<Artifact>,
                     pre: map<string, string>, o: Outside, fs0: Files)
    requires DistinctPaths(artifacts) && forall a :: a in artifacts ==> a.sha == sha(a.data)
    requires NoLinkTargets(fs0, artifacts) && PlannedSteps(run, sha, steps, artifacts, |artifacts|, pre, o)
    ensures var st := After(run, steps, fs0, |artifacts|);
      if st.Running? then NoneStops(sha, fs0, artifacts, |artifacts|, pre, o) else FirstStop(sha, fs0, artifacts, st.at, pre, o)
  {
    var n := |artifacts|;
    var inv := (k: nat, fs: Files) => ApplyingUntil(sha, fs0, fs, artifacts, k, pre, o);
    var stop := (k: nat, fs: Files, e: Reason) => FirstStop(sha, fs0, artifacts, k, pre, o);
    forall i: nat, fs | i < n && inv(i, fs) ensures StepKeeps(run(i, fs), i, inv, stop) {
      assert artifacts[i] in artifacts;
      ApplyOrStop(sha, artifacts, pre, o, fs0, fs, i);
    }
    assert Preserves(run, 0, n, inv, stop);
    RunInvariant(run, steps, fs0, 0, n, inv, stop);
  }

  /** Whether and where the apply phase stops can be read off the initial files: it stops exactly at
      the first artifact whose target blocks there, or needs a write that fails. */
  lemma {:induction false} StopsAtFirst(base: string -> string, sha: string -> string, req: Request, mods: seq<Module>,
                     artifacts: seq<Artifact>, plan: PlanState, b: Bundle, o: Outside, fs0: Files)
    requires IsPrepared(base, sha, req, mods, artifacts, plan, b) && req.operation != Validate
    requires NoLinkTargets(fs0, artifacts)
    ensures |artifacts| <= |b.steps|
    ensures var st, pre := After(StepsOf(sha, b, o), b.steps, fs0, |artifacts|), ArtifactPre(b.preconditions);
      if st.Running? then NoneStops(sha, fs0, artifacts, |artifacts|, pre, o) else FirstStop(sha, fs0, artifacts, st.at, pre, o)
  {
    PreparedFollowsPlan(base, sha, req, mods, artifacts, plan, b);
    RunnerFollowsPlan(sha, b, artifacts, |artifacts|, o);
    PlannedStops(StepsOf(sha, b, o), b.steps, sha, artifacts, ArtifactPre(b.preconditions), o, fs0);
  }

  // ---------- Generated artifacts ----------

  lemma GeneratedPlaces(c: Content, mods: seq<Module>, links: seq<Link>)
    ensures forall a :: a in GeneratedArtifacts(c, mods, links) ==> exists p :: a == Make(c, p)
  {
    var raw, places := RawArtifacts(c, mods, links), PlacesOf(Units(mods, links)) + FIXED_PLACES;
    SortSorts(raw, PathKey);
    PermutationMembers(GeneratedArtifacts(c, mods, links), raw);
    forall a | a in raw ensures exists p :: a == Make(c, p) {
      var i :| 0 <= i < |places| && raw[i] == a;
      assert a == Make(c, places[i]);
    }
  }

  lemma TargetsFollowPaths(c: Content, a: Artifact, b: Artifact)
    requires (exists p :: a == Make(c, p)) && (exists q :: b == Make(c, q)) && a.path != b.path
    ensures a.targetPath != b.targetPath
  {
    var p :| a == Make(c, p);
    var q :| b == Make(c, q);
    PlacesApart(p, q);
  }

  lemma GeneratedTargetsDistinct(c: Content, mods: seq<Module>, links: seq<Link>)
    requires var xs := GeneratedArtifacts(c, mods, links); forall i, j :: 0 <= i < j < |xs| ==> xs[i].path != xs[j].path
    ensures DistinctPaths(GeneratedArtifacts(c, mods, links))
    ensures forall a :: a in GeneratedArtifacts(c, mods, links) ==> a.sha == c.sha(a.data)
  {
    var xs := GeneratedArtifacts(c, mods, links);
    GeneratedPlaces(c, mods, links);
    forall i, j | 0 <= i < j < |xs| ensures xs[i].targetPath != xs[j].targetPath {
      assert xs[i] in xs && xs[j] in xs;
      TargetsFollowPaths(c, xs[i], xs[j]);
    }
  }
}
