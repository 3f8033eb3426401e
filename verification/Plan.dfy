/** The ordered steps, preconditions and expected post-state of a prepared operation
    (`internal/deployment/plan.go`, `internal/deployment/state.go`). */
module Plan {
  import opened Prelude
  import opened Ordering
  import opened Modules
  import opened Artifacts

  datatype Operation = Install | Update | Reconfigure | Uninstall | Restore | Validate

  /** The step kinds "apply-artifact" and "action", and whatever else a manifest may name. */
  datatype StepKind = ApplyArtifact | RunAction | OtherKind(name: string)

  datatype Step = Step(id: string, kind: StepKind, artifact: string, action: string, mutating: bool)

  function ApplyStep(path: string): Step { Step("apply:" + path, ApplyArtifact, path, "", true) }

  function ActionStep(id: string, mutating: bool): Step { Step("action:" + id, RunAction, "", id, mutating) }

  datatype ActionSpec = ActionSpec(id: string, path: string, sha: string)

  datatype ActionFile = ActionFile(path: string, data: string)

  datatype Precondition = Precondition(kind: string, subject: string, expected: string)

  function PreconditionKey(p: Precondition): Key { [p.kind, p.subject, p.expected] }

  /** An observed module; the artifact hashes are listed in the order in which a map is iterated. */
  datatype ObservedModule = ObservedModule(instanceId: string, moduleId: string, packageId: string, version: string,
                                           packageSha: string, images: map<string, string>, artifacts: seq<(string, string)>)

  datatype Request = Request(operation: Operation, targetId: string, subject: string,
                             observed: seq<ObservedModule>, coreId: string)

  // ---------- Steps ----------

  function FindModule(mods: seq<Module>, subject: string): (r: Option<Module>)
    ensures r.Some? ==> r.value in mods && r.value.instanceId == subject
    ensures r.None? ==> forall m :: m in mods ==> m.instanceId != subject
  {
    if mods == [] then None
    else if mods[0].instanceId == subject then Some(mods[0])
    else FindModule(mods[1..], subject)
  }

  datatype PlanState = PlanState(steps: seq<Step>, files: seq<ActionFile>, ids: seq<string>)

  /** `path.Base` is a parameter. */
  function ActionPath(base: string -> string, subject: string, rel: string): string {
    "actions/" + subject + "/" + base(rel)
  }

  function FileOf(base: string -> string, subject: string, m: Module, id: string): ActionFile
    requires id in m.actions
  {
    ActionFile(ActionPath(base, subject, m.actions[id]), if id in m.actionFiles then m.actionFiles[id] else "")
  }

  function AppendAction(base: string -> string, subject: string, target: Option<Module>, st: PlanState,
                        id: string, mutating: bool): Result<PlanState> {
    if target.None? then Err("subject module action requested without desired subject")
    else if id !in target.value.actions then Err("unknown action")
    else
      var more := if id in st.ids then st
                  else st.(files := st.files + [FileOf(base, subject, target.value, id)], ids := st.ids + [id]);
      Ok(more.(steps := st.steps + [ActionStep(id, mutating)]))
  }

  function AppendUpdates(base: string -> string, subject: string, target: Option<Module>, st: PlanState,
                         ids: seq<string>): Result<PlanState> {
    if ids == [] then Ok(st)
    else match AppendUpdates(base, subject, target, st, ids[..|ids|-1])
      case Err(e) => Err(e)
      case Ok(st') => AppendAction(base, subject, target, st', ids[|ids|-1], true)
  }

  function ApplySteps(op: Operation, artifacts: seq<Artifact>): (r: seq<Step>)
    ensures |r| == (if op == Validate then 0 else |artifacts|)
    ensures forall i :: 0 <= i < |r| ==> r[i] == ApplyStep(artifacts[i].path)
  {
    if op == Validate then [] else seq(|artifacts|, i requires 0 <= i < |artifacts| => ApplyStep(artifacts[i].path))
  }

  function PlanOf(base: string -> string, req: Request, mods: seq<Module>, artifacts: seq<Artifact>,
                  updateActions: seq<string>): Result<PlanState> {
    var target := FindModule(mods, req.subject);
    match AppendUpdates(base, req.subject, target, PlanState(ApplySteps(req.operation, artifacts), [], []), updateActions)
    case Err(e) => Err(e)
    case Ok(st) =>
      if target.None? then Ok(st) else AppendAction(base, req.subject, target, st, target.value.validationAction, false)
  }

  lemma {:induction false} UpdatesErr(base: string -> string, subject: string, target: Option<Module>, st: PlanState,
                                      ids: seq<string>, k: nat)
    requires k <= |ids| && AppendUpdates(base, subject, target, st, ids[..k]).Err?
    ensures AppendUpdates(base, subject, target, st, ids) == AppendUpdates(base, subject, target, st, ids[..k])
    decreases |ids|
  {
    if k == |ids| {
      assert ids[..k] == ids;
    } else {
      assert ids[..|ids|-1][..k] == ids[..k];
      UpdatesErr(base, subject, target, st, ids[..|ids|-1], k);
    }
  }

  method BuildPlan(base: string -> string, req: Request, mods: seq<Module>, artifacts: seq<Artifact>,
                   updateActions: seq<string>) returns (r: Result<PlanState>)
    ensures r == PlanOf(base, req, mods, artifacts, updateActions)
  {
    var steps: seq<Step> := [];
    if req.operation != Validate {
      for i := 0 to |artifacts|
        invariant steps == ApplySteps(req.operation, artifacts[..i])
      {
        steps := steps + [ApplyStep(artifacts[i].path)];
      }
      assert artifacts[..|artifacts|] == artifacts;
    }
    assert steps == ApplySteps(req.operation, artifacts);
    var target := FindModule(mods, req.subject);
    var start := PlanState(steps, [], []);
    var st := start;
    for i := 0 to |updateActions|
      invariant AppendUpdates(base, req.subject, target, start, updateActions[..i]) == Ok(st)
    {
      assert updateActions[..i+1][..i] == updateActions[..i];
      var next := AppendAction(base, req.subject, target, st, updateActions[i], true);
      if next.Err? {
        UpdatesErr(base, req.subject, target, start, updateActions, i + 1);
        return next;
      }
      st := next.value;
    }
    assert updateActions[..|updateActions|] == updateActions;
    if target.None? {
      return Ok(st);
    }
    r := AppendAction(base, req.subject, target, st, target.value.validationAction, false);
  }

  function ObservedVersion(observed: seq<ObservedModule>, subject: string): string {
    if observed == [] then ""
    else if observed[0].instanceId == subject then observed[0].version
    else ObservedVersion(observed[1..], subject)
  }

  /** The actions of the direct transition from the installed version (`validateUpdate`). */
  function UpdateActions(req: Request, mods: seq<Module>): Result<seq<string>> {
    if req.operation != Update then Ok([])
    else match FindModule(mods, req.subject)
      case None => Err("update subject not in desired state")
      case Some(m) =>
        var installed := ObservedVersion(req.observed, req.subject);
        if installed == "" then Err("installed exact module version is unknown")
        else if installed !in m.updateFrom then Err("no direct update_from transition")
        else Ok(m.updateFrom[installed])
  }

  // ---------- What the plan consists of ----------

  function ActionSteps(ids: seq<string>): (r: seq<Step>)
    ensures |r| == |ids| && forall i :: 0 <= i < |r| ==> r[i] == ActionStep(ids[i], true)
  {
    seq(|ids|, i requires 0 <= i < |ids| => ActionStep(ids[i], true))
  }

  /** One file per action ID, and every action of the plan has one. */
  ghost predicate FilesMatch(base: string -> string, subject: string, target: Option<Module>, st: PlanState) {
    && |st.ids| == |st.files| && Distinct(st.ids)
    && (forall i :: 0 <= i < |st.ids| ==>
          target.Some? && st.ids[i] in target.value.actions && st.files[i] == FileOf(base, subject, target.value, st.ids[i]))
    && (forall s :: s in st.steps && s.kind == RunAction ==> s.action in st.ids)
  }

  lemma AppendActionMatches(base: string -> string, subject: string, target: Option<Module>, st: PlanState, id: string, mutating: bool)
    requires FilesMatch(base, subject, target, st)
    requires AppendAction(base, subject, target, st, id, mutating).Ok?
    ensures FilesMatch(base, subject, target, AppendAction(base, subject, target, st, id, mutating).value)
  {
    var st' := AppendAction(base, subject, target, st, id, mutating).value;
    forall s | s in st'.steps && s.kind == RunAction ensures s.action in st'.ids {
      if s in st.steps {
        assert s.action in st.ids;
      }
    }
  }

  lemma {:induction false} UpdatesOk(base: string -> string, subject: string, target: Option<Module>, st: PlanState, ids: seq<string>)
    ensures AppendUpdates(base, subject, target, st, ids).Ok? <==>
      ids == [] || (target.Some? && forall id :: id in ids ==> id in target.value.actions)
    decreases |ids|
  {
    if ids != [] {
      assert ids == ids[..|ids|-1] + [ids[|ids|-1]];
      UpdatesOk(base, subject, target, st, ids[..|ids|-1]);
    }
  }

  lemma {:induction false} UpdatesMatch(base: string -> string, subject: string, target: Option<Module>, st: PlanState, ids: seq<string>)
    requires FilesMatch(base, subject, target, st) && AppendUpdates(base, subject, target, st, ids).Ok?
    ensures FilesMatch(base, subject, target, AppendUpdates(base, subject, target, st, ids).value)
    decreases |ids|
  {
    hide FilesMatch, AppendAction;
    if ids != [] {
      var before, last := ids[..|ids|-1], ids[|ids|-1];
      UpdatesMatch(base, subject, target, st, before);
      AppendActionMatches(base, subject, target, AppendUpdates(base, subject, target, st, before).value, last, true);
    }
  }

  lemma {:induction false} UpdatesSteps(base: string -> string, subject: string, target: Option<Module>, st: PlanState, ids: seq<string>)
    requires AppendUpdates(base, subject, target, st, ids).Ok?
    ensures AppendUpdates(base, subject, target, st, ids).value.steps == st.steps + ActionSteps(ids)
    decreases |ids|
  {
    if ids != [] {
      var before, last := ids[..|ids|-1], ids[|ids|-1];
      UpdatesSteps(base, subject, target, st, before);
      assert ActionSteps(ids) == ActionSteps(before) + [ActionStep(last, true)];
    }
  }

  /** The plan applies the artifacts in order (never for a validation), then runs the update actions
      in their declared order, then the read-only validation action; it exists exactly when every
      action is known. */
  lemma PlanSteps(base: string -> string, req: Request, mods: seq<Module>, artifacts: seq<Artifact>, updateActions: seq<string>)
    ensures PlanOf(base, req, mods, artifacts, updateActions).Ok? <==>
      match FindModule(mods, req.subject)
      case None => updateActions == []
      case Some(m) => m.validationAction in m.actions && forall id :: id in updateActions ==> id in m.actions
    ensures PlanOf(base, req, mods, artifacts, updateActions).Ok? ==>
      var st := PlanOf(base, req, mods, artifacts, updateActions).value;
      && FilesMatch(base, req.subject, FindModule(mods, req.subject), st)
      && st.steps == ApplySteps(req.operation, artifacts) + ActionSteps(updateActions) +
         (match FindModule(mods, req.subject) case None => [] case Some(m) => [ActionStep(m.validationAction, false)])
  {
    var target := FindModule(mods, req.subject);
    var start := PlanState(ApplySteps(req.operation, artifacts), [], []);
    UpdatesOk(base, req.subject, target, start, updateActions);
    var updated := AppendUpdates(base, req.subject, target, start, updateActions);
    if updated.Ok? {
      UpdatesMatch(base, req.subject, target, start, updateActions);
      UpdatesSteps(base, req.subject, target, start, updateActions);
    }
    if target.Some? && updated.Ok? {
      var last := AppendAction(base, req.subject, target, updated.value, target.value.validationAction, false);
      if last.Ok? {
        AppendActionMatches(base, req.subject, target, updated.value, target.value.validationAction, false);
      }
    }
  }

  // ---------- Preconditions and expected post-state ----------

  function ArtifactPreconditions(hashes: seq<(string, string)>): seq<Precondition> {
    seq(|hashes|, i requires 0 <= i < |hashes| => Precondition("artifact-sha256", hashes[i].0, hashes[i].1))
  }

  function ModulePreconditions(o: ObservedModule): seq<Precondition> {
    [Precondition("module-version", o.instanceId, o.version), Precondition("module-package-sha256", o.instanceId, o.packageSha)]
    + ArtifactPreconditions(o.artifacts)
  }

  function ObservedPreconditions(observed: seq<ObservedModule>): seq<Precondition> {
    if observed == [] then []
    else ObservedPreconditions(observed[..|observed|-1]) + ModulePreconditions(observed[|observed|-1])
  }

  function Preconditions(req: Request): seq<Precondition> {
    [Precondition("target", req.targetId, "same-target")] + ObservedPreconditions(req.observed) +
    (if req.coreId != "" then [Precondition("core", "core", req.coreId)] else [])
  }

  method CollectPreconditions(req: Request) returns (out: seq<Precondition>)
    ensures out == Preconditions(req)
  {
    out := [Precondition("target", req.targetId, "same-target")];
    for i := 0 to |req.observed|
      invariant out == [Precondition("target", req.targetId, "same-target")] + ObservedPreconditions(req.observed[..i])
    {
      assert req.observed[..i+1][..i] == req.observed[..i];
      out := out + ModulePreconditions(req.observed[i]);
    }
    assert req.observed[..|req.observed|] == req.observed;
    if req.coreId != "" {
      out := out + [Precondition("core", "core", req.coreId)];
    }
  }

  function ExpectedPost(artifacts: seq<Artifact>): map<string, string> {
    if artifacts == [] then map[]
    else var last := artifacts[|artifacts|-1]; ExpectedPost(artifacts[..|artifacts|-1])[last.targetPath := last.sha]
  }

  method BuildExpectedPost(artifacts: seq<Artifact>) returns (post: map<string, string>)
    ensures post == ExpectedPost(artifacts)
  {
    post := map[];
    for i := 0 to |artifacts|
      invariant post == ExpectedPost(artifacts[..i])
    {
      assert artifacts[..i+1][..i] == artifacts[..i];
      post := post[artifacts[i].targetPath := artifacts[i].sha];
    }
    assert artifacts[..|artifacts|] == artifacts;
  }

  /** Every expected path is an artifact target with its hash. */
  lemma {:induction false} ExpectedIsTarget(artifacts: seq<Artifact>, p: string)
    requires p in ExpectedPost(artifacts)
    ensures exists a :: a in artifacts && a.targetPath == p && a.sha == ExpectedPost(artifacts)[p]
    decreases |artifacts|
  {
    var before, last := artifacts[..|artifacts|-1], artifacts[|artifacts|-1];
    if p == last.targetPath {
      assert last in artifacts;
    } else {
      assert p in ExpectedPost(before);
      ExpectedIsTarget(before, p);
      var a :| a in before && a.targetPath == p && a.sha == ExpectedPost(before)[p];
      assert a in artifacts;
    }
  }

  /** No target is forgotten. */
  lemma {:induction false} TargetIsExpected(artifacts: seq<Artifact>, i: nat)
    requires DistinctPaths(artifacts) && i < |artifacts|
    ensures artifacts[i].targetPath in ExpectedPost(artifacts) && ExpectedPost(artifacts)[artifacts[i].targetPath] == artifacts[i].sha
    decreases |artifacts|
  {
    var last := |artifacts| - 1;
    if i < last {
      TargetIsExpected(artifacts[..last], i);
      assert artifacts[..last][i] == artifacts[i] && artifacts[i].targetPath != artifacts[last].targetPath;
    }
  }

  /** The expected post-state says of every path exactly what the artifact with that target says. */
  lemma {:induction false} ExpectedPostExact(artifacts: seq<Artifact>)
    requires DistinctPaths(artifacts)
    ensures forall p :: p in ExpectedPost(artifacts) ==>
      exists a :: a in artifacts && a.targetPath == p && a.sha == ExpectedPost(artifacts)[p]
    ensures forall a :: a in artifacts ==> a.targetPath in ExpectedPost(artifacts) && ExpectedPost(artifacts)[a.targetPath] == a.sha
  {
    forall p | p in ExpectedPost(artifacts) ensures exists a :: a in artifacts && a.targetPath == p && a.sha == ExpectedPost(artifacts)[p] {
      ExpectedIsTarget(artifacts, p);
    }
    forall a | a in artifacts ensures a.targetPath in ExpectedPost(artifacts) && ExpectedPost(artifacts)[a.targetPath] == a.sha {
      var i :| 0 <= i < |artifacts| && artifacts[i] == a;
      TargetIsExpected(artifacts, i);
    }
  }
}
