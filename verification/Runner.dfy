/** What the target runner does with the files of a target: preconditions, artifact application
    with drift checks, the step loop and the post-state check
    (`internal/targetrunner/parts`, files 01.inc and 03.inc to 05.inc). */
module Runner {
  import opened Prelude
  import opened Artifacts
  import opened Plan

  // ---------- Files of the target ----------

  /** A path holds a regular file, something else such as a directory, or a symbolic link. */
  datatype Entry = Regular(data: string) | Special | SymLink(to: string)

  type Files = map<string, Entry>

  const MAX_LINKS := 40

  function Follow(fs: Files, p: string, links: nat): Option<Entry>
    decreases links
  {
    if p !in fs then None
    else if fs[p].SymLink? then (if links == 0 then None else Follow(fs, fs[p].to, links - 1))
    else Some(fs[p])
  }

  predicate Exists(fs: Files, p: string) { Follow(fs, p, MAX_LINKS).Some? }

  predicate IsFile(fs: Files, p: string) {
    Follow(fs, p, MAX_LINKS).Some? && Follow(fs, p, MAX_LINKS).value.Regular?
  }

  /** The path resolves to a regular file with the given hash. */
  predicate HasSha(sha: string -> string, fs: Files, p: string, digest: string) {
    IsFile(fs, p) && sha(Follow(fs, p, MAX_LINKS).value.data) == digest
  }

  // ---------- Preconditions ----------

  datatype Inventory = Inventory(versions: map<string, string>, packages: map<string, string>,
                                 coreSource: string, coreVersion: string)

  function Lookup(m: map<string, string>, k: string): string { if k in m then m[k] else "" }

  predicate Met(sha: string -> string, inv: Inventory, targetId: string, fs: Files, pre: Precondition) {
    if pre.kind == "target" then pre.subject == targetId && pre.expected == "same-target"
    else if pre.kind == "module-version" then Lookup(inv.versions, pre.subject) == pre.expected
    else if pre.kind == "module-package-sha256" then Lookup(inv.packages, pre.subject) == pre.expected
    else if pre.kind == "artifact-sha256" then HasSha(sha, fs, pre.subject, pre.expected)
    else if pre.kind == "core" then inv.coreSource == pre.expected || inv.coreVersion == pre.expected
    else false
  }

  method CheckPreconditions(sha: string -> string, inv: Inventory, targetId: string, fs: Files, pres: seq<Precondition>)
    returns (ok: bool)
    ensures ok <==> forall pre :: pre in pres ==> Met(sha, inv, targetId, fs, pre)
  {
    for i := 0 to |pres|
      invariant forall k :: 0 <= k < i ==> Met(sha, inv, targetId, fs, pres[k])
    {
      if !Met(sha, inv, targetId, fs, pres[i]) {
        return false;
      }
    }
    return true;
  }

  /** The dictionary from artifact path to expected old hash; a later entry replaces an earlier one. */
  function ArtifactPre(pres: seq<Precondition>): map<string, string> {
    if pres == [] then map[]
    else
      var last := pres[|pres|-1];
      var before := ArtifactPre(pres[..|pres|-1]);
      if last.kind == "artifact-sha256" then before[last.subject := last.expected] else before
  }

  /** Once the preconditions hold, the dictionary holds the actual hashes of the listed paths. */
  lemma {:induction false} ArtifactPreActual(sha: string -> string, inv: Inventory, targetId: string, fs: Files, pres: seq<Precondition>)
    requires forall pre :: pre in pres ==> Met(sha, inv, targetId, fs, pre)
    ensures forall p :: p in ArtifactPre(pres) ==> HasSha(sha, fs, p, ArtifactPre(pres)[p])
    ensures forall pre :: pre in pres && pre.kind == "artifact-sha256" ==> pre.subject in ArtifactPre(pres)
    decreases |pres|
  {
    if pres != [] {
      var before, last := pres[..|pres|-1], pres[|pres|-1];
      assert pres == before + [last];
      assert last in pres;
      ArtifactPreActual(sha, inv, targetId, fs, before);
    }
  }

  // ---------- One artifact ----------

  /** How an atomic write ends; it can still fail after the rename, when syncing the directory. */
  datatype WriteOutcome = Written | NotWritten | WrittenThenFailed

  datatype Reason = PayloadHash | NotRegular | Drift | WriteFailed | MutatingValidation | NotStructural
                  | UnknownArtifact | UnknownAction | ExitCode | UnsupportedStep

  datatype Applied = Done(files: Files) | Raised(files: Files, error: Reason)

  function Apply(sha: string -> string, fs: Files, a: Artifact, data: string, pre: map<string, string>, w: WriteOutcome): Applied {
    var p := a.targetPath;
    if sha(data) != a.sha then Raised(fs, PayloadHash)
    else if Exists(fs, p) && !fs[p].Regular? then Raised(fs, NotRegular)
    else if Exists(fs, p) && sha(fs[p].data) == a.sha then Done(fs)
    else if Exists(fs, p) && (Lookup(pre, p) == "" || sha(fs[p].data) != pre[p]) then
      Raised(fs, Drift)
    else match w
      case Written => Done(fs[p := Regular(data)])
      case NotWritten => Raised(fs, WriteFailed)
      case WrittenThenFailed => Raised(fs[p := Regular(data)], WriteFailed)
  }

  /** The target stops the mutation: not a plain file, or a file with contents that are neither
      desired nor those that the preconditions list. */
  predicate Blocked(sha: string -> string, fs: Files, a: Artifact, pre: map<string, string>) {
    Exists(fs, a.targetPath) && match fs[a.targetPath]
      case Regular(d) => sha(d) != a.sha && (Lookup(pre, a.targetPath) == "" || sha(d) != Lookup(pre, a.targetPath))
      case Special => true
      case SymLink(_) => true
  }

  // ---------- The run ----------

  /** The verified bundle as the runner sees it. */
  datatype Bundle = Bundle(validation: bool, targetId: string, preconditions: seq<Precondition>,
                           artifacts: seq<Artifact>, actions: seq<ActionSpec>, steps: seq<Step>,
                           post: map<string, string>, files: map<string, string>)

  /** What the outside decides during a run: how each write ends, and what each action exits with and
      does to the files. */
  datatype Outside = Outside(write: nat -> WriteOutcome, exits: (nat, bool, Files) -> (bool, Files))

  /** The dictionary from artifact path to artifact. */
  function ArtifactByPath(artifacts: seq<Artifact>): map<string, Artifact> {
    if artifacts == [] then map[]
    else var last := artifacts[|artifacts|-1]; ArtifactByPath(artifacts[..|artifacts|-1])[last.path := last]
  }

  function ActionById(actions: seq<ActionSpec>): map<string, ActionSpec> {
    if actions == [] then map[]
    else var last := actions[|actions|-1]; ActionById(actions[..|actions|-1])[last.id := last]
  }

  function RunStep(sha: string -> string, b: Bundle, o: Outside, fs: Files, i: nat): Applied
    requires i < |b.steps|
  {
    var step := b.steps[i];
    if b.validation && step.mutating then Raised(fs, MutatingValidation)
    else if step.kind == ApplyArtifact then
      if b.validation || !step.mutating then Raised(fs, NotStructural)
      else
        var specs := ArtifactByPath(b.artifacts);
        if step.artifact !in specs || step.artifact !in b.files then Raised(fs, UnknownArtifact)
        else Apply(sha, fs, specs[step.artifact], b.files[step.artifact], ArtifactPre(b.preconditions), o.write(i))
    else if step.kind == RunAction then
      var actions := ActionById(b.actions);
      if step.action !in actions then Raised(fs, UnknownAction)
      else
        var action := actions[step.action];
        if action.path !in b.files || sha(b.files[action.path]) != action.sha then Raised(fs, PayloadHash)
        else
          var (ok, after) := o.exits(i, step.mutating, fs);
          if ok then Done(after) else Raised(after, ExitCode)
    else Raised(fs, UnsupportedStep)
  }

  /** One entry of the proof's step list. */
  datatype Logged = Logged(id: string, ok: bool)

  datatype Progress = Running(files: Files, log: seq<Logged>) | Failed(at: nat, files: Files, log: seq<Logged>, error: Reason)

  type StepRunner = (nat, Files) -> Applied

  function Advance(run: StepRunner, steps: seq<Step>, st: Progress, i: nat): Progress
    requires i < |steps|
  {
    match st
    case Failed(_, _, _, _) => st
    case Running(fs, log) =>
      match run(i, fs)
      case Done(after) => Running(after, log + [Logged(steps[i].id, true)])
      case Raised(after, e) => Failed(i, after, log + [Logged(steps[i].id, false)], e)
  }

  /** Where a run is after its first n steps. */
  function After(run: StepRunner, steps: seq<Step>, fs: Files, n: nat): Progress
    requires n <= |steps|
  {
    if n == 0 then Running(fs, []) else Advance(run, steps, After(run, steps, fs, n - 1), n - 1)
  }

  function StepsOf(sha: string -> string, b: Bundle, o: Outside): StepRunner {
    (i: nat, fs: Files) => if i < |b.steps| then RunStep(sha, b, o, fs, i) else Done(fs)
  }

  predicate PostAccepts(sha: string -> string, fs: Files, post: map<string, string>) {
    forall p :: p in post ==> HasSha(sha, fs, p, post[p])
  }

  lemma {:induction false} FailedStays(run: StepRunner, steps: seq<Step>, fs: Files, k: nat, n: nat)
    requires k <= n <= |steps| && After(run, steps, fs, k).Failed?
    ensures After(run, steps, fs, n) == After(run, steps, fs, k)
    decreases n
  {
    if k < n {
      FailedStays(run, steps, fs, k, n - 1);
    }
  }

  function Ending(fs: Files, error: Option<Reason>): Applied {
    match error case None => Done(fs) case Some(e) => Raised(fs, e)
  }

  lemma AfterNext(run: StepRunner, steps: seq<Step>, fs0: Files, i: nat, fs: Files, log: seq<Logged>, after: Files, error: Option<Reason>)
    requires i < |steps| && After(run, steps, fs0, i) == Running(fs, log) && run(i, fs) == Ending(after, error)
    ensures var log' := log + [Logged(steps[i].id, error == None)];
      if error.None? then After(run, steps, fs0, i + 1) == Running(after, log')
      else After(run, steps, fs0, |steps|) == Failed(i, after, log', error.value)
  {
    if error.Some? {
      FailedStays(run, steps, fs0, i + 1, |steps|);
    }
  }

  /** The files of a target while a runner works on them, and the step list of its proof. */
  class Target {
    var files: Files
    var log: seq<Logged>

    constructor (initial: Files)
      ensures files == initial && log == []
    {
      files, log := initial, [];
    }

    method ApplyOne(sha: string -> string, a: Artifact, data: string, pre: map<string, string>, w: WriteOutcome)
      returns (error: Option<Reason>)
      modifies this`files
      ensures Apply(sha, old(files), a, data, pre, w) == Ending(files, error)
    {
      var p := a.targetPath;
      if sha(data) != a.sha {
        return Some(PayloadHash);
      }
      if Exists(files, p) {
        if !files[p].Regular? {
          return Some(NotRegular);
        }
        var actual := sha(files[p].data);
        if actual == a.sha {
          return None;
        }
        var expectedOld := Lookup(pre, p);
        if expectedOld == "" || actual != expectedOld {
          return Some(Drift);
        }
      }
      if w != NotWritten {
        files := files[p := Regular(data)];
      }
      error := if w == Written then None else Some(WriteFailed);
    }

    method ExecuteStep(sha: string -> string, b: Bundle, o: Outside, i: nat) returns (error: Option<Reason>)
      requires i < |b.steps|
      modifies this`files
      ensures StepsOf(sha, b, o)(i, old(files)) == Ending(files, error)
    {
      var step := b.steps[i];
      if b.validation && step.mutating {
        return Some(MutatingValidation);
      }
      if step.kind == ApplyArtifact {
        if b.validation || !step.mutating {
          return Some(NotStructural);
        }
        var specs := ArtifactByPath(b.artifacts);
        if step.artifact !in specs || step.artifact !in b.files {
          return Some(UnknownArtifact);
        }
        error := ApplyOne(sha, specs[step.artifact], b.files[step.artifact], ArtifactPre(b.preconditions), o.write(i));
      } else if step.kind == RunAction {
        var actions := ActionById(b.actions);
        if step.action !in actions {
          return Some(UnknownAction);
        }
        var action := actions[step.action];
        if action.path !in b.files || sha(b.files[action.path]) != action.sha {
          return Some(PayloadHash);
        }
        var (ok, after) := o.exits(i, step.mutating, files);
        files := after;
        error := if ok then None else Some(ExitCode);
      } else {
        error := Some(UnsupportedStep);
      }
    }

    /** The step loop: every attempted step is logged, and the first failing one ends the run. */
    method RunSteps(sha: string -> string, b: Bundle, o: Outside) returns (failed: Option<(nat, Reason)>)
      requires log == []
      modifies this
      ensures match After(StepsOf(sha, b, o), b.steps, old(files), |b.steps|)
        case Running(fs, l) => files == fs && log == l && failed == None
        case Failed(at, fs, l, e) => files == fs && log == l && failed == Some((at, e))
    {
      ghost var fs0, run := files, StepsOf(sha, b, o);
      for i := 0 to |b.steps|
        invariant After(run, b.steps, fs0, i) == Running(files, log)
      {
        ghost var before := files;
        var error := ExecuteStep(sha, b, o, i);
        AfterNext(run, b.steps, fs0, i, before, log, files, error);
        log := log + [Logged(b.steps[i].id, error == None)];
        if error.Some? {
          return Some((i, error.value));
        }
      }
      return None;
    }

    method PostState(sha: string -> string, post: map<string, string>) returns (ok: bool)
      ensures ok <==> PostAccepts(sha, files, post)
    {
      var todo := post.Keys;
      while todo != {}
        invariant todo <= post.Keys
        invariant forall p :: p in post && p !in todo ==> HasSha(sha, files, p, post[p])
        decreases |todo|
      {
        var p :| p in todo;
        if !HasSha(sha, files, p, post[p]) {
          return false;
        }
        todo := todo - {p};
      }
      return true;
    }
  }

  /** The proof lists the attempted steps in their order: all of them succeeded, except the one at
      which the run failed. */
  lemma {:induction false} LogFollowsSteps(run: StepRunner, steps: seq<Step>, fs: Files, n: nat)
    requires n <= |steps|
    ensures var st := After(run, steps, fs, n);
      && |st.log| == (if st.Failed? then st.at + 1 else n) <= n
      && forall i :: 0 <= i < |st.log| ==> st.log[i] == Logged(steps[i].id, !(st.Failed? && i == st.at))
    decreases n
  {
    if n > 0 {
      LogFollowsSteps(run, steps, fs, n - 1);
    }
  }

  // ---------- What one step can do ----------

  lemma {:induction false} ArtifactListed(artifacts: seq<Artifact>, p: string)
    requires p in ArtifactByPath(artifacts)
    ensures ArtifactByPath(artifacts)[p] in artifacts && ArtifactByPath(artifacts)[p].path == p
    decreases |artifacts|
  {
    if p != artifacts[|artifacts|-1].path {
      ArtifactListed(artifacts[..|artifacts|-1], p);
    }
  }

  lemma {:induction false} ActionListed(actions: seq<ActionSpec>, id: string)
    requires id in ActionById(actions)
    ensures ActionById(actions)[id] in actions && ActionById(actions)[id].id == id
    decreases |actions|
  {
    if id != actions[|actions|-1].id {
      ActionListed(actions[..|actions|-1], id);
    }
  }

  /** An artifact of the bundle with its declared bytes. */
  predicate Genuine(sha: string -> string, b: Bundle, a: Artifact) {
    a in b.artifacts && a.path in b.files && sha(b.files[a.path]) == a.sha
  }

  /** The one change that a step can make by itself: genuine bytes replace nothing, or a plain file with a
      listed hash. */
  predicate Replaces(sha: string -> string, b: Bundle, fs: Files, after: Files, a: Artifact) {
    && Genuine(sha, b, a) && after == fs[a.targetPath := Regular(b.files[a.path])]
    && (Exists(fs, a.targetPath) ==>
          fs[a.targetPath].Regular? && sha(fs[a.targetPath].data) == Lookup(ArtifactPre(b.preconditions), a.targetPath) != "")
  }

  predicate Lands(sha: string -> string, fs: Files, a: Artifact) {
    a.targetPath in fs && fs[a.targetPath].Regular? && sha(fs[a.targetPath].data) == a.sha
  }

  /** A step that changes files without running an action is a mutating step of a structural bundle and
      replaces the target of the artifact it names; once an apply step is done, that target is as desired. */
  lemma ApplyStepGuarded(sha: string -> string, b: Bundle, o: Outside, fs: Files, i: nat)
    requires i < |b.steps| && b.steps[i].kind != RunAction
    ensures var step, r := b.steps[i], RunStep(sha, b, o, fs, i);
      && (r.files != fs ==> !b.validation && step.mutating && step.kind == ApplyArtifact &&
                            exists a: Artifact :: a.path == step.artifact && Replaces(sha, b, fs, r.files, a))
      && (r.Done? ==> exists a: Artifact :: a.path == step.artifact && Genuine(sha, b, a) && Lands(sha, r.files, a))
  {
    var step := b.steps[i];
    if step.artifact in ArtifactByPath(b.artifacts) {
      ArtifactListed(b.artifacts, step.artifact);
      var a := ArtifactByPath(b.artifacts)[step.artifact];
      hide Exists, ArtifactPre, ArtifactByPath;
      var r := RunStep(sha, b, o, fs, i);
      assert r.files != fs ==> Replaces(sha, b, fs, r.files, a);
      assert r.Done? ==> Genuine(sha, b, a) && Lands(sha, r.files, a);
    }
  }

  /** An action step runs only a script that the bundle declares and holds unaltered, a validation only as a
      read-only one; nothing else changes, and the exit status of the script decides. */
  lemma ActionStepGuarded(sha: string -> string, b: Bundle, o: Outside, fs: Files, i: nat)
    requires i < |b.steps| && b.steps[i].kind == RunAction
    ensures var step, r := b.steps[i], RunStep(sha, b, o, fs, i); var (ok, after) := o.exits(i, step.mutating, fs);
      if !(b.validation && step.mutating) && (r.Done? || r.error == ExitCode)
      then (exists x: ActionSpec :: x in b.actions && x.id == step.action && x.path in b.files && sha(b.files[x.path]) == x.sha)
           && r.files == after && (r.Done? <==> ok)
      else r.files == fs && r.Raised? && r.error in {MutatingValidation, UnknownAction, PayloadHash}
  {
    var step := b.steps[i];
    if step.action in ActionById(b.actions) {
      ActionListed(b.actions, step.action);
    }
  }
}
