/** One whole run on a target, from the lock to the exit code (`execute` in
    `internal/targetrunner/parts`, files 03.inc to 05.inc). */
module TargetRun {
  import opened Prelude
  import opened Modules
  import opened Artifacts
  import opened Plan
  import opened Runner
  import opened PreparedRun

  datatype ProofStatus = Succeeded | Unsuccessful

  datatype Phase = LockPhase | DuplicatePhase | FailedPhase | FinishedPhase

  /** The proof as a run leaves it. */
  datatype ProofFile = ProofFile(bundle: string, status: ProofStatus, phase: Phase, steps: seq<Logged>)

  /** What is on the history root of the run: claims by bundle, with the run that owns each, and proofs
      by run. */
  class History {
    var claims: map<string, string>
    var proofs: map<string, ProofFile>

    constructor ()
      ensures claims == map[] && proofs == map[]
    {
      claims, proofs := map[], map[];
    }
  }

  /** The surroundings of a run: whether its lock is free, what is installed, whether the FIFO can be
      made, what arrives through it (None for a malformed stream), whether the secrets can be written,
      whether the history has to be promoted and can be, and what happens during the steps. */
  datatype Surroundings = Surroundings(lockFree: bool, inventory: Inventory, fifo: bool, delivered: Option<map<string, string>>,
                                       materialized: bool, promotes: bool, promoted: bool, outside: Outside)

  /** The bundle of a run with its ID and the secrets that its manifest references. */
  datatype Job = Job(id: string, bundle: Bundle, secrets: set<string>)

  const SUCCESS := 0
  const FAILURE := 1
  const LOCK_BUSY := 75
  const ALREADY_STARTED := 76

  ghost predicate Passes(sha: string -> string, job: Job, s: Surroundings, fs: Files) {
    s.lockFree && forall pre :: pre in job.bundle.preconditions ==> Met(sha, s.inventory, job.bundle.targetId, fs, pre)
  }

  predicate Duplicate(job: Job, claims: map<string, string>) { !job.bundle.validation && job.id in claims }

  predicate HasSecrets(job: Job, s: Surroundings) {
    s.fifo && s.delivered.Some? && s.delivered.value.Keys == job.secrets && s.materialized
  }

  /** Lock, preconditions, claim and secrets are all there: the steps are run. */
  ghost predicate Enters(sha: string -> string, job: Job, s: Surroundings, fs: Files, claims: map<string, string>) {
    Passes(sha, job, s, fs) && !Duplicate(job, claims) && HasSecrets(job, s)
  }

  function Steps(sha: string -> string, job: Job, s: Surroundings, fs: Files): Progress {
    After(StepsOf(sha, job.bundle, s.outside), job.bundle.steps, fs, |job.bundle.steps|)
  }

  ghost predicate Succeeds(sha: string -> string, job: Job, s: Surroundings, fs: Files, claims: map<string, string>) {
    && Enters(sha, job, s, fs, claims) && Steps(sha, job, s, fs).Running?
    && PostAccepts(sha, Steps(sha, job, s, fs).files, job.bundle.post) && (s.promotes ==> s.promoted)
  }

  ghost function ExitOf(sha: string -> string, job: Job, s: Surroundings, fs: Files, claims: map<string, string>): int {
    if !s.lockFree then LOCK_BUSY
    else if Passes(sha, job, s, fs) && Duplicate(job, claims) then ALREADY_STARTED
    else if Succeeds(sha, job, s, fs, claims) then SUCCESS
    else FAILURE
  }

  ghost function FilesAfter(sha: string -> string, job: Job, s: Surroundings, fs: Files, claims: map<string, string>): Files {
    if Enters(sha, job, s, fs, claims) then Steps(sha, job, s, fs).files else fs
  }

  ghost function ClaimsAfter(sha: string -> string, job: Job, s: Surroundings, fs: Files, claims: map<string, string>, run: string):
    map<string, string>
  {
    if Passes(sha, job, s, fs) && !job.bundle.validation && job.id !in claims then claims[job.id := run] else claims
  }

  function PhaseOf(code: int): Phase {
    if code == SUCCESS then FinishedPhase else if code == LOCK_BUSY then LockPhase
    else if code == ALREADY_STARTED then DuplicatePhase else FailedPhase
  }

  method RunPhases(target: Target, history: History, sha: string -> string, job: Job, run: string, s: Surroundings) returns (code: int)
    requires target.log == []
    modifies target, history`claims
    ensures code == ExitOf(sha, job, s, old(target.files), old(history.claims))
    ensures target.files == FilesAfter(sha, job, s, old(target.files), old(history.claims))
    ensures history.claims == ClaimsAfter(sha, job, s, old(target.files), old(history.claims), run)
    ensures target.log == if Enters(sha, job, s, old(target.files), old(history.claims)) then Steps(sha, job, s, old(target.files)).log else []
  {
    if !s.lockFree {
      return LOCK_BUSY;
    }
    var met := CheckPreconditions(sha, s.inventory, job.bundle.targetId, target.files, job.bundle.preconditions);
    if !met {
      return FAILURE;
    }
    if !job.bundle.validation {
      if job.id in history.claims {
        return ALREADY_STARTED;
      }
      history.claims := history.claims[job.id := run];
    }
    if !s.fifo || s.delivered.None? || s.delivered.value.Keys != job.secrets || !s.materialized {
      return FAILURE;
    }
    var failed := target.RunSteps(sha, job.bundle, s.outside);
    if failed.Some? {
      return FAILURE;
    }
    var accepted := target.PostState(sha, job.bundle.post);
    if !accepted || (s.promotes && !s.promoted) {
      return FAILURE;
    }
    return SUCCESS;
  }

  /** Files change only after the lock, the preconditions, the claim and the secrets; a claim is made only
      after the lock and the preconditions and is never taken over; and the proof tells the exit code and
      exactly the steps that were attempted. */
  method Execute(target: Target, history: History, sha: string -> string, job: Job, run: string, s: Surroundings) returns (code: int)
    requires target.log == []
    modifies target, history
    ensures code == ExitOf(sha, job, s, old(target.files), old(history.claims))
    ensures target.files == FilesAfter(sha, job, s, old(target.files), old(history.claims))
    ensures history.claims == ClaimsAfter(sha, job, s, old(target.files), old(history.claims), run)
    ensures history.proofs == old(history.proofs)[run := ProofFile(job.id, if code == SUCCESS then Succeeded else Unsuccessful,
                                                                   PhaseOf(code), target.log)]
    ensures target.log == if Enters(sha, job, s, old(target.files), old(history.claims)) then Steps(sha, job, s, old(target.files)).log else []
  {
    code := RunPhases(target, history, sha, job, run, s);
    history.proofs := history.proofs[run := ProofFile(job.id, if code == SUCCESS then Succeeded else Unsuccessful,
                                                      PhaseOf(code), target.log)];
  }

  // ---------- Prepared operations ----------

  /** A prepared structural operation ends successfully exactly if it gets to its steps, none of them
      stops it and a due promotion works; the post-state check never refuses what the steps leave. Then
      every target is as desired. */
  lemma PreparedSucceeds(base: string -> string, sha: string -> string, req: Request, mods: seq<Module>, artifacts: seq<Artifact>,
                         plan: PlanState, job: Job, s: Surroundings, fs: Files, claims: map<string, string>)
    requires IsPrepared(base, sha, req, mods, artifacts, plan, job.bundle) && req.operation != Validate
    requires Sandboxed(s.outside, artifacts)
    ensures ExitOf(sha, job, s, fs, claims) == SUCCESS <==>
      Enters(sha, job, s, fs, claims) && Steps(sha, job, s, fs).Running? && (s.promotes ==> s.promoted)
    ensures ExitOf(sha, job, s, fs, claims) == SUCCESS ==> AllDesired(sha, fs, FilesAfter(sha, job, s, fs, claims), artifacts)
  {
    hide IsPrepared, Sandboxed, AllDesired, PostAccepts;
    CompilerMeetsRunner(base, sha, req, mods, artifacts, plan, job.bundle, s.outside, fs);
  }

  /** A run that ends with anything but success or a failure of its steps has changed no file, and neither
      has any run of a validation. */
  lemma UntouchedFiles(base: string -> string, sha: string -> string, req: Request, mods: seq<Module>, artifacts: seq<Artifact>,
                       plan: PlanState, job: Job, s: Surroundings, fs: Files, claims: map<string, string>)
    requires IsPrepared(base, sha, req, mods, artifacts, plan, job.bundle) && Sandboxed(s.outside, artifacts)
    ensures req.operation == Validate ==>
      FilesAfter(sha, job, s, fs, claims) == fs && forall run :: ClaimsAfter(sha, job, s, fs, claims, run) == claims
    ensures ExitOf(sha, job, s, fs, claims) in {LOCK_BUSY, ALREADY_STARTED} ==> FilesAfter(sha, job, s, fs, claims) == fs
  {
    if req.operation == Validate {
      ValidationChangesNothing(base, sha, req, mods, artifacts, plan, job.bundle, s.outside, fs);
    }
  }

  /** Once a structural run has got past its claim, every later run of the same bundle on this root, under
      whatever surroundings, leaves the files alone and the claim with its first owner. */
  lemma ClaimedOnce(sha: string -> string, job: Job, s: Surroundings, fs: Files, claims: map<string, string>, run: string,
                    later: Surroundings, laterFiles: Files, laterRun: string)
    requires !job.bundle.validation && Enters(sha, job, s, fs, claims)
    ensures var after := ClaimsAfter(sha, job, s, fs, claims, run);
      && after[job.id] == run && FilesAfter(sha, job, later, laterFiles, after) == laterFiles
      && ExitOf(sha, job, later, laterFiles, after) != SUCCESS && ClaimsAfter(sha, job, later, laterFiles, after, laterRun) == after
  {
  }
}
