/** Any number of runner processes on the two history roots of one target, with a crash allowed at
    any moment (`execute` and `promote_first_core` in `internal/targetrunner/parts`, files 03.inc to
    05.inc). */
module RunnerProtocol {
  import opened Prelude

  datatype Root = Bootstrap | Core

  type RunId = nat

  type BundleId = nat

  /** What a bundle's manifest says: a validation is read-only, and a run of a core bundle on the
      bootstrap root promotes the history to the core root. Bundle IDs are content-derived. */
  datatype Manifests = Manifests(validation: BundleId -> bool, core: BundleId -> bool)

  /** Where a runner is. It holds the lock of its root from `Holding` up to `Switched`. */
  datatype PC = Rooted | Holding | Checked | Claimed | Awaiting | Stepping | Posted
              | BundleCopied | ProofCopied | ClaimCopied | Marked | Switched | Ended

  function Rank(pc: PC): nat {
    match pc
    case Rooted => 0 case Holding => 1 case Checked => 2 case Claimed => 3 case Awaiting => 4 case Stepping => 5
    case Posted => 6 case BundleCopied => 7 case ProofCopied => 8 case ClaimCopied => 9 case Marked => 10 case Switched => 11 case Ended => 12
  }

  predicate Locked(pc: PC) { 1 <= Rank(pc) <= 11 }

  /** A runner; the last four fields only record that it passed the preconditions, created its claim,
      entered its steps, and had its post-state accepted. */
  datatype Run = Run(bundle: BundleId, root: Root, pc: PC, checked: bool, passed: bool, entered: bool, posted: bool)

  datatype Status = Running | Failed | Success

  /** The runners so far, who holds which kind of `flock` on the lock file of which root, the claims,
      the marker of the core root, the proofs, and (for the record) the bundle promoted first. */
  datatype State = State(runs: map<RunId, Run>, exclusive: set<(Root, RunId)>, shared: set<(Root, RunId)>,
                         claims: set<(Root, BundleId)>, marker: bool, proofs: map<(Root, RunId), Status>,
                         first: Option<BundleId>)

  const INITIAL := State(map[], {}, {}, {}, false, map[], None)

  datatype Event =
    | Start(run: RunId, bundle: BundleId)
    | TakeLock(run: RunId)
    | LockBusy(run: RunId)
    | PassPreconditions(run: RunId)
    | CreateClaim(run: RunId)
    | AlreadyClaimed(run: RunId)
    | AwaitSecrets(run: RunId)
    | EnterSteps(run: RunId)
    | AcceptPost(run: RunId)
    | CopyBundle(run: RunId)
    | CopyProof(run: RunId)
    | CopyClaim(run: RunId)
    | WriteMarker(run: RunId)
    | SwitchProof(run: RunId)
    | Finish(run: RunId)
    | Fail(run: RunId)
    | Crash(run: RunId)

  function RootNow(s: State): Root { if s.marker then Core else Bootstrap }

  predicate At(s: State, r: RunId, pc: PC) { r in s.runs && s.runs[r].pc == pc }

  predicate Structural(m: Manifests, b: BundleId) { !m.validation(b) }

  predicate Busy(holders: set<(Root, RunId)>, root: Root) { exists h :: h in holders && h.0 == root }

  /** A non-blocking shared or exclusive lock can be had now. */
  predicate LockFree(m: Manifests, s: State, root: Root, b: BundleId) {
    !Busy(s.exclusive, root) && (Structural(m, b) ==> !Busy(s.shared, root))
  }

  /** A core bundle that runs on the bootstrap root has to promote the history before it ends. */
  predicate Promotes(m: Manifests, run: Run) { run.root == Bootstrap && m.core(run.bundle) }

  predicate Enabled(m: Manifests, s: State, e: Event) {
    var r := e.run;
    match e
    case Start(_, _) => r !in s.runs
    case TakeLock(_) => At(s, r, Rooted) && LockFree(m, s, s.runs[r].root, s.runs[r].bundle)
    case LockBusy(_) => At(s, r, Rooted) && !LockFree(m, s, s.runs[r].root, s.runs[r].bundle)
    case PassPreconditions(_) => At(s, r, Holding)
    case CreateClaim(_) =>
      At(s, r, Checked) && Structural(m, s.runs[r].bundle) && (s.runs[r].root, s.runs[r].bundle) !in s.claims
    case AlreadyClaimed(_) =>
      At(s, r, Checked) && Structural(m, s.runs[r].bundle) && (s.runs[r].root, s.runs[r].bundle) in s.claims
    case AwaitSecrets(_) => At(s, r, if r in s.runs && Structural(m, s.runs[r].bundle) then Claimed else Checked)
    case EnterSteps(_) => At(s, r, Awaiting)
    case AcceptPost(_) => At(s, r, Stepping)
    case CopyBundle(_) => At(s, r, Posted) && Promotes(m, s.runs[r])
    case CopyProof(_) => At(s, r, BundleCopied)
    case CopyClaim(_) => At(s, r, ProofCopied)
    case WriteMarker(_) => At(s, r, ClaimCopied)
    case SwitchProof(_) => At(s, r, Marked)
    case Finish(_) => r in s.runs && s.runs[r].pc == (if Promotes(m, s.runs[r]) then Switched else Posted)
    case Fail(_) => r in s.runs && Locked(s.runs[r].pc)
    case Crash(_) => r in s.runs && s.runs[r].pc != Ended
  }

  /** The root whose proof file the run writes last: after promotion it is the core root. */
  function ProofRoot(run: Run): Root { if run.pc == Switched then Core else run.root }

  /** The runner after an event of its own. */
  function Moved(run: Run, e: Event): Run {
    match e
    case TakeLock(_) => run.(pc := Holding)
    case PassPreconditions(_) => run.(pc := Checked, checked := true)
    case CreateClaim(_) => run.(pc := Claimed, passed := true)
    case AwaitSecrets(_) => run.(pc := Awaiting)
    case EnterSteps(_) => run.(pc := Stepping, entered := true)
    case AcceptPost(_) => run.(pc := Posted, posted := true)
    case CopyBundle(_) => run.(pc := BundleCopied)
    case CopyProof(_) => run.(pc := ProofCopied)
    case CopyClaim(_) => run.(pc := ClaimCopied)
    case WriteMarker(_) => run.(pc := Marked)
    case SwitchProof(_) => run.(pc := Switched)
    case _ => run.(pc := Ended)
  }

  function RunAfter(s: State, e: Event): Run
    requires e.Start? || e.run in s.runs
  {
    if e.Start? then Run(e.bundle, RootNow(s), Rooted, false, false, false, false) else Moved(s.runs[e.run], e)
  }

  predicate Ends(e: Event) { e.LockBusy? || e.AlreadyClaimed? || e.Finish? || e.Fail? || e.Crash? }

  /** When a run ends, its descriptor of the lock file is closed. */
  function ExclusiveAfter(m: Manifests, s: State, e: Event): set<(Root, RunId)>
    requires e.Start? || e.run in s.runs
  {
    if e.TakeLock? && Structural(m, s.runs[e.run].bundle) then s.exclusive + {(s.runs[e.run].root, e.run)}
    else if Ends(e) then s.exclusive - {(s.runs[e.run].root, e.run)}
    else s.exclusive
  }

  function SharedAfter(m: Manifests, s: State, e: Event): set<(Root, RunId)>
    requires e.Start? || e.run in s.runs
  {
    if e.TakeLock? && !Structural(m, s.runs[e.run].bundle) then s.shared + {(s.runs[e.run].root, e.run)}
    else if Ends(e) then s.shared - {(s.runs[e.run].root, e.run)}
    else s.shared
  }

  function ClaimsAfter(s: State, e: Event): set<(Root, BundleId)>
    requires e.Start? || e.run in s.runs
  {
    if e.CreateClaim? then s.claims + {(s.runs[e.run].root, s.runs[e.run].bundle)}
    else if e.CopyClaim? && (Bootstrap, s.runs[e.run].bundle) in s.claims then s.claims + {(Core, s.runs[e.run].bundle)}
    else s.claims
  }

  function ProofsAfter(s: State, e: Event): map<(Root, RunId), Status>
    requires e.Start? || e.run in s.runs
  {
    match e
    case Start(r, _) => s.proofs[(RootNow(s), r) := Running]
    case LockBusy(r) => s.proofs[(s.runs[r].root, r) := Failed]
    case AlreadyClaimed(r) => s.proofs[(s.runs[r].root, r) := Failed]
    case CopyProof(r) => s.proofs[(Core, r) := Running]
    case Finish(r) => s.proofs[(ProofRoot(s.runs[r]), r) := Success]
    case Fail(r) => s.proofs[(ProofRoot(s.runs[r]), r) := Failed]
    case _ => s.proofs
  }

  function Next(m: Manifests, s: State, e: Event): State
    requires e.Start? || e.run in s.runs
  {
    State(s.runs[e.run := RunAfter(s, e)], ExclusiveAfter(m, s, e), SharedAfter(m, s, e), ClaimsAfter(s, e),
          s.marker || e.WriteMarker?, ProofsAfter(s, e),
          if e.WriteMarker? && !s.marker then Some(s.runs[e.run].bundle) else s.first)
  }

  /** The state after a sequence of events, if each was possible when it happened. */
  function Execute(m: Manifests, es: seq<Event>): Option<State> {
    if es == [] then Some(INITIAL)
    else match Execute(m, es[..|es|-1])
      case None => None
      case Some(s) => if Enabled(m, s, es[|es|-1]) then Some(Next(m, s, es[|es|-1])) else None
  }

  // ---------- Invariants ----------

  predicate Holds(s: State, root: Root, r: RunId) { (root, r) in s.exclusive || (root, r) in s.shared }

  /** The lock table and the runner agree on what it holds. */
  ghost predicate LockOf(m: Manifests, s: State, r: RunId)
    requires r in s.runs
  {
    var run := s.runs[r];
    && ((run.root, r) in s.exclusive <==> Locked(run.pc) && Structural(m, run.bundle))
    && ((run.root, r) in s.shared <==> Locked(run.pc) && !Structural(m, run.bundle))
  }

  ghost predicate LocksAgree(m: Manifests, s: State) {
    && (forall r :: r in s.runs ==> LockOf(m, s, r))
    && (forall root, r :: Holds(s, root, r) ==> r in s.runs && s.runs[r].root == root)
  }

  /** An exclusive lock keeps every other runner off the root. */
  ghost predicate Exclusion(s: State) {
    forall root, p, q :: (root, p) in s.exclusive && Holds(s, root, q) ==> p == q
  }

  /** How far a run got decides what it has behind it. */
  predicate RunOk(m: Manifests, run: Run, claims: set<(Root, BundleId)>, marker: bool) {
    && (Locked(run.pc) && Rank(run.pc) >= 2 ==> run.checked)
    && (Locked(run.pc) && Rank(run.pc) >= 3 && Structural(m, run.bundle) ==> run.passed)
    && (Locked(run.pc) && Rank(run.pc) >= 5 ==> run.entered)
    && (Locked(run.pc) && Rank(run.pc) >= 6 ==> run.posted)
    && (run.passed ==> run.checked && Structural(m, run.bundle) && (run.root, run.bundle) in claims)
    && (run.entered ==> run.checked && (Structural(m, run.bundle) ==> run.passed))
    && (run.posted ==> run.entered)
    && (run.root == Core ==> marker)
    && (Rank(run.pc) in {7, 8, 9, 10, 11} ==> run.root == Bootstrap)
    && (Rank(run.pc) in {9, 10, 11} && Structural(m, run.bundle) ==> (Core, run.bundle) in claims)
  }

  ghost predicate RunsOk(m: Manifests, s: State) {
    forall r :: r in s.runs ==> RunOk(m, s.runs[r], s.claims, s.marker)
  }

  ghost predicate PassedWith(s: State, p: RunId, b: BundleId) { p in s.runs && s.runs[p].passed && s.runs[p].bundle == b }

  /** One claim per root and bundle. */
  ghost predicate OneClaimant(s: State) {
    forall p, q, b :: PassedWith(s, p, b) && PassedWith(s, q, b) && s.runs[p].root == s.runs[q].root ==> p == q
  }

  /** The bundle promoted first is claimed on both roots, by one run. */
  ghost predicate FirstClaimed(m: Manifests, s: State) {
    && (s.first.Some? <==> s.marker)
    && (s.first.Some? && Structural(m, s.first.value) ==>
          && (Bootstrap, s.first.value) in s.claims && (Core, s.first.value) in s.claims
          && (forall p, q :: PassedWith(s, p, s.first.value) && PassedWith(s, q, s.first.value) ==> p == q))
  }

  ghost predicate SuccessIsEarned(s: State) {
    forall k :: k in s.proofs && s.proofs[k] == Success ==> k.1 in s.runs && s.runs[k.1].posted
  }

  ghost predicate Inv(m: Manifests, s: State) {
    LocksAgree(m, s) && Exclusion(s) && RunsOk(m, s) && OneClaimant(s) && FirstClaimed(m, s) && SuccessIsEarned(s)
  }

  lemma OtherLock(m: Manifests, s: State, e: Event, q: RunId)
    requires LocksAgree(m, s) && Enabled(m, s, e) && q in s.runs && q != e.run
    ensures LockOf(m, Next(m, s, e), q)
  {
    assert LockOf(m, s, q);
  }

  lemma LockedAfter(m: Manifests, s: State, e: Event)
    requires Enabled(m, s, e) && !e.Start?
    ensures Locked(RunAfter(s, e).pc) <==> !Ends(e)
    ensures !e.TakeLock? && !Ends(e) ==> Locked(s.runs[e.run].pc)
  {
  }

  lemma OwnLock(m: Manifests, s: State, e: Event)
    requires LocksAgree(m, s) && Enabled(m, s, e)
    ensures LockOf(m, Next(m, s, e), e.run)
  {
    if e.Start? {
      assert !Holds(s, RootNow(s), e.run);
    } else {
      LockedAfter(m, s, e);
      OwnLockMoved(m, s, e);
    }
  }

  lemma OwnLockMoved(m: Manifests, s: State, e: Event)
    requires e.run in s.runs && !e.Start? && LockOf(m, s, e.run)
    requires Locked(RunAfter(s, e).pc) <==> !Ends(e)
    requires !e.TakeLock? && !Ends(e) ==> Locked(s.runs[e.run].pc)
    requires e.TakeLock? ==> !Locked(s.runs[e.run].pc)
    requires RunAfter(s, e).bundle == s.runs[e.run].bundle && RunAfter(s, e).root == s.runs[e.run].root
    ensures LockOf(m, Next(m, s, e), e.run)
  {
    var run := s.runs[e.run];
    var pair := (run.root, e.run);
    if Structural(m, run.bundle) {
      assert pair in ExclusiveAfter(m, s, e) <==> !Ends(e);
    } else {
      assert pair in SharedAfter(m, s, e) <==> !Ends(e);
    }
  }

  lemma KeepsLocks(m: Manifests, s: State, e: Event)
    requires LocksAgree(m, s) && Enabled(m, s, e)
    ensures LocksAgree(m, Next(m, s, e))
  {
    var s' := Next(m, s, e);
    forall q | q in s'.runs ensures LockOf(m, s', q) {
      if q == e.run { OwnLock(m, s, e); } else { OtherLock(m, s, e, q); }
    }
    forall root, q | Holds(s', root, q) ensures q in s'.runs && s'.runs[q].root == root {
      assert Holds(s, root, q) || (e.TakeLock? && q == e.run);
    }
  }

  lemma KeepsExclusion(m: Manifests, s: State, e: Event)
    requires LocksAgree(m, s) && Exclusion(s) && Enabled(m, s, e)
    ensures Exclusion(Next(m, s, e))
  {
    var s' := Next(m, s, e);
    assert forall h :: h in s.exclusive ==> Busy(s.exclusive, h.0);
    assert forall h :: h in s.shared ==> Busy(s.shared, h.0);
    forall root, p, q | (root, p) in s'.exclusive && Holds(s', root, q) ensures p == q {
      assert (root, p) in s.exclusive || (e.TakeLock? && p == e.run);
      assert Holds(s, root, q) || (e.TakeLock? && q == e.run);
    }
  }

  lemma RunStaysOk(m: Manifests, run: Run, claims: set<(Root, BundleId)>, marker: bool, claims': set<(Root, BundleId)>, marker': bool)
    requires RunOk(m, run, claims, marker) && claims <= claims' && (marker ==> marker')
    ensures RunOk(m, run, claims', marker')
  {
  }

  predicate Promoting(e: Event) { e.CopyBundle? || e.CopyProof? || e.CopyClaim? || e.WriteMarker? || e.SwitchProof? }

  lemma PromotingRunOk(m: Manifests, s: State, e: Event)
    requires Promoting(e) && Enabled(m, s, e) && RunOk(m, s.runs[e.run], s.claims, s.marker)
    ensures RunOk(m, RunAfter(s, e), ClaimsAfter(s, e), s.marker || e.WriteMarker?)
  {
  }

  lemma AdvancingRunOk(m: Manifests, s: State, e: Event)
    requires !e.Start? && !Promoting(e) && Enabled(m, s, e) && RunOk(m, s.runs[e.run], s.claims, s.marker)
    ensures RunOk(m, RunAfter(s, e), ClaimsAfter(s, e), s.marker)
  {
  }

  lemma MovedRunOk(m: Manifests, s: State, e: Event)
    requires RunsOk(m, s) && Enabled(m, s, e)
    ensures RunOk(m, RunAfter(s, e), ClaimsAfter(s, e), s.marker || e.WriteMarker?)
  {
    if e.Start? {
    } else if Promoting(e) {
      PromotingRunOk(m, s, e);
    } else {
      AdvancingRunOk(m, s, e);
    }
  }

  lemma KeepsRuns(m: Manifests, s: State, e: Event)
    requires RunsOk(m, s) && Enabled(m, s, e)
    ensures RunsOk(m, Next(m, s, e))
  {
    var s' := Next(m, s, e);
    MovedRunOk(m, s, e);
    forall q | q in s'.runs ensures RunOk(m, s'.runs[q], s'.claims, s'.marker) {
      if q != e.run {
        RunStaysOk(m, s.runs[q], s.claims, s.marker, s'.claims, s'.marker);
      }
    }
  }

  lemma PassedBefore(m: Manifests, s: State, e: Event, p: RunId, b: BundleId)
    requires Enabled(m, s, e) && PassedWith(Next(m, s, e), p, b)
    ensures PassedWith(s, p, b) || (e == CreateClaim(p) && s.runs[p].bundle == b && (s.runs[p].root, b) !in s.claims)
    ensures p in s.runs && Next(m, s, e).runs[p].root == s.runs[p].root
  {
  }

  lemma KeepsClaimant(m: Manifests, s: State, e: Event)
    requires RunsOk(m, s) && OneClaimant(s) && Enabled(m, s, e)
    ensures OneClaimant(Next(m, s, e))
  {
    var s' := Next(m, s, e);
    forall p, q, b | PassedWith(s', p, b) && PassedWith(s', q, b) && s'.runs[p].root == s'.runs[q].root ensures p == q {
      PassedBefore(m, s, e, p, b);
      PassedBefore(m, s, e, q, b);
      assert RunOk(m, s.runs[p], s.claims, s.marker) && RunOk(m, s.runs[q], s.claims, s.marker);
    }
  }

  lemma FirstPromotion(m: Manifests, s: State, e: Event)
    requires Inv(m, s) && Enabled(m, s, e) && e.WriteMarker? && !s.marker
    ensures FirstClaimed(m, Next(m, s, e))
  {
    var s', run := Next(m, s, e), s.runs[e.run];
    assert RunOk(m, run, s.claims, s.marker);
    if Structural(m, run.bundle) {
      forall p, q | PassedWith(s', p, run.bundle) && PassedWith(s', q, run.bundle) ensures p == q {
        PassedBefore(m, s, e, p, run.bundle);
        PassedBefore(m, s, e, q, run.bundle);
        assert RunOk(m, s.runs[p], s.claims, s.marker) && RunOk(m, s.runs[q], s.claims, s.marker);
      }
    }
  }

  lemma KeepsFirst(m: Manifests, s: State, e: Event)
    requires Inv(m, s) && Enabled(m, s, e)
    ensures FirstClaimed(m, Next(m, s, e))
  {
    var s' := Next(m, s, e);
    if e.WriteMarker? && !s.marker {
      FirstPromotion(m, s, e);
    } else if s.first.Some? && Structural(m, s.first.value) {
      var b := s.first.value;
      forall p, q | PassedWith(s', p, b) && PassedWith(s', q, b) ensures p == q {
        PassedBefore(m, s, e, p, b);
        PassedBefore(m, s, e, q, b);
      }
    }
  }

  lemma KeepsSuccess(m: Manifests, s: State, e: Event)
    requires RunsOk(m, s) && SuccessIsEarned(s) && Enabled(m, s, e)
    ensures SuccessIsEarned(Next(m, s, e))
  {
    hide ExclusiveAfter, SharedAfter, ClaimsAfter;
    var s' := Next(m, s, e);
    if e.Finish? {
      assert RunOk(m, s.runs[e.run], s.claims, s.marker);
      assert Rank(s.runs[e.run].pc) >= 6;
    }
    forall k | k in s'.proofs && s'.proofs[k] == Success ensures k.1 in s'.runs && s'.runs[k.1].posted {
      assert (e.Finish? && k.1 == e.run) || (k in s.proofs && s.proofs[k] == Success);
    }
  }

  /** Whatever happens, in whatever order, and whoever crashes. */
  lemma {:induction false} Reachable(m: Manifests, es: seq<Event>)
    requires Execute(m, es).Some?
    ensures Inv(m, Execute(m, es).value)
    decreases |es|
  {
    if es != [] {
      var s, e := Execute(m, es[..|es|-1]).value, es[|es|-1];
      Reachable(m, es[..|es|-1]);
      KeepsLocks(m, s, e);
      KeepsExclusion(m, s, e);
      KeepsRuns(m, s, e);
      KeepsClaimant(m, s, e);
      KeepsFirst(m, s, e);
      KeepsSuccess(m, s, e);
    }
  }

  // ---------- What the protocol guarantees ----------

  /** Two different runs on one root, both past the lock. */
  predicate BothLocked(s: State, p: RunId, q: RunId) {
    && p != q && p in s.runs && q in s.runs && s.runs[p].root == s.runs[q].root
    && Locked(s.runs[p].pc) && Locked(s.runs[q].pc)
  }

  predicate BothEntered(s: State, p: RunId, q: RunId) {
    && p != q && p in s.runs && q in s.runs && s.runs[p].bundle == s.runs[q].bundle
    && s.runs[p].entered && s.runs[q].entered
  }

  /** A structural run past the lock excludes every other run on its root. */
  lemma StructuralExcludes(m: Manifests, es: seq<Event>, p: RunId, q: RunId)
    requires Execute(m, es).Some?
    requires BothLocked(Execute(m, es).value, p, q)
    ensures var s := Execute(m, es).value; !Structural(m, s.runs[p].bundle) && !Structural(m, s.runs[q].bundle)
  {
    Reachable(m, es);
    var s := Execute(m, es).value;
    var root := s.runs[p].root;
    assert LockOf(m, s, p) && LockOf(m, s, q);
    assert (root, p) in s.exclusive ==> !Holds(s, root, q);
    assert (root, q) in s.exclusive ==> !Holds(s, root, p);
  }

  /** Over all interleavings and crashes, at most one run of a structural bundle ever enters its steps
      on a root, and it did so after its preconditions and its claim. */
  lemma EntersOncePerRoot(m: Manifests, es: seq<Event>, p: RunId)
    requires Execute(m, es).Some? && p in Execute(m, es).value.runs
    requires Execute(m, es).value.runs[p].entered && Structural(m, Execute(m, es).value.runs[p].bundle)
    ensures var s := Execute(m, es).value;
      && s.runs[p].checked && s.runs[p].passed && (s.runs[p].root, s.runs[p].bundle) in s.claims
      && forall q :: q in s.runs && s.runs[q].entered && s.runs[q].root == s.runs[p].root && s.runs[q].bundle == s.runs[p].bundle ==> p == q
  {
    Reachable(m, es);
    var s := Execute(m, es).value;
    assert RunOk(m, s.runs[p], s.claims, s.marker);
    forall q | q in s.runs && s.runs[q].entered && s.runs[q].root == s.runs[p].root && s.runs[q].bundle == s.runs[p].bundle
      ensures p == q
    {
      assert RunOk(m, s.runs[q], s.claims, s.marker);
      assert PassedWith(s, p, s.runs[p].bundle) && PassedWith(s, q, s.runs[p].bundle);
    }
  }

  /** If two runs of one structural bundle entered their steps, they did so on different roots, and the
      bundle is not the one whose promotion created the core root. */
  lemma EnteredTwice(m: Manifests, es: seq<Event>, p: RunId, q: RunId)
    requires Execute(m, es).Some?
    requires BothEntered(Execute(m, es).value, p, q) && Structural(m, Execute(m, es).value.runs[p].bundle)
    ensures var s := Execute(m, es).value; s.marker && s.runs[p].root != s.runs[q].root && s.first != Some(s.runs[p].bundle)
  {
    Reachable(m, es);
    var s := Execute(m, es).value;
    assert RunOk(m, s.runs[p], s.claims, s.marker) && RunOk(m, s.runs[q], s.claims, s.marker);
    assert PassedWith(s, p, s.runs[p].bundle) && PassedWith(s, q, s.runs[p].bundle);
  }

  /** A success proof, wherever it lies, belongs to a run that passed its preconditions, its claim if
      structural, its steps and the post-state check. */
  lemma SuccessMeansDone(m: Manifests, es: seq<Event>, k: (Root, RunId))
    requires Execute(m, es).Some? && k in Execute(m, es).value.proofs && Execute(m, es).value.proofs[k] == Success
    ensures var s := Execute(m, es).value;
      && k.1 in s.runs && s.runs[k.1].checked && s.runs[k.1].entered && s.runs[k.1].posted
      && (Structural(m, s.runs[k.1].bundle) ==> s.runs[k.1].passed)
  {
    Reachable(m, es);
    var s := Execute(m, es).value;
    assert RunOk(m, s.runs[k.1], s.claims, s.marker);
  }

  lemma Extend(m: Manifests, es: seq<Event>, e: Event)
    requires Execute(m, es).Some?
    ensures Execute(m, es + [e]) == if Enabled(m, Execute(m, es).value, e) then Some(Next(m, Execute(m, es).value, e)) else None
  {
    assert (es + [e])[..|es|] == es;
  }

  ghost predicate PassedOn(s: State, r: RunId, root: Root, b: BundleId) { PassedWith(s, r, b) && s.runs[r].root == root }

  /** A claim outlives everything, crashes included: once it exists, no further run of that bundle
      passes the claim on that root. */
  lemma {:induction false} ClaimedForGood(m: Manifests, es: seq<Event>, more: seq<Event>, root: Root, b: BundleId)
    requires Execute(m, es).Some? && Execute(m, es + more).Some? && (root, b) in Execute(m, es).value.claims
    ensures (root, b) in Execute(m, es + more).value.claims
    ensures forall r :: PassedOn(Execute(m, es + more).value, r, root, b) ==> PassedOn(Execute(m, es).value, r, root, b)
    decreases |more|
  {
    if more == [] {
      assert es + more == es;
    } else {
      var before, e := more[..|more|-1], more[|more|-1];
      assert es + more == (es + before) + [e] && (es + more)[..|es + more|-1] == es + before;
      ClaimedForGood(m, es, before, root, b);
      var s, s' := Execute(m, es + before).value, Execute(m, es + more).value;
      forall r | PassedOn(s', r, root, b) ensures PassedOn(Execute(m, es).value, r, root, b) {
        PassedBefore(m, s, e, r, b);
        assert PassedOn(s, r, root, b);
      }
    }
  }

  /** Nobody holds the root's lock. */
  predicate Idle(s: State, root: Root) { !Busy(s.exclusive, root) && !Busy(s.shared, root) }

  /** The state s with one more structural run, past the lock of its root. */
  function With(s: State, r: RunId, run: Run, claims: set<(Root, BundleId)>): State {
    s.(runs := s.runs[r := run], exclusive := s.exclusive + {(run.root, r)}, claims := claims,
       proofs := s.proofs[(run.root, r) := Running])
  }

  lemma StartAndLock(m: Manifests, es: seq<Event>, r: RunId, b: BundleId)
    requires Execute(m, es).Some? && r !in Execute(m, es).value.runs && Structural(m, b)
    requires Idle(Execute(m, es).value, RootNow(Execute(m, es).value))
    ensures var s := Execute(m, es).value;
      Execute(m, es + [Start(r, b)] + [TakeLock(r)]) == Some(With(s, r, Run(b, RootNow(s), Holding, false, false, false, false), s.claims))
  {
    var s := Execute(m, es).value;
    Extend(m, es, Start(r, b));
    var s1 := Next(m, s, Start(r, b));
    assert LockFree(m, s1, RootNow(s), b);
    Extend(m, es + [Start(r, b)], TakeLock(r));
    var run := Run(b, RootNow(s), Holding, false, false, false, false);
    assert s1.runs[r := run] == s.runs[r := run];
    assert Next(m, s1, TakeLock(r)) == With(s, r, run, s.claims);
  }

  /** The events of a run that only move it on. */
  predicate Plain(e: Event) { e.PassPreconditions? || e.CreateClaim? || e.AwaitSecrets? || e.EnterSteps? || e.AcceptPost? }

  lemma PlainStep(m: Manifests, es: seq<Event>, s: State, run: Run, claims: set<(Root, BundleId)>, e: Event)
    requires Plain(e) && Execute(m, es) == Some(With(s, e.run, run, claims)) && Enabled(m, With(s, e.run, run, claims), e)
    ensures Execute(m, es + [e]) == Some(With(s, e.run, Moved(run, e), if e.CreateClaim? then claims + {(run.root, run.bundle)} else claims))
  {
    var s0 := With(s, e.run, run, claims);
    Extend(m, es, e);
    assert s0.runs[e.run := Moved(run, e)] == s.runs[e.run := Moved(run, e)];
  }

  lemma PassAndClaim(m: Manifests, es: seq<Event>, s: State, r: RunId, b: BundleId, root: Root, claims: set<(Root, BundleId)>)
    requires Execute(m, es) == Some(With(s, r, Run(b, root, Holding, false, false, false, false), claims))
    requires Structural(m, b) && (root, b) !in claims
    ensures Execute(m, es + [PassPreconditions(r), CreateClaim(r)])
         == Some(With(s, r, Run(b, root, Claimed, true, true, false, false), claims + {(root, b)}))
  {
    PlainStep(m, es, s, Run(b, root, Holding, false, false, false, false), claims, PassPreconditions(r));
    PlainStep(m, es + [PassPreconditions(r)], s, Run(b, root, Checked, true, false, false, false), claims, CreateClaim(r));
    assert es + [PassPreconditions(r), CreateClaim(r)] == es + [PassPreconditions(r)] + [CreateClaim(r)];
  }

  lemma AwaitAndEnter(m: Manifests, es: seq<Event>, s: State, r: RunId, b: BundleId, root: Root, claims: set<(Root, BundleId)>)
    requires Execute(m, es) == Some(With(s, r, Run(b, root, Claimed, true, true, false, false), claims)) && Structural(m, b)
    ensures Execute(m, es + [AwaitSecrets(r), EnterSteps(r)])
         == Some(With(s, r, Run(b, root, Stepping, true, true, true, false), claims))
  {
    PlainStep(m, es, s, Run(b, root, Claimed, true, true, false, false), claims, AwaitSecrets(r));
    PlainStep(m, es + [AwaitSecrets(r)], s, Run(b, root, Awaiting, true, true, false, false), claims, EnterSteps(r));
    assert es + [AwaitSecrets(r), EnterSteps(r)] == es + [AwaitSecrets(r)] + [EnterSteps(r)];
  }

  function Entering(r: RunId, b: BundleId): seq<Event> {
    [Start(r, b), TakeLock(r)] + FromLocked(r)
  }

  function FromLocked(r: RunId): seq<Event> { [PassPreconditions(r), CreateClaim(r)] + [AwaitSecrets(r), EnterSteps(r)] }

  lemma EnterFromLocked(m: Manifests, es: seq<Event>, s: State, r: RunId, b: BundleId, root: Root, claims: set<(Root, BundleId)>)
    requires Execute(m, es) == Some(With(s, r, Run(b, root, Holding, false, false, false, false), claims))
    requires Structural(m, b) && (root, b) !in claims
    ensures Execute(m, es + FromLocked(r)) == Some(With(s, r, Run(b, root, Stepping, true, true, true, false), claims + {(root, b)}))
  {
    PassAndClaim(m, es, s, r, b, root, claims);
    AwaitAndEnter(m, es + [PassPreconditions(r), CreateClaim(r)], s, r, b, root, claims + {(root, b)});
    assert es + FromLocked(r) == es + [PassPreconditions(r), CreateClaim(r)] + [AwaitSecrets(r), EnterSteps(r)];
  }

  /** A fresh run of an unclaimed structural bundle can get into its steps once the lock is free. */
  lemma CanEnter(m: Manifests, es: seq<Event>, r: RunId, b: BundleId)
    requires Execute(m, es).Some? && r !in Execute(m, es).value.runs && Structural(m, b)
    requires Idle(Execute(m, es).value, RootNow(Execute(m, es).value))
    requires (RootNow(Execute(m, es).value), b) !in Execute(m, es).value.claims
    ensures var s := Execute(m, es).value;
      Execute(m, es + Entering(r, b)) ==
        Some(With(s, r, Run(b, RootNow(s), Stepping, true, true, true, false), s.claims + {(RootNow(s), b)}))
  {
    var s := Execute(m, es).value;
    var es2 := es + [Start(r, b)] + [TakeLock(r)];
    StartAndLock(m, es, r, b);
    hide Enabled, Next, Idle;
    EnterFromLocked(m, es2, s, r, b, RootNow(s), s.claims);
    assert es + Entering(r, b) == es2 + FromLocked(r);
  }

  ghost predicate EntersLater(m: Manifests, es: seq<Event>, more: seq<Event>, r: RunId, b: BundleId) {
    && Execute(m, es).Some? && Execute(m, es + more).Some? && r !in Execute(m, es).value.runs
    && r in Execute(m, es + more).value.runs
    && var run := Execute(m, es + more).value.runs[r];
       run.bundle == b && run.root == RootNow(Execute(m, es).value) && run.entered
  }

  /** Exactly when a structural bundle can still be run on the root in use: as long as it has no claim
      there. Whatever its history on the other root, only that claim stands in the way. */
  lemma StartableExactly(m: Manifests, es: seq<Event>, b: BundleId)
    requires Execute(m, es).Some? && Structural(m, b) && Idle(Execute(m, es).value, RootNow(Execute(m, es).value))
    ensures (exists more, r :: EntersLater(m, es, more, r, b))
       <==> (RootNow(Execute(m, es).value), b) !in Execute(m, es).value.claims
  {
    var s := Execute(m, es).value;
    if (RootNow(s), b) !in s.claims {
      var r := Fresh(s.runs.Keys);
      CanEnter(m, es, r, b);
      assert EntersLater(m, es, Entering(r, b), r, b);
    } else {
      forall more, r ensures !EntersLater(m, es, more, r, b) {
        NoFurtherRun(m, es, more, r, b);
      }
    }
  }

  lemma NoFurtherRun(m: Manifests, es: seq<Event>, more: seq<Event>, r: RunId, b: BundleId)
    requires Execute(m, es).Some? && Structural(m, b) && (RootNow(Execute(m, es).value), b) in Execute(m, es).value.claims
    ensures !EntersLater(m, es, more, r, b)
  {
    if EntersLater(m, es, more, r, b) {
      var s' := Execute(m, es + more).value;
      Reachable(m, es + more);
      assert RunOk(m, s'.runs[r], s'.claims, s'.marker);
      assert PassedOn(s', r, RootNow(Execute(m, es).value), b);
      ClaimedForGood(m, es, more, RootNow(Execute(m, es).value), b);
    }
  }

  lemma {:induction false} Bounded(ids: set<RunId>) returns (n: nat)
    ensures forall r :: r in ids ==> r < n
    decreases |ids|
  {
    if ids == {} {
      n := 0;
    } else {
      var r :| r in ids;
      var rest := Bounded(ids - {r});
      n := if rest <= r then r + 1 else rest;
      forall q | q in ids ensures q < n {
        assert q == r || q in ids - {r};
      }
    }
  }

  ghost function Fresh(ids: set<RunId>): (r: RunId)
    ensures r !in ids
  {
    FreshExists(ids);
    var r: RunId :| r !in ids;
    r
  }

  lemma FreshExists(ids: set<RunId>)
    ensures exists r: RunId :: r !in ids
  {
    var n := Bounded(ids);
    assert n !in ids;
  }

  // ---------- Two witnesses ----------

  /** Validations share the lock: two of them can be in their steps at once. */
  lemma ValidationsShare(m: Manifests, b: BundleId) returns (es: seq<Event>)
    requires m.validation(b)
    ensures Execute(m, es).Some?
    ensures var s := Execute(m, es).value; BothLocked(s, 0, 1) && s.runs[0].pc == s.runs[1].pc == Stepping
  {
    es := [];
    var s := INITIAL;
    for r := 0 to 2
      invariant Execute(m, es) == Some(s) && s.exclusive == {} && !s.marker
      invariant forall q :: q in s.runs <==> 0 <= q < r
      invariant forall q :: q in s.runs ==> s.runs[q].root == Bootstrap && s.runs[q].pc == Stepping
    {
      es, s := ValidationSteps(m, es, s, r, b);
    }
  }

  /** The run of a validation between its start and its steps. */
  function ValidationAt(b: BundleId, i: nat): Run
    requires 1 <= i <= 5
  {
    Run(b, Bootstrap, [Rooted, Holding, Checked, Awaiting, Stepping][i - 1], i >= 3, false, i >= 5, false)
  }

  function ValidationEvent(r: RunId, i: nat): Event
    requires 1 <= i < 5
  {
    [TakeLock(r), PassPreconditions(r), AwaitSecrets(r), EnterSteps(r)][i - 1]
  }

  lemma ValidationStep(m: Manifests, es: seq<Event>, s: State, r: RunId, b: BundleId, i: nat)
    requires 1 <= i < 5 && Execute(m, es) == Some(s) && m.validation(b) && s.exclusive == {} && !s.marker
    requires r in s.runs && s.runs[r] == ValidationAt(b, i)
    ensures var e := ValidationEvent(r, i);
      && Execute(m, es + [e]).Some? && var next := Execute(m, es + [e]).value;
      next.runs == s.runs[r := ValidationAt(b, i + 1)] && next.exclusive == {} && !next.marker
  {
    var e := ValidationEvent(r, i);
    Extend(m, es, e);
    hide Execute;
    if i == 1 {
      assert Enabled(m, s, e);
    } else if i == 2 {
      assert Enabled(m, s, e);
    } else if i == 3 {
      assert Enabled(m, s, e);
    } else {
      assert Enabled(m, s, e);
    }
  }

  lemma ValidationStart(m: Manifests, es: seq<Event>, s: State, r: RunId, b: BundleId)
    requires Execute(m, es) == Some(s) && r !in s.runs && s.exclusive == {} && !s.marker
    ensures Execute(m, es + [Start(r, b)]).Some? && var next := Execute(m, es + [Start(r, b)]).value;
      next.runs == s.runs[r := ValidationAt(b, 1)] && next.exclusive == {} && !next.marker
  {
    Extend(m, es, Start(r, b));
  }

  lemma ValidationSteps(m: Manifests, es: seq<Event>, s: State, r: RunId, b: BundleId) returns (es': seq<Event>, s': State)
    requires Execute(m, es) == Some(s) && m.validation(b) && r !in s.runs && s.exclusive == {} && !s.marker
    ensures Execute(m, es') == Some(s') && s'.exclusive == {} && !s'.marker
    ensures s'.runs == s.runs[r := Run(b, Bootstrap, Stepping, true, false, true, false)]
  {
    ValidationStart(m, es, s, r, b);
    hide Enabled, Next;
    es', s' := es + [Start(r, b)], Execute(m, es + [Start(r, b)]).value;
    for i := 1 to 5
      invariant Execute(m, es') == Some(s') && s'.exclusive == {} && !s'.marker
      invariant s'.runs == s.runs[r := ValidationAt(b, i)]
    {
      ValidationStep(m, es', s', r, b, i);
      es' := es' + [ValidationEvent(r, i)];
      s' := Execute(m, es').value;
    }
  }

  /** The state s with the first promotion by run r under way. */
  function Promoted(s: State, r: RunId, run: Run, claims: set<(Root, BundleId)>, marker: bool, copied: bool): State {
    var proofs := s.proofs[(Bootstrap, r) := Running];
    s.(runs := s.runs[r := run], exclusive := s.exclusive + {(Bootstrap, r)}, claims := claims, marker := marker,
       proofs := if copied then proofs[(Core, r) := Running] else proofs,
       first := if marker then Some(run.bundle) else s.first)
  }

  lemma PromotionStep(m: Manifests, es: seq<Event>, s: State, run: Run, claims: set<(Root, BundleId)>, marker: bool, copied: bool, e: Event)
    requires Execute(m, es) == Some(Promoted(s, e.run, run, claims, marker, copied)) && run.root == Bootstrap && !marker
    requires Promoting(e) && !e.SwitchProof? && Enabled(m, Promoted(s, e.run, run, claims, marker, copied), e)
    ensures Execute(m, es + [e]) == Some(Promoted(s, e.run, Moved(run, e),
      if e.CopyClaim? && (Bootstrap, run.bundle) in claims then claims + {(Core, run.bundle)} else claims,
      e.WriteMarker?, copied || e.CopyProof?))
  {
    var s0 := Promoted(s, e.run, run, claims, marker, copied);
    Extend(m, es, e);
    assert s0.runs[e.run := Moved(run, e)] == s.runs[e.run := Moved(run, e)];
    assert e.CopyProof? ==> s0.proofs[(Core, e.run) := Running] == s.proofs[(Bootstrap, e.run) := Running][(Core, e.run) := Running];
  }

  lemma CopyHistory(m: Manifests, es: seq<Event>, s: State, r: RunId, c: BundleId, claims: set<(Root, BundleId)>)
    requires Execute(m, es) == Some(With(s, r, Run(c, Bootstrap, Posted, true, true, true, true), claims))
    requires m.core(c) && !s.marker
    ensures Execute(m, es + [CopyBundle(r)] + [CopyProof(r)])
         == Some(Promoted(s, r, Run(c, Bootstrap, ProofCopied, true, true, true, true), claims, false, true))
  {
    var run := Run(c, Bootstrap, Posted, true, true, true, true);
    assert With(s, r, run, claims) == Promoted(s, r, run, claims, false, false);
    PromotionStep(m, es, s, run, claims, false, false, CopyBundle(r));
    PromotionStep(m, es + [CopyBundle(r)], s, run.(pc := BundleCopied), claims, false, false, CopyProof(r));
  }

  lemma CopyClaimAndMark(m: Manifests, es: seq<Event>, s: State, r: RunId, c: BundleId, claims: set<(Root, BundleId)>)
    requires Execute(m, es) == Some(Promoted(s, r, Run(c, Bootstrap, ProofCopied, true, true, true, true), claims, false, true))
    requires (Bootstrap, c) in claims
    ensures Execute(m, es + [CopyClaim(r)] + [WriteMarker(r)])
         == Some(Promoted(s, r, Run(c, Bootstrap, Marked, true, true, true, true), claims + {(Core, c)}, true, true))
  {
    var run := Run(c, Bootstrap, ProofCopied, true, true, true, true);
    PromotionStep(m, es, s, run, claims, false, true, CopyClaim(r));
    PromotionStep(m, es + [CopyClaim(r)], s, run.(pc := ClaimCopied), claims + {(Core, c)}, false, true, WriteMarker(r));
  }

  function AtMarker(s: State, r: RunId, c: BundleId): State {
    Promoted(s, r, Run(c, Bootstrap, Marked, true, true, true, true), s.claims + {(Bootstrap, c)} + {(Core, c)}, true, true)
  }

  lemma RunToMarker(m: Manifests, es: seq<Event>, r: RunId, c: BundleId) returns (es': seq<Event>)
    requires Execute(m, es).Some? && r !in Execute(m, es).value.runs && Structural(m, c) && m.core(c)
    requires var s := Execute(m, es).value; !s.marker && Idle(s, Bootstrap) && (Bootstrap, c) !in s.claims
    ensures Execute(m, es') == Some(AtMarker(Execute(m, es).value, r, c))
  {
    var s := Execute(m, es).value;
    var claims := s.claims + {(Bootstrap, c)};
    CanEnter(m, es, r, c);
    es' := es + Entering(r, c);
    PlainStep(m, es', s, Run(c, Bootstrap, Stepping, true, true, true, false), claims, AcceptPost(r));
    es' := es' + [AcceptPost(r)];
    CopyHistory(m, es', s, r, c, claims);
    es' := es' + [CopyBundle(r)] + [CopyProof(r)];
    CopyClaimAndMark(m, es', s, r, c, claims);
    es' := es' + [CopyClaim(r)] + [WriteMarker(r)];
  }

  /** The first promotion by run r is over, and r has crashed. */
  function AfterPromotion(s: State, r: RunId, c: BundleId): State {
    State(s.runs[r := Run(c, Bootstrap, Ended, true, true, true, true)], s.exclusive, s.shared,
          s.claims + {(Bootstrap, c)} + {(Core, c)}, true,
          s.proofs[(Bootstrap, r) := Running][(Core, r) := Running], Some(c))
  }

  lemma CrashState(m: Manifests, s: State, r: RunId, c: BundleId)
    requires (Bootstrap, r) !in s.exclusive && (Bootstrap, r) !in s.shared
    ensures Enabled(m, AtMarker(s, r, c), Crash(r)) && Next(m, AtMarker(s, r, c), Crash(r)) == AfterPromotion(s, r, c)
  {
    var s1, s2 := AtMarker(s, r, c), Next(m, AtMarker(s, r, c), Crash(r));
    assert s2.exclusive == (s.exclusive + {(Bootstrap, r)}) - {(Bootstrap, r)} == s.exclusive;
    assert s2.shared == s.shared - {(Bootstrap, r)} == s.shared;
    assert s2.runs == s.runs[r := Run(c, Bootstrap, Ended, true, true, true, true)];
    assert s2.proofs == s1.proofs && s2.claims == s1.claims;
  }

  lemma CrashPromoted(m: Manifests, es: seq<Event>, s: State, r: RunId, c: BundleId)
    requires (Bootstrap, r) !in s.exclusive && (Bootstrap, r) !in s.shared
    requires Execute(m, es) == Some(AtMarker(s, r, c))
    ensures Execute(m, es + [Crash(r)]) == Some(AfterPromotion(s, r, c))
  {
    var s1 := AtMarker(s, r, c);
    Extend(m, es, Crash(r));
    CrashState(m, s, r, c);
  }

  /** A runner that chose the bootstrap root before the promotion goes on there after it, while a
      newer one works on the core root. */
  lemma LateRunner(m: Manifests, es: seq<Event>, s: State, r: RunId, b: BundleId)
    requires Execute(m, es) == Some(s) && r in s.runs && s.runs[r] == Run(b, Bootstrap, Rooted, false, false, false, false)
    requires Structural(m, b) && Idle(s, Bootstrap) && (Bootstrap, b) !in s.claims
    requires (Bootstrap, r) in s.proofs && s.proofs[(Bootstrap, r)] == Running
    ensures Execute(m, es + [TakeLock(r)] + FromLocked(r))
         == Some(With(s, r, Run(b, Bootstrap, Stepping, true, true, true, false), s.claims + {(Bootstrap, b)}))
  {
    Extend(m, es, TakeLock(r));
    assert s.proofs[(Bootstrap, r) := Running] == s.proofs;
    EnterFromLocked(m, es + [TakeLock(r)], s, r, b, Bootstrap, s.claims);
  }

  function Waiting(b: BundleId): State {
    State(map[0 := Run(b, Bootstrap, Rooted, false, false, false, false)], {}, {}, {}, false, map[(Bootstrap, 0) := Running], None)
  }

  lemma PromoteWhileWaiting(m: Manifests, b: BundleId, c: BundleId) returns (es: seq<Event>)
    requires Structural(m, c) && m.core(c)
    ensures Execute(m, es) == Some(AfterPromotion(Waiting(b), 1, c))
  {
    es := [Start(0, b)];
    assert es[..0] == [];
    assert Execute(m, es) == Some(Waiting(b));
    es := RunToMarker(m, es, 1, c);
    CrashPromoted(m, es, Waiting(b), 1, c);
    es := es + [Crash(1)];
  }

  /** For any other structural bundle the guarantee ends at the root: one run of it can have chosen
      the bootstrap root before the promotion, a second one the core root after it, and then both are
      in their mutating steps at the same time. */
  lemma SameBundleOnBothRoots(m: Manifests, b: BundleId, c: BundleId) returns (es: seq<Event>)
    requires Structural(m, b) && Structural(m, c) && m.core(c) && b != c
    ensures Execute(m, es).Some? && BothEntered(Execute(m, es).value, 0, 2)
    ensures var s := Execute(m, es).value; s.runs[0].pc == s.runs[2].pc == Stepping && s.runs[0].bundle == b
  {
    es := PromoteWhileWaiting(m, b, c);
    var s := AfterPromotion(Waiting(b), 1, c);
    CanEnter(m, es, 2, b);
    var run2 := Run(b, Core, Stepping, true, true, true, false);
    var s' := With(s, 2, run2, s.claims + {(Core, b)});
    es := es + Entering(2, b);
    assert s'.runs[0] == Run(b, Bootstrap, Rooted, false, false, false, false) && Idle(s', Bootstrap);
    LateRunner(m, es, s', 0, b);
    es := es + [TakeLock(0)] + FromLocked(0);
  }
}
