/** The execution of a bundle from this side: upload, one start, observation until a terminal proof, and
    late secrets (`internal/execution/executor.go`). */
module Executor {
  import opened Prelude
  import opened Ordering
  import opened Checksums
  import opened ManagementState
  import opened ExecutionHistory
  import BundleVerify
  import Assembly

  // ---------- The target ----------

  datatype Observation = Observation(proof: Option<Proof>, lockHeld: bool, unitRunning: bool)

  datatype SecretValue = SecretValue(id: string, value: string)

  datatype TargetCall =
    | Uploaded(bundle: string)
    | Started(run: string, bundle: string, sha: string, target: string)
    | Observed(run: string, seen: Observation)
    | NotObserved(run: string)
    | Sent(run: string, values: seq<SecretValue>)

  /** How the outside answers one execution: the steps that can fail, the observation at each poll (None
      for an error), the number of polls until the context is cancelled, the stored secrets, and what
      others do to the history meanwhile. */
  datatype Outside = Outside(upload: bool, start: bool, observe: nat -> Option<Observation>, polls: nat,
                             resolve: string -> Option<string>, send: bool,
                             register: Circumstances, meanwhile: seq<Change>, finish: Circumstances)

  datatype Bundle = Bundle(id: string, sha: string, bytes: string)

  datatype Error = NoError | BadBundle | NoRunId | NotUploaded | NotRegistered | StartUnknown | ObserveUnknown | IdentityMismatch
                 | Disappeared | NoSecrets | NotDelivered | NotRecorded | RunFailed(message: string) | WasInterrupted | Cancelled

  // ---------- Classification ----------

  function Classify(run: Run, seen: Observation): Run {
    if seen.proof.None? then run.(status := if seen.lockHeld || seen.unitRunning then Running else NotStarted)
    else if Terminal(seen.proof.value.status) then run.(status := seen.proof.value.status)
    else if seen.proof.value.status == Running then run.(status := if seen.lockHeld || seen.unitRunning then Running else Interrupted)
    else run.(status := Undetermined)
  }

  predicate ForeignProof(run: Run, seen: Observation) { seen.proof.Some? && !SameIdentity(run, seen.proof.value) }

  predicate Gone(seen: Observation) { seen.proof.None? && !seen.lockHeld && !seen.unitRunning }

  /** A proof of this run that waits for secrets. */
  predicate Awaits(run: Run, seen: Observation) {
    seen.proof.Some? && SameIdentity(run, seen.proof.value) && seen.proof.value.status == Running &&
    seen.proof.value.phase == "awaiting-secrets"
  }

  predicate Ended(run: Run, seen: Observation) {
    seen.proof.Some? && SameIdentity(run, seen.proof.value) && Terminal(seen.proof.value.status)
  }

  /** Nothing in an observation ends the polling. */
  predicate Continues(run: Run, seen: Option<Observation>) {
    && seen.Some? && !ForeignProof(run, seen.value) && !Gone(seen.value) && !Ended(run, seen.value)
    && Classify(run, seen.value).status != Interrupted
  }

  // ---------- Secrets ----------

  predicate Resolvable(resolve: string -> Option<string>, id: string) { id != "" && resolve(id).Some? && resolve(id).value != "" }

  /** Each referenced secret once, in the order of the IDs, with its stored value. */
  ghost predicate IsAnswer(resolve: string -> Option<string>, refs: seq<Assembly.SecretRef>, values: seq<SecretValue>) {
    && (forall i, j :: 0 <= i < j < |values| ==> StrLess(values[i].id, values[j].id))
    && (forall i :: 0 <= i < |values| ==> Resolvable(resolve, values[i].id) && resolve(values[i].id) == Some(values[i].value))
    && (forall id :: HasValue(values, id) <==> HasRef(refs, id))
  }

  predicate HasValue(values: seq<SecretValue>, id: string) { exists i :: 0 <= i < |values| && values[i].id == id }

  predicate HasRef(refs: seq<Assembly.SecretRef>, id: string) { exists i :: 0 <= i < |refs| && refs[i].secretId == id }

  predicate AllResolvable(resolve: string -> Option<string>, refs: seq<Assembly.SecretRef>) {
    forall i :: 0 <= i < |refs| ==> Resolvable(resolve, refs[i].secretId)
  }

  method CollectIds(refs: seq<Assembly.SecretRef>) returns (r: Option<seq<string>>)
    ensures r.Some? <==> forall i :: 0 <= i < |refs| ==> refs[i].secretId != ""
    ensures r.Some? ==> Distinct(r.value) && forall id :: id in r.value <==> HasRef(refs, id)
  {
    var ids: seq<string> := [];
    for i := 0 to |refs|
      invariant forall k :: 0 <= k < i ==> refs[k].secretId != "" && refs[k].secretId in ids
      invariant Distinct(ids)
      invariant forall id :: id in ids ==> exists k :: 0 <= k < i && refs[k].secretId == id
    {
      if refs[i].secretId == "" {
        return None;
      }
      if refs[i].secretId !in ids {
        ids := ids + [refs[i].secretId];
      }
    }
    return Some(ids);
  }

  /** `resolveSecrets` */
  method ResolveSecrets(resolve: string -> Option<string>, refs: seq<Assembly.SecretRef>) returns (r: Option<seq<SecretValue>>)
    ensures r.Some? <==> AllResolvable(resolve, refs)
    ensures r.Some? ==> IsAnswer(resolve, refs, r.value)
  {
    var ids := CollectIds(refs);
    if ids.None? {
      return None;
    }
    var ordered := Sort(ids.value, StringKey);
    SortedIsAscending(ids.value);
    var values: seq<SecretValue> := [];
    for i := 0 to |ordered|
      invariant |values| == i && forall k :: 0 <= k < i ==> values[k].id == ordered[k]
      invariant forall k :: 0 <= k < i ==> Resolvable(resolve, values[k].id) && resolve(values[k].id) == Some(values[k].value)
    {
      var value := resolve(ordered[i]);
      assert HasRef(refs, ordered[i]) by { assert ordered[i] in ids.value; }
      if value.None? || value.value == "" {
        return None;
      }
      values := values + [SecretValue(ordered[i], value.value)];
    }
    AnswerComplete(refs, ids.value, ordered, values);
    forall i | 0 <= i < |refs| ensures Resolvable(resolve, refs[i].secretId) {
      assert HasRef(refs, refs[i].secretId);
      var k :| 0 <= k < |values| && values[k].id == refs[i].secretId;
    }
    return Some(values);
  }

  lemma AnswerComplete(refs: seq<Assembly.SecretRef>, ids: seq<string>, ordered: seq<string>, values: seq<SecretValue>)
    requires forall id :: id in ids <==> HasRef(refs, id)
    requires forall id :: id in ordered <==> id in ids
    requires |values| == |ordered| && forall k :: 0 <= k < |values| ==> values[k].id == ordered[k]
    ensures forall id :: HasValue(values, id) <==> HasRef(refs, id)
  {
    forall id ensures HasValue(values, id) <==> id in ordered {
      if id in ordered {
        var k :| 0 <= k < |ordered| && ordered[k] == id;
        assert values[k].id == id;
      }
    }
  }

  // ---------- Polling ----------

  /** What polling asks of the target: observations of this run, and secrets at most once, right after an
      observation that awaits them. */
  ghost predicate PollCalls(run: Run, resolve: string -> Option<string>, refs: seq<Assembly.SecretRef>, calls: seq<TargetCall>) {
    && (forall i :: 0 <= i < |calls| ==> OfRun(run, calls[i]))
    && (forall i :: 0 <= i < |calls| && calls[i].Sent? ==> SentInTurn(run, resolve, refs, calls, i))
    && (forall i, j :: 0 <= i < j < |calls| ==> !(calls[i].Sent? && calls[j].Sent?))
  }

  predicate OfRun(run: Run, call: TargetCall) { (call.Observed? || call.NotObserved? || call.Sent?) && call.run == run.id }

  ghost predicate SentInTurn(run: Run, resolve: string -> Option<string>, refs: seq<Assembly.SecretRef>, calls: seq<TargetCall>, i: nat)
    requires i < |calls| && calls[i].Sent?
  {
    i > 0 && calls[i - 1].Observed? && Awaits(run, calls[i - 1].seen) && IsAnswer(resolve, refs, calls[i].values)
  }

  predicate Delivers(o: Outside, refs: seq<Assembly.SecretRef>) { AllResolvable(o.resolve, refs) && o.send }

  /** What lets the polling go on after an observation. */
  predicate Passes(run: Run, refs: seq<Assembly.SecretRef>, o: Outside, seen: Option<Observation>) {
    Continues(run, seen) && (Awaits(run, seen.value) ==> Delivers(o, refs))
  }

  /** The first observations let the polling go on. */
  ghost predicate Polled(run: Run, refs: seq<Assembly.SecretRef>, o: Outside, n: nat) {
    forall i :: 0 <= i < n ==> Passes(run, refs, o, o.observe(i))
  }

  /** The execution ends with the terminal proof of this observation. */
  ghost predicate EndsAt(run: Run, refs: seq<Assembly.SecretRef>, o: Outside, k: nat) {
    && (k == 0 || k < o.polls) && Polled(run, refs, o, k)
    && o.observe(k).Some? && Ended(run, o.observe(k).value)
  }

  /** The end of an execution has come. */
  predicate Final(e: Error) { e.NoError? || e.RunFailed? || e.NotRecorded? }

  /** Errors after which the status of the run is not known here. */
  predicate StatusUnknown(e: Error) {
    e.StartUnknown? || e.ObserveUnknown? || e.IdentityMismatch? || e.Disappeared? || e.NotDelivered? || e.Cancelled?
  }

  predicate SameRun(a: Run, b: Run) { a.(status := NotStarted, phase := "") == b.(status := NotStarted, phase := "") }

  lemma NotPast(run: Run, refs: seq<Assembly.SecretRef>, o: Outside, i: nat, k: nat)
    requires !Passes(run, refs, o, o.observe(i)) && i < k
    ensures !Polled(run, refs, o, k)
  {
  }

  lemma NotBefore(run: Run, refs: seq<Assembly.SecretRef>, o: Outside, i: nat, k: nat)
    requires Polled(run, refs, o, i) && k < i
    ensures !EndsAt(run, refs, o, k)
  {
    assert Passes(run, refs, o, o.observe(k));
  }

  lemma NoOtherEnd(run: Run, refs: seq<Assembly.SecretRef>, o: Outside, i: nat)
    requires Polled(run, refs, o, i)
    requires o.observe(i).None? || !Ended(run, o.observe(i).value)
    requires Passes(run, refs, o, o.observe(i)) ==> i + 1 >= o.polls
    ensures forall k: nat :: !EndsAt(run, refs, o, k)
  {
    forall k: nat ensures !EndsAt(run, refs, o, k) {
      if k < i {
        NotBefore(run, refs, o, i, k);
      } else if k > i && !Passes(run, refs, o, o.observe(i)) {
        NotPast(run, refs, o, i, k);
      }
    }
  }

  lemma OnlyEnd(run: Run, refs: seq<Assembly.SecretRef>, o: Outside, i: nat)
    requires EndsAt(run, refs, o, i)
    ensures forall k: nat :: EndsAt(run, refs, o, k) ==> k == i
  {
    forall k: nat | EndsAt(run, refs, o, k) ensures k == i {
      if k < i {
        NotBefore(run, refs, o, i, k);
      } else if k > i {
        NotPast(run, refs, o, i, k);
      }
    }
  }

  /** How the polling ends: with a terminal proof of the run, or with an error. */
  datatype PollEnd = Proven(proof: Proof) | Stopped(error: Error)

  /** Errors of the polling, and what they say about the run. */
  predicate StopOk(run: Run, e: Error) { !Final(e) && (StatusUnknown(e) ==> run.status == Undetermined) }

  ghost predicate ProvenOk(started: Run, run: Run, proof: Proof, calls: seq<TargetCall>) {
    && SameIdentity(started, proof) && Terminal(proof.status) && run.status == proof.status
    && calls != [] && calls[|calls|-1].Observed? && calls[|calls|-1].seen.proof == Some(proof)
  }

  ghost predicate MaySend(run: Run, resolve: string -> Option<string>, refs: seq<Assembly.SecretRef>, calls: seq<TargetCall>,
                          values: seq<SecretValue>)
  {
    && calls != [] && calls[|calls|-1].Observed? && Awaits(run, calls[|calls|-1].seen)
    && IsAnswer(resolve, refs, values) && NothingSent(calls)
  }

  ghost predicate NothingSent(calls: seq<TargetCall>) { forall k :: 0 <= k < |calls| ==> !calls[k].Sent? }

  lemma SentSoFar(calls: seq<TargetCall>, call: TargetCall)
    ensures NothingSent(calls + [call]) <==> NothingSent(calls) && !call.Sent?
  {
    var now := calls + [call];
    assert now[|calls|] == call && forall k :: 0 <= k < |calls| ==> now[k] == calls[k];
  }

  lemma OneMoreCall(run: Run, resolve: string -> Option<string>, refs: seq<Assembly.SecretRef>, calls: seq<TargetCall>, call: TargetCall)
    requires PollCalls(run, resolve, refs, calls) && OfRun(run, call)
    requires call.Sent? ==> MaySend(run, resolve, refs, calls, call.values)
    ensures PollCalls(run, resolve, refs, calls + [call])
  {
    hide IsAnswer, Awaits;
    var now := calls + [call];
    forall i | 0 <= i < |now| && now[i].Sent? ensures SentInTurn(run, resolve, refs, now, i) {
      assert i < |calls| ==> SentInTurn(run, resolve, refs, calls, i);
    }
  }

  /** A proof of the run waits for secrets while neither the lock nor the unit shows the run alive. */
  predicate Stranded(run: Run, seen: Observation) { Awaits(run, seen) && !seen.lockHeld && !seen.unitRunning }

  lemma StrandedIsInterrupted(run: Run, seen: Observation)
    ensures Stranded(run, seen) <==> Awaits(run, seen) && Classify(run, seen).status == Interrupted
  {
  }

  /** Secrets went out although the observation before them shows an interrupted run. */
  ghost predicate SentLate(run: Run, calls: seq<TargetCall>) { exists i :: 0 < i < |calls| && LateAt(run, calls, i) }

  predicate LateAt(run: Run, calls: seq<TargetCall>, i: nat)
    requires 0 < i < |calls|
  {
    calls[i].Sent? && calls[i - 1].Observed? && Classify(run, calls[i - 1].seen).status == Interrupted
  }

  lemma LateSoFar(run: Run, calls: seq<TargetCall>, call: TargetCall)
    ensures SentLate(run, calls + [call]) <==>
      SentLate(run, calls) || (calls != [] && LateAt(run, calls + [call], |calls|))
  {
    var now := calls + [call];
    assert forall i :: 0 < i < |calls| ==> LateAt(run, now, i) == LateAt(run, calls, i);
    if SentLate(run, calls) {
      var i :| 0 < i < |calls| && LateAt(run, calls, i);
      assert LateAt(run, now, i);
    }
  }

  /** One observation: the checks of its identity and presence, and the secrets it waits for. */
  method Examine(started: Run, before: Run, refs: seq<Assembly.SecretRef>, o: Outside, seen: Observation, sent: bool, given: seq<TargetCall>)
    returns (run: Run, stop: Option<Error>, nowSent: bool, calls: seq<TargetCall>)
    requires SameRun(before, started) && PollCalls(started, o.resolve, refs, given) && (NothingSent(given) <==> !sent)
    requires sent ==> Delivers(o, refs)
    ensures SameRun(run, started) && PollCalls(started, o.resolve, refs, calls)
    ensures stop.Some? ==> StopOk(run, stop.value) && !Passes(started, refs, o, Some(seen)) && !Ended(started, seen)
    ensures stop.None? ==> !ForeignProof(started, seen) && !Gone(seen) && run.status == Classify(started, seen).status
    ensures stop.None? ==> (Awaits(started, seen) ==> Delivers(o, refs)) && (nowSent ==> Delivers(o, refs))
    ensures stop.None? ==> (nowSent <==> sent || Awaits(started, seen)) && (NothingSent(calls) <==> !nowSent)
    ensures given < calls && (calls[|calls|-1].Sent? <==> Awaits(started, seen) && !sent && AllResolvable(o.resolve, refs))
    ensures SentLate(started, calls) <==> SentLate(started, given) || (Stranded(started, seen) && !sent && AllResolvable(o.resolve, refs))
    ensures Ended(started, seen) ==> calls == given + [Observed(started.id, seen)]
  {
    hide IsAnswer, PollCalls, AllResolvable, NothingSent, SentLate;
    OneMoreCall(started, o.resolve, refs, given, Observed(before.id, seen));
    SentSoFar(given, Observed(before.id, seen));
    LateSoFar(started, given, Observed(before.id, seen));
    run, stop, nowSent, calls := Classify(before, seen), None, sent, given + [Observed(before.id, seen)];
    if ForeignProof(before, seen) {
      run, stop := before.(status := Undetermined), Some(IdentityMismatch);
    } else if Gone(seen) {
      run, stop := run.(status := Undetermined), Some(Disappeared);
    } else if seen.proof.Some? {
      run := run.(phase := seen.proof.value.phase);
      if !sent && Awaits(before, seen) {
        var values := ResolveSecrets(o.resolve, refs);
        if values.None? {
          stop := Some(NoSecrets);
          return;
        }
        OneMoreCall(started, o.resolve, refs, calls, Sent(run.id, values.value));
        SentSoFar(calls, Sent(run.id, values.value));
        LateSoFar(started, calls, Sent(run.id, values.value));
        calls := calls + [Sent(run.id, values.value)];
        nowSent := o.send;
        if !o.send {
          run, stop := run.(status := Undetermined), Some(NotDelivered);
        }
      }
    }
  }

  /** The loop of `Execute`: it ends with a proof exactly if polling reaches a terminal one. */
  method Poll(started: Run, refs: seq<Assembly.SecretRef>, o: Outside) returns (run: Run, end: PollEnd, calls: seq<TargetCall>)
    ensures PollCalls(started, o.resolve, refs, calls) && SameRun(run, started)
    ensures end.Stopped? ==> StopOk(run, end.error)
    ensures end.Proven? ==> ProvenOk(started, run, end.proof, calls)
    ensures end.Proven? <==> exists k: nat :: EndsAt(started, refs, o, k)
    ensures forall k: nat :: EndsAt(started, refs, o, k) ==> end == Proven(o.observe(k).value.proof.value)
    ensures forall k: nat :: EndsAt(started, refs, o, k) ==> (NothingSent(calls) <==> NeverAwaits(started, o, k))
    ensures SentLate(started, calls) <==> exists k: nat :: StrandsAt(started, refs, o, k)
  {
    hide IsAnswer, PollCalls, Polled, Delivers, NothingSent, NeverAwaits, SentLate, AllResolvable, Stranded;
    run, calls := started.(status := Running), [];
    NoCalls(started, o.resolve, refs);
    var sent, i := false, 0;
    while true
      invariant SameRun(run, started) && (i == 0 || i < o.polls)
      invariant Polled(started, refs, o, i) && (sent ==> Delivers(o, refs))
      invariant PollCalls(started, o.resolve, refs, calls)
      invariant (NothingSent(calls) <==> !sent) && (sent <==> !NeverAwaits(started, o, i))
      invariant !SentLate(started, calls)
      decreases o.polls - i
    {
      var seen := o.observe(i);
      OnlyStrand(started, refs, o, i);
      if seen.None? {
        LateSoFar(started, calls, NotObserved(started.id));
        NoOtherEnd(started, refs, o, i);
        OneMoreCall(started, o.resolve, refs, calls, NotObserved(started.id));
        return run.(status := Undetermined), Stopped(ObserveUnknown), calls + [NotObserved(started.id)];
      }
      StrandedIsInterrupted(started, seen.value);
      var stop;
      run, stop, sent, calls := Examine(started, run, refs, o, seen.value, sent, calls);
      if stop.Some? {
        NoOtherEnd(started, refs, o, i);
        return run, Stopped(stop.value), calls;
      }
      if seen.value.proof.Some? && Terminal(seen.value.proof.value.status) {
        assert EndsAt(started, refs, o, i);
        OnlyEnd(started, refs, o, i);
        return run, Proven(seen.value.proof.value), calls;
      }
      if run.status == Interrupted {
        NoOtherEnd(started, refs, o, i);
        return run, Stopped(WasInterrupted), calls;
      }
      if i + 1 >= o.polls {
        NoOtherEnd(started, refs, o, i);
        return run.(status := Undetermined), Stopped(Cancelled), calls;
      }
      OneMorePoll(started, refs, o, i);
      i := i + 1;
    }
  }

  /** None of the first observations awaits secrets. */
  ghost predicate NeverAwaits(run: Run, o: Outside, n: nat) {
    forall i :: 0 <= i < n ==> o.observe(i).None? || !Awaits(run, o.observe(i).value)
  }

  /** The polling meets a run that waits for its first secrets without being alive. */
  ghost predicate StrandsAt(run: Run, refs: seq<Assembly.SecretRef>, o: Outside, k: nat) {
    && (k == 0 || k < o.polls) && Polled(run, refs, o, k) && NeverAwaits(run, o, k)
    && o.observe(k).Some? && Stranded(run, o.observe(k).value) && AllResolvable(o.resolve, refs)
  }

  function WaitingProof(run: Run): Proof {
    Proof(run.id, run.bundle, run.sha, run.target, Running, "awaiting-secrets", "", "", "")
  }

  /** Polling any run whose secrets can all be resolved sends them to the first observation that shows a
      waiting proof without lock and unit, and to it alone. */
  lemma SecretsAfterInterruption(run: Run, refs: seq<Assembly.SecretRef>, o: Outside)
    requires AllResolvable(o.resolve, refs)
    ensures var seen := Observation(Some(WaitingProof(run)), false, false); var stranded := o.(observe := (i: nat) => Some(seen));
      Classify(run, seen).status == Interrupted && forall k: nat :: StrandsAt(run, refs, stranded, k) <==> k == 0
  {
    var seen := Observation(Some(WaitingProof(run)), false, false);
    var stranded := o.(observe := (i: nat) => Some(seen));
    forall k: nat | k > 0 ensures !StrandsAt(run, refs, stranded, k) {
      assert !Passes(run, refs, stranded, stranded.observe(0));
    }
  }

  lemma StrandsNotBefore(run: Run, refs: seq<Assembly.SecretRef>, o: Outside, i: nat, k: nat)
    requires Polled(run, refs, o, i) && k < i
    ensures !StrandsAt(run, refs, o, k)
  {
    assert Passes(run, refs, o, o.observe(k));
  }

  /** Where the polling stops is the only place at which it can have met one. */
  lemma OnlyStrand(run: Run, refs: seq<Assembly.SecretRef>, o: Outside, i: nat)
    requires Polled(run, refs, o, i)
    ensures (Passes(run, refs, o, o.observe(i)) ==> i + 1 >= o.polls) ==>
      ((exists k: nat :: StrandsAt(run, refs, o, k)) <==> StrandsAt(run, refs, o, i))
  {
    forall k: nat | StrandsAt(run, refs, o, k) ensures k == i || (Passes(run, refs, o, o.observe(i)) && i + 1 < o.polls) {
      if k < i {
        StrandsNotBefore(run, refs, o, i, k);
      } else if k > i {
        assert Passes(run, refs, o, o.observe(i));
      }
    }
  }

  lemma OneMorePoll(run: Run, refs: seq<Assembly.SecretRef>, o: Outside, i: nat)
    requires Polled(run, refs, o, i) && Passes(run, refs, o, o.observe(i))
    ensures Polled(run, refs, o, i + 1)
    ensures NeverAwaits(run, o, i + 1) <==> NeverAwaits(run, o, i) && !Awaits(run, o.observe(i).value)
  {
  }

  lemma NoCalls(run: Run, resolve: string -> Option<string>, refs: seq<Assembly.SecretRef>)
    ensures PollCalls(run, resolve, refs, []) && NothingSent([]) && !SentLate(run, [])
    ensures forall o :: Polled(run, refs, o, 0) && NeverAwaits(run, o, 0)
    ensures SameRun(run.(status := Running), run)
  {
  }

  // ---------- Execution ----------

  ghost function ManifestOf(c: Assembly.Codec, b: Bundle): Option<Assembly.Manifest>
    requires IsSha(c.sha)
  {
    var files := BundleVerify.FilesOf(c, b.bytes);
    if Assembly.MANIFEST_PATH in files then c.decode(files[Assembly.MANIFEST_PATH]) else None
  }

  /** The bundle verifies and is for the target. */
  ghost predicate Runnable(c: Assembly.Codec, target: string, b: Bundle)
    requires IsSha(c.sha)
  {
    && target != "" && ManifestOf(c, b).Some?
    && BundleVerify.Accepted(c, b.id, b.sha, b.bytes, ManifestOf(c, b).value)
    && ManifestOf(c, b).value.identity.targetId == target
  }

  method ValidateBundle(c: Assembly.Codec, target: string, b: Bundle) returns (m: Option<Assembly.Manifest>)
    requires IsSha(c.sha)
    ensures m.Some? <==> Runnable(c, target, b)
    ensures m.Some? ==> m == ManifestOf(c, b)
  {
    if target == "" {
      return None;
    }
    m := BundleVerify.Verify(c, b.id, b.sha, b.bytes);
    if m.Some? && m.value.identity.targetId != target {
      m := None;
    }
  }

  function RunOf(id: string, target: string, b: Bundle, m: Assembly.Manifest): Run {
    Run(id, target, b.id, b.sha, Assembly.KindText(m.identity.kind), m.identity.version, NotStarted, "")
  }

  /** The history when the polling ends. */
  function Meanwhile(s: State, run: Run, o: Outside): State { ChangedAll(AfterRegister(s, run, o.register), o.meanwhile) }

  function StartOf(run: Run): TargetCall { Started(run.id, run.bundle, run.sha, run.target) }

  /** From the upload to the start; the bundle is in the history before the start is asked for. */
  method Launch(store: Store, planned: Run, o: Outside) returns (run: Run, error: Error, calls: seq<TargetCall>)
    requires Inv(store.state) && planned.status == NotStarted
    modifies store
    ensures Inv(store.state) && Grows(old(store.state), store.state)
    ensures error == NoError <==> o.upload && Registers(old(store.state), planned, o.register) && o.start
    ensures error == NoError ==> store.state == Meanwhile(old(store.state), planned, o)
    ensures error in {NoError, NotUploaded, NotRegistered, StartUnknown} && SameRun(run, planned)
    ensures StatusUnknown(error) ==> run.status == Undetermined
    ensures calls == if error in {NoError, StartUnknown} then [Uploaded(planned.bundle), StartOf(planned)] else [Uploaded(planned.bundle)]
    ensures error in {NoError, StartUnknown} ==> Known(store.state, planned)
    ensures NoRecords(o.register.race) && NoRecords(o.meanwhile) ==> store.state.records == old(store.state.records)
  {
    hide Inv, Grows, Registers, AfterRegister, ChangedAll, Known, NoRecords;
    ghost var before := store.state;
    GrowsItself(before);
    run, calls := planned, [Uploaded(planned.bundle)];
    if !o.upload {
      return run, NotUploaded, calls;
    }
    if NoRecords(o.register.race) {
      RegisterKeepsRecords(before, run, o.register);
    }
    var registered := RegisterBundle(store, run, o.register);
    if !registered {
      return run, NotRegistered, calls;
    }
    calls := calls + [StartOf(run)];
    if !o.start {
      return run.(status := Undetermined), StartUnknown, calls;
    }
    ghost var started := store.state;
    CommitAll(store, o.meanwhile);
    GrowsTransitive(before, started, store.state);
    StillKnown(started, store.state, run);
    if NoRecords(o.meanwhile) {
      OtherChanges(started, o.meanwhile);
    }
    return run, NoError, calls;
  }

  lemma GrowsItself(s: State)
    ensures Grows(s, s)
  {
  }

  lemma StillKnown(before: State, after: State, run: Run)
    requires Known(before, run) && Grows(before, after)
    ensures Known(after, run)
  {
  }

  /** What an execution asks of the target: an upload, then one start, then what polling asks. */
  ghost predicate ExecuteCalls(run: Run, resolve: string -> Option<string>, refs: seq<Assembly.SecretRef>, calls: seq<TargetCall>) {
    || calls == [Uploaded(run.bundle)]
    || (|calls| >= 2 && calls[..2] == [Uploaded(run.bundle), StartOf(run)] && PollCalls(run, resolve, refs, calls[2..]))
  }

  function Verdict(s: State, run: Run, proof: Proof, c: Circumstances): Error {
    if !Finishes(s, run, proof, c) then NotRecorded
    else if proof.status == Failed then RunFailed(proof.error) else NoError
  }

  /** The last call observed the terminal proof of the run, and that proof is in the history. */
  ghost predicate EndRecorded(run: Run, calls: seq<TargetCall>, s: State, status: Status) {
    && calls != [] && calls[|calls|-1].Observed? && Ended(run, calls[|calls|-1].seen)
    && calls[|calls|-1].seen.proof.value.status == status && Recorded(s, calls[|calls|-1].seen.proof.value)
  }

  predicate Starts(s: State, planned: Run, o: Outside) { o.upload && Registers(s, planned, o.register) && o.start }

  /** The verdict and the history that the proof seen at the k-th poll leads to. */
  ghost predicate Result(s: State, planned: Run, o: Outside, k: nat, error: Error, after: State)
    requires o.observe(k).Some? && o.observe(k).value.proof.Some?
  {
    var proof := o.observe(k).value.proof.value;
    && error == Verdict(Meanwhile(s, planned, o), planned, proof, o.finish)
    && after == AfterFinish(Meanwhile(s, planned, o), planned, proof, o.finish)
  }

  ghost predicate OthersWriteNoRecords(o: Outside) {
    NoRecords(o.register.race) && NoRecords(o.meanwhile) && NoRecords(o.finish.race)
  }

  /** Nothing new, or the record of the proof seen last. */
  ghost predicate RecordsAfter(before: map<string, RecordRow>, planned: Run, calls: seq<TargetCall>, after: map<string, RecordRow>) {
    after == before || (
      && calls != [] && calls[|calls|-1].Observed? && Ended(planned, calls[|calls|-1].seen) && calls[|calls|-1].run == planned.id
      && planned.id !in before && after == before[planned.id := RecordOf(calls[|calls|-1].seen.proof.value)])
  }

  /** What the target was asked, and what a result without an error or with a failed run means. */
  ghost predicate Honest(planned: Run, refs: seq<Assembly.SecretRef>, o: Outside, after: State, run: Run, error: Error,
                         calls: seq<TargetCall>)
  {
    && SameRun(run, planned) && (StatusUnknown(error) ==> run.status == Undetermined)
    && ExecuteCalls(planned, o.resolve, refs, calls) && (|calls| >= 2 ==> Known(after, planned))
    && (error.NoError? ==> run.status == Success && EndRecorded(planned, calls, after, Success))
    && (error.RunFailed? ==> run.status == Failed && EndRecorded(planned, calls, after, Failed))
  }

  /** The execution comes to its end exactly if it starts and polling reaches a terminal proof, which
      decides the verdict and the record. */
  ghost predicate Decided(planned: Run, refs: seq<Assembly.SecretRef>, o: Outside, before: State, after: State, error: Error) {
    && (Final(error) <==> Starts(before, planned, o) && exists k: nat :: EndsAt(planned, refs, o, k))
    && (forall k: nat :: Starts(before, planned, o) && EndsAt(planned, refs, o, k) ==> Result(before, planned, o, k, error, after))
  }

  /** What an execution answers, does to the history and asks of the target. */
  ghost predicate Carried(planned: Run, refs: seq<Assembly.SecretRef>, o: Outside, before: State, after: State, run: Run,
                          error: Error, calls: seq<TargetCall>)
  {
    && Honest(planned, refs, o, after, run, error, calls) && Decided(planned, refs, o, before, after, error)
    && (OthersWriteNoRecords(o) ==> RecordsAfter(before.records, planned, calls, after.records))
  }

  lemma NotLaunched(planned: Run, refs: seq<Assembly.SecretRef>, o: Outside, before: State, after: State, run: Run, error: Error)
    requires !Starts(before, planned, o) && SameRun(run, planned) && error in {NotUploaded, NotRegistered, StartUnknown}
    requires StatusUnknown(error) ==> run.status == Undetermined
    requires error == StartUnknown ==> Known(after, planned)
    requires OthersWriteNoRecords(o) ==> after.records == before.records
    ensures Carried(planned, refs, o, before, after, run, error,
                    if error == StartUnknown then [Uploaded(planned.bundle), StartOf(planned)] else [Uploaded(planned.bundle)])
  {
    hide Known, PollCalls, EndsAt, SentLate, Registers;
    NoCalls(planned, o.resolve, refs);
    var calls := [Uploaded(planned.bundle), StartOf(planned)];
    assert calls[..2] == calls && calls[2..] == [];
  }

  lemma PollingStopped(planned: Run, refs: seq<Assembly.SecretRef>, o: Outside, before: State, after: State, run: Run, error: Error,
                       polled: seq<TargetCall>)
    requires Starts(before, planned, o) && SameRun(run, planned) && StopOk(run, error) && Known(after, planned)
    requires PollCalls(planned, o.resolve, refs, polled) && forall k: nat :: !EndsAt(planned, refs, o, k)
    requires OthersWriteNoRecords(o) ==> after.records == before.records
    ensures Carried(planned, refs, o, before, after, run, error, [Uploaded(planned.bundle), StartOf(planned)] + polled)
  {
    hide Known, PollCalls, EndsAt, SentLate, Registers;
    var calls := [Uploaded(planned.bundle), StartOf(planned)] + polled;
    assert calls[..2] == [Uploaded(planned.bundle), StartOf(planned)] && calls[2..] == polled;
  }

  ghost predicate ProofAdded(before: map<string, RecordRow>, planned: Run, proof: Proof, after: map<string, RecordRow>) {
    after == before || (planned.id !in before && after == before[planned.id := RecordOf(proof)])
  }

  lemma PollingProved(planned: Run, refs: seq<Assembly.SecretRef>, o: Outside, before: State, launched: State, after: State, run: Run,
                      proof: Proof, polled: seq<TargetCall>)
    requires Starts(before, planned, o) && SameRun(run, planned) && Known(after, planned)
    requires launched == Meanwhile(before, planned, o) && after == AfterFinish(launched, planned, proof, o.finish)
    requires PollCalls(planned, o.resolve, refs, polled) && ProvenOk(planned, run, proof, polled)
    requires exists k: nat :: EndsAt(planned, refs, o, k)
    requires forall k: nat :: EndsAt(planned, refs, o, k) ==> o.observe(k).value.proof.value == proof
    requires Verdict(launched, planned, proof, o.finish) != NotRecorded ==> Recorded(after, proof)
    requires OthersWriteNoRecords(o) ==> ProofAdded(before.records, planned, proof, after.records)
    ensures Carried(planned, refs, o, before, after, run, Verdict(launched, planned, proof, o.finish),
                    [Uploaded(planned.bundle), StartOf(planned)] + polled)
  {
    hide Known, PollCalls, Recorded, Finishes, AfterFinish, Meanwhile, SentLate, Polled, Registers, NoRecords;
    var calls := [Uploaded(planned.bundle), StartOf(planned)] + polled;
    assert calls[..2] == [Uploaded(planned.bundle), StartOf(planned)] && calls[2..] == polled;
    assert calls[|calls|-1] == polled[|polled|-1];
    LastIsOfRun(planned, o.resolve, refs, polled);
  }

  /** From the upload to the end. */
  method Carry(store: Store, planned: Run, refs: seq<Assembly.SecretRef>, o: Outside)
    returns (run: Run, error: Error, calls: seq<TargetCall>)
    requires Inv(store.state) && planned.status == NotStarted
    modifies store
    ensures Inv(store.state) && Grows(old(store.state), store.state)
    ensures Carried(planned, refs, o, old(store.state), store.state, run, error, calls)
  {
    hide Inv, Grows, Registers, Known, NoRecords, PollCalls, EndsAt, Finishes, AfterFinish, Meanwhile, NothingSent, NeverAwaits,
      StrandsAt, SentLate, Recorded, Carried, ProvenOk, ProofAdded, Verdict, StopOk;
    ghost var before := store.state;
    run, error, calls := Launch(store, planned, o);
    if error != NoError {
      NotLaunched(planned, refs, o, before, store.state, run, error);
      return;
    }
    var end, polled;
    ghost var launched := store.state;
    run, end, polled := Poll(planned, refs, o);
    calls := calls + polled;
    if end.Stopped? {
      PollingStopped(planned, refs, o, before, launched, run, end.error, polled);
      return run, end.error, calls;
    }
    error := Conclude(store, planned, run, end.proof, o.finish);
    GrowsTransitive(before, launched, store.state);
    StillKnown(launched, store.state, planned);
    PollingProved(planned, refs, o, before, launched, store.state, run, end.proof, polled);
  }

  /** What `finish` makes of the terminal proof. */
  method Conclude(store: Store, planned: Run, run: Run, proof: Proof, c: Circumstances) returns (error: Error)
    requires Inv(store.state) && SameRun(run, planned)
    modifies store
    ensures Inv(store.state) && Grows(old(store.state), store.state)
    ensures error == Verdict(old(store.state), planned, proof, c) && store.state == AfterFinish(old(store.state), planned, proof, c)
    ensures error != NotRecorded ==> Recorded(store.state, proof)
    ensures NoRecords(c.race) ==> ProofAdded(old(store.state.records), planned, proof, store.state.records)
  {
    hide Inv, Grows, NoRecords, Finishes, AfterFinish, Recorded;
    SameFinish(planned, run, store.state, proof, c);
    if NoRecords(c.race) {
      FinishAddsProof(store.state, planned, proof, c);
    }
    var recorded := Finished(store, run, proof, c);
    error := if !recorded then NotRecorded else if proof.status == Failed then RunFailed(proof.error) else NoError;
  }

  lemma LastIsOfRun(run: Run, resolve: string -> Option<string>, refs: seq<Assembly.SecretRef>, calls: seq<TargetCall>)
    requires PollCalls(run, resolve, refs, calls) && calls != []
    ensures OfRun(run, calls[|calls|-1])
  {
  }

  lemma SameFinish(a: Run, b: Run, s: State, proof: Proof, c: Circumstances)
    requires SameRun(a, b)
    ensures Finishes(s, a, proof, c) == Finishes(s, b, proof, c) && AfterFinish(s, a, proof, c) == AfterFinish(s, b, proof, c)
  {
    hide Appends, AfterAppend;
  }

  /** The run that is to be executed, unless the bundle is refused or no ID can be allocated. */
  ghost function Planned(c: Assembly.Codec, target: string, b: Bundle, runId: Option<string>): (r: Option<Run>)
    requires IsSha(c.sha)
    ensures r.Some? ==> runId == Some(r.value.id) && r.value.status == NotStarted && ManifestOf(c, b).Some?
  {
    if Runnable(c, target, b) && runId.Some? then Some(RunOf(runId.value, target, b, ManifestOf(c, b).value)) else None
  }

  method Execute(store: Store, c: Assembly.Codec, target: string, b: Bundle, runId: Option<string>, o: Outside)
    returns (run: Run, error: Error, calls: seq<TargetCall>)
    requires IsSha(c.sha) && Inv(store.state)
    modifies store
    ensures Inv(store.state) && Grows(old(store.state), store.state)
    ensures var planned := Planned(c, target, b, runId);
      if planned.None? then !Final(error) && calls == [] && store.state == old(store.state)
      else var refs := ManifestOf(c, b).value.secrets;
        Carried(planned.value, refs, o, old(store.state), store.state, run, error, calls)
  {
    hide Inv, Grows, Runnable, ManifestOf, Carried;
    run, calls := Run("", "", "", "", "", "", NotStarted, ""), [];
    GrowsItself(store.state);
    var m := ValidateBundle(c, target, b);
    if m.None? {
      return run, BadBundle, calls;
    }
    if runId.None? {
      return run, NoRunId, calls;
    }
    run, error, calls := Carry(store, RunOf(runId.value, target, b, m.value), m.value.secrets, o);
  }

  // ---------- Reconciliation ----------

  function Reconciled(target: string, id: string, bundle: string, sha: string): Run {
    Run(id, target, bundle, sha, "", "", Undetermined, "")
  }

  predicate Complete(run: Run) { run.id != "" && run.target != "" && run.bundle != "" && run.sha != "" }

  /** One observation, and no other question to the target: it neither starts nor sends. */
  method Reconcile(store: Store, target: string, id: string, bundle: string, sha: string, seen: Option<Observation>, finish: Circumstances)
    returns (run: Run, ok: bool, calls: seq<TargetCall>)
    requires Inv(store.state)
    modifies store
    ensures var planned := Reconciled(target, id, bundle, sha);
      && calls == (if !Complete(planned) then [] else if seen.None? then [NotObserved(id)] else [Observed(id, seen.value)])
      && (ok <==> Complete(planned) && seen.Some? && !ForeignProof(planned, seen.value) &&
                  (Ended(planned, seen.value) ==> Finishes(old(store.state), planned, seen.value.proof.value, finish)))
      && (ok ==> run.status == Classify(planned, seen.value).status)
      && store.state == (if Complete(planned) && seen.Some? && Ended(planned, seen.value)
                         then AfterFinish(old(store.state), planned, seen.value.proof.value, finish) else old(store.state))
      && (NoRecords(finish.race) ==> RecordsAfter(old(store.state).records, planned, calls, store.state.records))
    ensures Inv(store.state) && Grows(old(store.state), store.state)
  {
    hide Inv, Grows, Finishes, AfterFinish, NoRecords;
    var planned := Reconciled(target, id, bundle, sha);
    GrowsItself(store.state);
    run, ok, calls := planned, false, [];
    if !Complete(planned) {
      return;
    }
    if seen.None? {
      calls := [NotObserved(id)];
      return;
    }
    calls := [Observed(id, seen.value)];
    if ForeignProof(planned, seen.value) {
      return;
    }
    if seen.value.proof.Some? {
      run := run.(phase := seen.value.proof.value.phase);
    }
    run := Classify(run, seen.value);
    ok := true;
    if seen.value.proof.Some? && Terminal(seen.value.proof.value.status) {
      SameFinish(planned, run, store.state, seen.value.proof.value, finish);
      if NoRecords(finish.race) {
        FinishAddsProof(store.state, planned, seen.value.proof.value, finish);
      }
      ok := Finished(store, run, seen.value.proof.value, finish);
    }
  }
}
