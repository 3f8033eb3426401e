/** A bundle does not depend on the order in which a request lists its modules, nor on the order in which
    the observed hashes of a module are iterated; and it exists only if no two dependencies share a
    relationship. */
module ModuleOrder {
  import opened Prelude
  import opened Ordering
  import opened Modules
  import opened LinkNets
  import opened Claims
  import opened Artifacts
  import opened Plan
  import opened Compiler
  import Assembly
  import BundleVerify
  import BundleStore
  import PreparedRun
  import Relationships

  // ---------- The order of desired modules ----------

  lemma EachReordered(t: Tools, coreContract: string, ds: seq<Desired>, es: seq<Desired>)
    requires IsPermutation(ds, es) && AllCompile(t, coreContract, ds)
    ensures AllCompile(t, coreContract, es)
    ensures IsPermutation(CompileEach(t, coreContract, ds), CompileEach(t, coreContract, es))
  {
    hide CompileOne;
    PermutationMembers(ds, es);
    forall i | 0 <= i < |es| ensures CompileOne(t, coreContract, es[i]).Some? {
      assert es[i] in ds;
    }
    if ds != [] {
      var some := CompileOne(t, coreContract, ds[0]).value;
      var f := (d: Desired) => if CompileOne(t, coreContract, d).Some? then CompileOne(t, coreContract, d).value else some;
      assert CompileEach(t, coreContract, ds) == Mapped(ds, f);
      assert CompileEach(t, coreContract, es) == Mapped(es, f);
      MappedPermutation(ds, es, f);
    }
  }

  lemma InstancesDetermine(t: Tools, coreContract: string, ds: seq<Desired>)
    requires AllCompile(t, coreContract, ds) && DistinctDesired(ds)
    ensures KeyDetermines(CompileEach(t, coreContract, ds), InstanceKey)
  {
    hide CompileOne;
    var cs := CompileEach(t, coreContract, ds);
    forall x, y | x in cs && y in cs && InstanceKey(x) == InstanceKey(y) ensures x == y {
      assert InstanceKey(x)[0] == InstanceKey(y)[0];
      var i :| 0 <= i < |cs| && cs[i] == x;
      var j :| 0 <= j < |cs| && cs[j] == y;
      assert i < j || i == j || j < i;
    }
  }

  /** Sorting by instance ID makes up for the order of the request. */
  lemma CompiledReordered(t: Tools, coreContract: string, ds: seq<Desired>, es: seq<Desired>)
    requires IsPermutation(ds, es) && DistinctDesired(ds)
    ensures CompiledModules(t, coreContract, ds) == CompiledModules(t, coreContract, es)
  {
    hide CompileOne;
    if AllCompile(t, coreContract, ds) {
      EachReordered(t, coreContract, ds, es);
      InstancesDetermine(t, coreContract, ds);
      SortOfPermutation(CompileEach(t, coreContract, ds), CompileEach(t, coreContract, es), InstanceKey);
    } else if AllCompile(t, coreContract, es) {
      EachReordered(t, coreContract, es, ds);
    }
  }

  lemma StillValidRequest(a: PrepareRequest, b: PrepareRequest)
    requires IsPermutation(a.desired, b.desired) && b == a.(desired := b.desired) && ValidRequest(a)
    ensures ValidRequest(b)
  {
    PermutationMembers(a.desired, b.desired);
    PairwiseReordered(a.desired, b.desired, (d: Desired, e: Desired) => d.instanceId != e.instanceId);
  }

  /** Once the modules are compiled, the request's own list is not looked at again. */
  lemma PlannedAlone(t: Tools, a: PrepareRequest, b: PrepareRequest)
    requires t.env.Valid() && b == a.(desired := b.desired)
    ensures forall cs, detached :: Planned(t, a, cs, detached) == Planned(t, b, cs, detached)
    ensures forall cs :: DetachedSubject(t, a, cs) == DetachedSubject(t, b, cs)
  {
    hide NoCollision, DerivedLinks, GeneratedArtifacts, PlanOf, UpdateActions, Required, SecretsBound, ResolvedImages;
  }

  lemma InputAlone(t: Tools, a: PrepareRequest, b: PrepareRequest, d: Draft)
    requires b == a.(desired := b.desired)
    ensures InputOf(t, a, d) == InputOf(t, b, d)
  {
    hide Preconditions, AllImages, SecretRefs, Validations;
  }

  lemma SameValidity(a: PrepareRequest, b: PrepareRequest)
    requires IsPermutation(a.desired, b.desired) && b == a.(desired := b.desired)
    ensures ValidRequest(a) <==> ValidRequest(b)
  {
    if ValidRequest(a) {
      StillValidRequest(a, b);
    } else if ValidRequest(b) {
      StillValidRequest(b, a);
    }
  }

  /** What a request compiles to is the same for every order of its desired modules. */
  lemma DesiredReordered(t: Tools, a: PrepareRequest, b: PrepareRequest)
    requires t.env.Valid() && IsPermutation(a.desired, b.desired) && b == a.(desired := b.desired)
    ensures DraftOf(t, a) == DraftOf(t, b)
  {
    SameValidity(a, b);
    if ValidRequest(a) {
      CompiledReordered(t, a.coreContract, a.desired, b.desired);
    }
    hide CompiledModules, Planned, DetachedSubject, ValidRequest, FindCompiled;
    PlannedAlone(t, a, b);
  }

  // ---------- The order in which observed hashes are iterated ----------

  /** Observed modules that differ at most in the order of their hashes. */
  ghost predicate SameModule(o: ObservedModule, p: ObservedModule) {
    IsPermutation(o.artifacts, p.artifacts) && o.(artifacts := []) == p.(artifacts := [])
  }

  ghost predicate SameObserved(xs: seq<ObservedModule>, ys: seq<ObservedModule>) {
    |xs| == |ys| && forall i :: 0 <= i < |xs| ==> SameModule(xs[i], ys[i])
  }

  lemma {:induction false} FoundAlike(xs: seq<ObservedModule>, ys: seq<ObservedModule>, instance: string)
    requires SameObserved(xs, ys)
    ensures FindObserved(xs, instance).Some? <==> FindObserved(ys, instance).Some?
    ensures FindObserved(xs, instance).Some? ==> SameModule(FindObserved(xs, instance).value, FindObserved(ys, instance).value)
    ensures ObservedVersion(xs, instance) == ObservedVersion(ys, instance)
    decreases |xs|
  {
    if xs != [] {
      assert SameModule(xs[0], ys[0]);
      FoundAlike(xs[1..], ys[1..], instance);
    }
  }

  lemma ModulePreconditionsReordered(o: ObservedModule, p: ObservedModule)
    requires SameModule(o, p)
    ensures IsPermutation(ModulePreconditions(o), ModulePreconditions(p))
  {
    var f := (hash: (string, string)) => Precondition("artifact-sha256", hash.0, hash.1);
    assert ArtifactPreconditions(o.artifacts) == Mapped(o.artifacts, f);
    assert ArtifactPreconditions(p.artifacts) == Mapped(p.artifacts, f);
    MappedPermutation(o.artifacts, p.artifacts, f);
  }

  lemma {:induction false} PreconditionsReordered(xs: seq<ObservedModule>, ys: seq<ObservedModule>)
    requires SameObserved(xs, ys)
    ensures IsPermutation(ObservedPreconditions(xs), ObservedPreconditions(ys))
    decreases |xs|
  {
    if xs != [] {
      var last := |xs| - 1;
      assert SameModule(xs[last], ys[last]);
      PreconditionsReordered(xs[..last], ys[..last]);
      ModulePreconditionsReordered(xs[last], ys[last]);
    }
  }

  lemma PlannedFromObserved(t: Tools, a: PrepareRequest, b: PrepareRequest, cs: seq<Compiled>, detached: Option<Compiled>)
    requires t.env.Valid() && SameObserved(a.plan.observed, b.plan.observed)
    requires b == a.(plan := a.plan.(observed := b.plan.observed))
    ensures Planned(t, a, cs, detached) == Planned(t, b, cs, detached)
  {
    hide NoCollision, DerivedLinks, GeneratedArtifacts, FindModule, AppendUpdates, AppendAction, Required, SameModule;
    FoundAlike(a.plan.observed, b.plan.observed, a.plan.subject);
    assert UpdateActions(a.plan, ModulesOf(cs)) == UpdateActions(b.plan, ModulesOf(cs));
    RemovableAlike(a, b, ModulesOf(cs));
  }

  lemma RemovableAlike(a: PrepareRequest, b: PrepareRequest, mods: seq<Module>)
    requires SameObserved(a.plan.observed, b.plan.observed) && b == a.(plan := a.plan.(observed := b.plan.observed))
    ensures Removable(a, mods) == Removable(b, mods)
  {
    hide Required;
    FoundAlike(a.plan.observed, b.plan.observed, a.plan.subject);
  }

  lemma DetachedFromObserved(t: Tools, a: PrepareRequest, b: PrepareRequest, cs: seq<Compiled>)
    requires SameObserved(a.plan.observed, b.plan.observed) && b == a.(plan := a.plan.(observed := b.plan.observed))
    ensures DetachedSubject(t, a, cs) == DetachedSubject(t, b, cs)
  {
    hide SecretsBound, ResolvedImages;
    FoundAlike(a.plan.observed, b.plan.observed, a.plan.subject);
  }

  lemma ObservedReordered(t: Tools, a: PrepareRequest, b: PrepareRequest)
    requires t.env.Valid() && SameObserved(a.plan.observed, b.plan.observed)
    requires b == a.(plan := a.plan.(observed := b.plan.observed))
    ensures DraftOf(t, a) == DraftOf(t, b)
  {
    hide CompiledModules, Planned, DetachedSubject, FindCompiled, SameObserved;
    var cs := CompiledModules(t, a.coreContract, a.desired);
    if cs.Some? {
      DetachedFromObserved(t, a, b, cs.value);
      var detached := DetachedSubject(t, a, cs.value);
      if detached.Some? {
        PlannedFromObserved(t, a, b, cs.value, detached.value);
      }
    }
  }

  lemma OnlyPreconditionsDiffer(t: Tools, a: PrepareRequest, b: PrepareRequest, d: Draft)
    requires SameObserved(a.plan.observed, b.plan.observed) && b == a.(plan := a.plan.(observed := b.plan.observed))
    ensures InputOf(t, b, d) == InputOf(t, a, d).(preconditions := Preconditions(b.plan))
  {
    hide AllImages, SecretRefs, Validations, FindCompiled, Preconditions, SameObserved;
    FoundAlike(a.plan.observed, b.plan.observed, a.plan.subject);
  }

  lemma PreconditionsOnly(inp: Assembly.Input, pres: seq<Precondition>)
    requires IsPermutation(inp.preconditions, pres)
    ensures BundleStore.SameUpToOrder(inp, inp.(preconditions := pres))
    ensures BundleStore.KeysDetermine(inp, inp.(preconditions := pres))
  {
  }

  lemma InputReordered(t: Tools, a: PrepareRequest, b: PrepareRequest, d: Draft)
    requires SameObserved(a.plan.observed, b.plan.observed) && b == a.(plan := a.plan.(observed := b.plan.observed))
    ensures BundleStore.SameUpToOrder(InputOf(t, a, d), InputOf(t, b, d))
    ensures BundleStore.KeysDetermine(InputOf(t, a, d), InputOf(t, b, d))
  {
    OnlyPreconditionsDiffer(t, a, b, d);
    PreconditionsReordered(a.plan.observed, b.plan.observed);
    assert InputOf(t, a, d).preconditions == Preconditions(a.plan);
    assert IsPermutation(Preconditions(a.plan), Preconditions(b.plan));
    hide InputOf, SameObserved, Preconditions, BundleStore.SameUpToOrder, BundleStore.KeysDetermine;
    PreconditionsOnly(InputOf(t, a, d), Preconditions(b.plan));
  }

  // ---------- The paths of a prepared bundle ----------

  lemma GeneratedPathsStart(c: Content, mods: seq<Module>, links: seq<Link>)
    ensures forall a :: a in GeneratedArtifacts(c, mods, links) ==> a.path != "" && a.path[0] == 'a'
  {
    PreparedRun.GeneratedPlaces(c, mods, links);
    forall a | a in GeneratedArtifacts(c, mods, links) ensures a.path != "" && a.path[0] == 'a' {
      var p :| a == Make(c, p);
    }
  }

  lemma ActionPathsStart(t: Tools, q: PrepareRequest, mods: seq<Module>, artifacts: seq<Artifact>, updates: seq<string>)
    requires PlanOf(t.base, q.plan, mods, artifacts, updates).Ok?
    ensures forall f :: f in PlanOf(t.base, q.plan, mods, artifacts, updates).value.files ==> f.path != "" && f.path[0] == 'a'
  {
    PlanSteps(t.base, q.plan, mods, artifacts, updates);
  }

  /** Nothing that `Prepare` puts into a bundle has one of the names that assembly adds, or is "..". */
  lemma PreparedUnreserved(t: Tools, q: PrepareRequest)
    requires t.env.Valid() && DraftOf(t, q).Some?
    ensures var inp := InputOf(t, q, DraftOf(t, q).value);
      BundleVerify.Unreserved(inp.files + inp.actions) && BundleVerify.NoDots(inp.files + inp.actions)
  {
    var d := DraftOf(t, q).value;
    var mods := ModulesOf(d.modules);
    GeneratedPathsStart(ContentOf(t, d.modules, d.links), mods, d.links);
    ActionPathsStart(t, q, mods, d.artifacts, UpdateActions(q.plan, mods).value);
    hide GeneratedArtifacts, PlanOf, UpdateActions, CompiledModules, DetachedSubject;
    StartsUnreserved(d.artifacts, d.plan.files);
  }

  lemma StartsUnreserved(artifacts: seq<Artifact>, files: seq<ActionFile>)
    requires forall a :: a in artifacts ==> a.path != "" && a.path[0] == 'a'
    requires forall f :: f in files ==> f.path != "" && f.path[0] == 'a'
    ensures BundleVerify.Unreserved(BundleFiles(artifacts) + ScriptFiles(files))
    ensures BundleVerify.NoDots(BundleFiles(artifacts) + ScriptFiles(files))
  {
    var all := BundleFiles(artifacts) + ScriptFiles(files);
    assert Assembly.MANIFEST_PATH[0] == 'm' && Assembly.RUNNER_PATH[0] == 'r';
    assert forall i :: 0 <= i < |artifacts| ==> artifacts[i] in artifacts;
    assert forall i :: 0 <= i < |files| ==> files[i] in files;
  }

  // ---------- The main result ----------

  /** Requests that differ in the order of their modules and of observed hashes. */
  ghost predicate SameButOrder(a: PrepareRequest, b: PrepareRequest) {
    && IsPermutation(a.desired, b.desired) && SameObserved(a.plan.observed, b.plan.observed)
    && b == a.(desired := b.desired, plan := a.plan.(observed := b.plan.observed))
  }

  lemma SameBundle(t: Tools, a: PrepareRequest, b: PrepareRequest)
    requires t.Valid() && SameButOrder(a, b) && PreparedBundle(t, a).Some?
    ensures DraftOf(t, a) == DraftOf(t, b) && PreparedBundle(t, b) == PreparedBundle(t, a)
  {
    hide DraftOf, InputOf, SameObserved, Assembly.InputOk, Assembly.AssembledBundle, BundleVerify.Unreserved;
    var m := a.(desired := b.desired);
    DesiredReordered(t, a, m);
    ObservedReordered(t, m, b);
    var d := DraftOf(t, a).value;
    InputAlone(t, a, m, d);
    InputReordered(t, m, b, d);
    PreparedUnreserved(t, a);
    BundleStore.OrderIndependent(t.codec, InputOf(t, a, d), InputOf(t, b, d));
  }

  lemma OtherWayRound(a: PrepareRequest, b: PrepareRequest)
    requires SameButOrder(a, b)
    ensures SameButOrder(b, a)
  {
    forall i | 0 <= i < |b.plan.observed| ensures SameModule(b.plan.observed[i], a.plan.observed[i]) {
      assert SameModule(a.plan.observed[i], b.plan.observed[i]);
    }
  }

  /** Two requests that differ in the order of their modules and of observed hashes compile to the same
      modules, links, artifacts and steps, and lead to the same bundle with the same ID, or are both refused. */
  lemma OrderIrrelevant(t: Tools, a: PrepareRequest, b: PrepareRequest)
    requires t.Valid() && SameButOrder(a, b)
    ensures DraftOf(t, a) == DraftOf(t, b) && PreparedBundle(t, a) == PreparedBundle(t, b)
  {
    hide DraftOf, PreparedBundle, SameObserved;
    DesiredReordered(t, a, a.(desired := b.desired));
    ObservedReordered(t, a.(desired := b.desired), b);
    OtherWayRound(a, b);
    if PreparedBundle(t, a).Some? {
      SameBundle(t, a, b);
    } else if PreparedBundle(t, b).Some? {
      SameBundle(t, b, a);
    }
  }

  // ---------- Shared relationships are refused ----------

  lemma SharedNamesRefused(c: Content, mods: seq<Module>, links: seq<Link>, actions: seq<Assembly.File>)
    requires Assembly.FilesOk(BundleFiles(GeneratedArtifacts(c, mods, links)), actions)
    ensures DistinctPaths(GeneratedArtifacts(c, mods, links))
  {
    var xs := GeneratedArtifacts(c, mods, links);
    var all := BundleFiles(xs) + actions;
    forall i, j | 0 <= i < j < |xs| ensures xs[i].path != xs[j].path {
      assert all[i].path == xs[i].path && all[j].path == xs[j].path;
      assert Assembly.MembersOf(all)[i].0 != Assembly.MembersOf(all)[j].0;
    }
    PreparedRun.GeneratedTargetsDistinct(c, mods, links);
  }

  /** Files generated for links that share a relationship are refused by the duplicate-path check. */
  lemma SharedRelationshipRefused(env: Env, c: Content, mods: seq<Module>, observed: seq<ObservedNetwork>, actions: seq<Assembly.File>)
    requires env.Valid() && DerivedLinks(env, mods, observed).Ok? && !Unambiguous(mods)
    ensures !Assembly.FilesOk(BundleFiles(GeneratedArtifacts(c, mods, DerivedLinks(env, mods, observed).value)), actions)
  {
    var links := DerivedLinks(env, mods, observed).value;
    RelationshipsExactly(env, mods, observed);
    hide Unambiguous, DerivedLinks, GeneratedArtifacts, Assembly.FilesOk;
    var i, j :| 0 <= i < j < |links| && links[i].relationship == links[j].relationship;
    NamedByRelationship(env, mods, observed, links[i]);
    NamedByRelationship(env, mods, observed, links[j]);
    RepeatedRelationshipCollides(c, mods, links, i, j);
    if Assembly.FilesOk(BundleFiles(GeneratedArtifacts(c, mods, links)), actions) {
      SharedNamesRefused(c, mods, links, actions);
      SortedStillCollides(c, mods, links);
    }
  }

  lemma NamedByRelationship(env: Env, mods: seq<Module>, observed: seq<ObservedNetwork>, l: Link)
    requires env.Valid() && DerivedLinks(env, mods, observed).Ok? && l in DerivedLinks(env, mods, observed).value
    ensures l.name == LinkName(env, l.relationship)
  {
    var st := FinalDerivation(env, mods, observed);
    assert LinkHolds(env, st.held, l);
  }

  lemma SortedStillCollides(c: Content, mods: seq<Module>, links: seq<Link>)
    requires DistinctPaths(GeneratedArtifacts(c, mods, links))
    ensures DistinctPaths(RawArtifacts(c, mods, links))
  {
    SortSorts(RawArtifacts(c, mods, links), PathKey);
    DistinctPathsReordered(GeneratedArtifacts(c, mods, links), RawArtifacts(c, mods, links));
  }

  /** Whatever `Prepare` puts into a bundle comes from modules whose dependencies all have their own
      relationship. */
  lemma PreparedIsUnambiguous(t: Tools, q: PrepareRequest)
    requires t.Valid() && PreparedBundle(t, q).Some?
    ensures Unambiguous(ModulesOf(DraftOf(t, q).value.modules))
  {
    hide Unambiguous, GeneratedArtifacts, PlanOf, UpdateActions, CompiledModules, DetachedSubject, DerivedLinks;
    var d := DraftOf(t, q).value;
    if !Unambiguous(ModulesOf(d.modules)) {
      SharedRelationshipRefused(t.env, ContentOf(t, d.modules, d.links), ModulesOf(d.modules), q.networks, ScriptFiles(d.plan.files));
    }
  }

  /** The four instance IDs that pass every check before assembly are refused by it. */
  lemma AmbiguousRefused(env: Env, c: Content, actions: seq<Assembly.File>)
    requires env.Valid()
    ensures Relationships.Compiled(env, Relationships.AMBIGUOUS, [], [])
    ensures !Assembly.FilesOk(BundleFiles(GeneratedArtifacts(c, Relationships.AMBIGUOUS,
                                                            DerivedLinks(env, Relationships.AMBIGUOUS, []).value)), actions)
  {
    hide Relationships.AMBIGUOUS, Unambiguous;
    Relationships.AmbiguousCompiles(env);
    RelationshipsExactly(env, Relationships.AMBIGUOUS, []);
    SharedRelationshipRefused(env, c, Relationships.AMBIGUOUS, [], actions);
  }
}
