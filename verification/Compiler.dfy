/** From a request to the input of bundle assembly (`internal/deployment/compiler.go`, with
    `validation.go`, `transitions.go`, `freeze.go`, `helpers.go` and `action_scope.go`). */
module Compiler {
  import opened Prelude
  import opened Ordering
  import opened Text
  import opened Modules
  import opened LinkNets
  import opened Claims
  import opened Artifacts
  import opened Plan
  import Assembly
  import BundleStore

  // ---------- Requests and compiled modules ----------

  datatype Resources = Resources(memory: int, cpu: int, pids: int, tasks: int)

  /** A source with the files of its package. */
  datatype FrozenSource = FrozenSource(instanceId: string, sourceId: string, packageId: string, gitCommit: string,
                                       packageSha: string, package: string)

  datatype Desired = Desired(instanceId: string, source: FrozenSource, secretIds: map<string, string>, resources: Resources)

  datatype Secret = Secret(id: string, name: string, path: string, delivery: string, containers: seq<string>)

  /** A module contract: what is compiled, planned and claimed, and everything else that texts are made of. */
  datatype Contract = Contract(
    id: string,
    version: string,
    coreContract: string,
    containers: seq<string>,
    networks: seq<string>,
    storagePaths: seq<string>,
    hostnames: seq<string>,
    interfaces: seq<Interface>,
    dependencies: seq<Dependency>,
    actions: map<string, string>,
    actionFiles: map<string, string>,
    validationAction: string,
    updateFrom: map<string, seq<string>>,
    secrets: seq<Secret>,
    images: map<string, string>,
    resources: Resources,
    details: string)

  datatype Compiled = Compiled(desired: Desired, contract: Contract, images: map<string, string>, effective: Resources)

  datatype PrepareRequest = PrepareRequest(
    plan: Request,
    observedTarget: string,
    desired: seq<Desired>,
    networks: seq<ObservedNetwork>,
    claims: seq<ObservedClaim>,
    coreContract: string,
    coreSource: Assembly.Source,
    backupRequired: bool,
    subjectSource: Option<FrozenSource>,
    subjectSecretIds: map<string, string>)

  datatype ModulePost = ModulePost(instanceId: string, moduleId: string, version: string, packageSha: string, images: map<string, string>)

  /** The expected post-state of a target. */
  datatype PostDoc = PostDoc(targetId: string, modules: seq<ModulePost>, artifacts: map<string, string>)

  /** What the compiler works with: the contract compiler, the registry, hashing and network prefixes,
      `path.Base`, the texts of generated files, the bundle format and the JSON form of post-states. */
  datatype Tools = Tools(compile: string -> Option<Contract>, resolve: string -> Option<string>, env: Env, base: string -> string,
                         text: (seq<Compiled>, seq<Link>, string) -> string, codec: Assembly.Codec,
                         encodePost: PostDoc -> string, decodePost: string -> Option<PostDoc>) {
    ghost predicate Valid() {
      env.Valid() && codec.Valid() && forall d :: decodePost(encodePost(d)) == Some(d)
    }
  }

  /** The secrets of a module that its claims name. */
  function BoundSecrets(c: Compiled): seq<string> {
    Mapped(c.contract.secrets, (s: Secret) => if s.id in c.desired.secretIds then c.desired.secretIds[s.id] else "")
  }

  /** The part of a compiled module that links, claims, artifacts and plans depend on. */
  function ModuleOf(c: Compiled): Module {
    var k := c.contract;
    Module(c.desired.instanceId, k.id, k.version, c.desired.source.packageSha, k.containers, k.networks, k.storagePaths, k.hostnames,
           BoundSecrets(c), k.interfaces, k.dependencies, k.actions, k.actionFiles, k.validationAction, k.updateFrom)
  }

  function ModulesOf(cs: seq<Compiled>): seq<Module> { Mapped(cs, ModuleOf) }

  // ---------- Checks of a request ----------

  predicate DistinctDesired(ds: seq<Desired>) { forall i, j :: 0 <= i < j < |ds| ==> ds[i].instanceId != ds[j].instanceId }

  predicate ConsistentDesired(d: Desired) {
    d.instanceId != "" && (d.source.instanceId == "" || d.source.instanceId == d.instanceId)
  }

  predicate ValidRequest(q: PrepareRequest) {
    && !Blank(q.plan.targetId) && !Blank(q.plan.subject) && (q.observedTarget == "" || q.observedTarget == q.plan.targetId)
    && (forall d :: d in q.desired ==> ConsistentDesired(d)) && DistinctDesired(q.desired)
  }

  method ValidateRequest(q: PrepareRequest) returns (ok: bool)
    ensures ok <==> ValidRequest(q)
  {
    if Blank(q.plan.targetId) || Blank(q.plan.subject) || (q.observedTarget != "" && q.observedTarget != q.plan.targetId) {
      return false;
    }
    var seen: set<string> := {};
    for i := 0 to |q.desired|
      invariant forall k :: 0 <= k < i ==> ConsistentDesired(q.desired[k]) && q.desired[k].instanceId in seen
      invariant forall id :: id in seen ==> exists k :: 0 <= k < i && q.desired[k].instanceId == id
      invariant DistinctDesired(q.desired[..i])
    {
      if !ConsistentDesired(q.desired[i]) || q.desired[i].instanceId in seen {
        return false;
      }
      seen := seen + {q.desired[i].instanceId};
    }
    assert q.desired[..|q.desired|] == q.desired;
    return true;
  }

  /** Every declared secret is bound, and nothing else. */
  predicate SecretsBound(secrets: seq<Secret>, bound: map<string, string>) {
    && (forall s :: s in secrets ==> s.id in bound && !Blank(bound[s.id]))
    && (forall id :: id in bound ==> Declares(secrets, id))
  }

  predicate Declares(secrets: seq<Secret>, id: string) { exists i :: 0 <= i < |secrets| && secrets[i].id == id }

  method ValidateSecretBindings(secrets: seq<Secret>, bound: map<string, string>) returns (ok: bool)
    ensures ok <==> SecretsBound(secrets, bound)
  {
    for i := 0 to |secrets|
      invariant forall k :: 0 <= k < i ==> secrets[k].id in bound && !Blank(bound[secrets[k].id])
    {
      if secrets[i].id !in bound || Blank(bound[secrets[i].id]) {
        return false;
      }
    }
    var todo := bound.Keys;
    while todo != {}
      invariant todo <= bound.Keys && forall id :: id in bound && id !in todo ==> Declares(secrets, id)
      decreases |todo|
    {
      var id :| id in todo;
      if !Declares(secrets, id) {
        return false;
      }
      todo := todo - {id};
    }
    return true;
  }

  // ---------- Compiling the desired modules ----------

  predicate IsAnyHexDigit(c: char) { IsHexDigit(c) || 'A' <= c <= 'F' }

  const DIGEST_PREFIX := "sha256:"

  /** `validDigest`, for which capital hexadecimal digits are digits too. */
  predicate ImageDigest(v: string) {
    DIGEST_PREFIX <= v && |v| == 71 && forall i :: |DIGEST_PREFIX| <= i < |v| ==> IsAnyHexDigit(v[i])
  }

  predicate Resolves(resolve: string -> Option<string>, ref: string) { resolve(ref).Some? && ImageDigest(resolve(ref).value) }

  /** The digest of every image, or None as soon as one does not resolve. */
  function ResolvedImages(resolve: string -> Option<string>, images: map<string, string>): Option<map<string, string>> {
    if forall id :: id in images ==> Resolves(resolve, images[id])
    then Some(map id | id in images :: resolve(images[id]).value) else None
  }

  method ResolveImages(resolve: string -> Option<string>, images: map<string, string>) returns (r: Option<map<string, string>>)
    ensures r == ResolvedImages(resolve, images)
  {
    var ids := ListKeys(images.Keys);
    var out: map<string, string> := map[];
    for i := 0 to |ids|
      invariant forall k :: 0 <= k < i ==> Resolves(resolve, images[ids[k]]) && ids[k] in out
      invariant forall id :: id in out ==> id in images && resolve(images[id]) == Some(out[id])
    {
      hide ImageDigest, SortedKeys;
      assert ids[i] in images.Keys;
      var digest := resolve(images[ids[i]]);
      if digest.None? || !ImageDigest(digest.value) {
        return None;
      }
      out := out[ids[i] := digest.value];
    }
    forall id | id in images ensures Resolves(resolve, images[id]) && id in out {
      assert id in ids;
    }
    assert out == map id | id in images :: resolve(images[id]).value;
    return Some(out);
  }

  function Positive(base: int, override: int): int { if override > 0 then override else base }

  function Merged(base: Resources, o: Resources): Resources {
    Resources(Positive(base.memory, o.memory), Positive(base.cpu, o.cpu), Positive(base.pids, o.pids), Positive(base.tasks, o.tasks))
  }

  predicate CoreFits(required: string, k: Contract) { required != "" ==> k.coreContract == required }

  function CompileOne(t: Tools, coreContract: string, d: Desired): Option<Compiled> {
    match t.compile(d.source.package)
    case None => None
    case Some(k) =>
      if k.version == "" || d.source.packageSha == "" || d.source.packageId == "" || d.source.sourceId == "" then None
      else if !CoreFits(coreContract, k) || !SecretsBound(k.secrets, d.secretIds) then None
      else match ResolvedImages(t.resolve, k.images)
        case None => None
        case Some(images) => Some(Compiled(d, k, images, Merged(k.resources, d.resources)))
  }

  method CompileModule(t: Tools, coreContract: string, d: Desired) returns (r: Option<Compiled>)
    ensures r == CompileOne(t, coreContract, d)
  {
    var contract := t.compile(d.source.package);
    if contract.None? {
      return None;
    }
    var k := contract.value;
    if k.version == "" || d.source.packageSha == "" || d.source.packageId == "" || d.source.sourceId == "" {
      return None;
    }
    if coreContract != "" && k.coreContract != coreContract {
      return None;
    }
    var bound := ValidateSecretBindings(k.secrets, d.secretIds);
    if !bound {
      return None;
    }
    var images := ResolveImages(t.resolve, k.images);
    if images.None? {
      return None;
    }
    return Some(Compiled(d, k, images.value, Merged(k.resources, d.resources)));
  }

  predicate AllCompile(t: Tools, coreContract: string, ds: seq<Desired>) {
    forall i :: 0 <= i < |ds| ==> CompileOne(t, coreContract, ds[i]).Some?
  }

  function CompileEach(t: Tools, coreContract: string, ds: seq<Desired>): (r: seq<Compiled>)
    requires AllCompile(t, coreContract, ds)
    ensures |r| == |ds| && forall i :: 0 <= i < |r| ==> r[i] == CompileOne(t, coreContract, ds[i]).value && r[i].desired == ds[i]
  {
    seq(|ds|, i requires 0 <= i < |ds| => CompileOne(t, coreContract, ds[i]).value)
  }

  function InstanceKey(c: Compiled): Key { [c.desired.instanceId] }

  function CompiledModules(t: Tools, coreContract: string, ds: seq<Desired>): Option<seq<Compiled>> {
    if AllCompile(t, coreContract, ds) then Some(Sort(CompileEach(t, coreContract, ds), InstanceKey)) else None
  }

  /** `compileModules`: the compiled modules come out sorted by instance ID. */
  method CompileModules(t: Tools, coreContract: string, ds: seq<Desired>) returns (r: Option<seq<Compiled>>)
    ensures r == CompiledModules(t, coreContract, ds)
  {
    var mods: seq<Compiled> := [];
    for i := 0 to |ds|
      invariant AllCompile(t, coreContract, ds[..i]) && mods == CompileEach(t, coreContract, ds[..i])
    {
      var compiled := CompileModule(t, coreContract, ds[i]);
      if compiled.None? {
        return None;
      }
      mods := mods + [compiled.value];
    }
    assert ds[..|ds|] == ds;
    return Some(Sort(mods, InstanceKey));
  }

  // ---------- The subject ----------

  function FindCompiled(cs: seq<Compiled>, instance: string): (r: Option<Compiled>)
    ensures r.Some? ==> r.value in cs && r.value.desired.instanceId == instance
    ensures r.None? ==> forall c :: c in cs ==> c.desired.instanceId != instance
  {
    if cs == [] then None
    else if cs[0].desired.instanceId == instance then Some(cs[0])
    else FindCompiled(cs[1..], instance)
  }

  function FindObserved(observed: seq<ObservedModule>, instance: string): Option<ObservedModule> {
    if observed == [] then None
    else if observed[0].instanceId == instance then Some(observed[0])
    else FindObserved(observed[1..], instance)
  }

  predicate SubjectDesired(q: PrepareRequest, cs: seq<Compiled>) {
    q.plan.operation != Uninstall ==> FindCompiled(cs, q.plan.subject).Some?
  }

  /** The installed module is the frozen source, with the images it was installed with. */
  predicate Installed(o: ObservedModule, source: FrozenSource, k: Contract, images: map<string, string>) {
    && o.version == k.version && o.packageId == source.packageId && o.packageSha == source.packageSha
    && forall id :: id in images && id in o.images && o.images[id] != "" ==> o.images[id] == images[id]
  }

  /** `compileDetachedSubject`: what an uninstallation removes is compiled from its frozen source, if that
      is what is installed; other operations have no detached subject. */
  function DetachedSubject(t: Tools, q: PrepareRequest, cs: seq<Compiled>): Option<Option<Compiled>> {
    if q.plan.operation != Uninstall then Some(None)
    else if FindCompiled(cs, q.plan.subject).Some? || q.subjectSource.None? then None
    else
      var source := q.subjectSource.value;
      if source.instanceId != "" && source.instanceId != q.plan.subject then None
      else match t.compile(source.package)
        case None => None
        case Some(k) =>
          if source.sourceId == "" || source.packageId == "" || source.packageSha == "" then None
          else if !CoreFits(q.coreContract, k) || !SecretsBound(k.secrets, q.subjectSecretIds) then None
          else DetachedInstalled(t, q, source, k)
  }

  const NO_OVERRIDE := Resources(0, 0, 0, 0)

  function DetachedInstalled(t: Tools, q: PrepareRequest, source: FrozenSource, k: Contract): Option<Option<Compiled>> {
    match FindObserved(q.plan.observed, q.plan.subject)
    case None => None
    case Some(o) =>
      match ResolvedImages(t.resolve, k.images)
      case None => None
      case Some(images) =>
        if !Installed(o, source, k, images) then None
        else Some(Some(Compiled(Desired(q.plan.subject, source, q.subjectSecretIds, NO_OVERRIDE), k, images, k.resources)))
  }

  method NoImageDrift(installed: map<string, string>, images: map<string, string>) returns (ok: bool)
    ensures ok <==> forall id :: id in images && id in installed && installed[id] != "" ==> installed[id] == images[id]
  {
    var ids := ListKeys(images.Keys);
    for i := 0 to |ids|
      invariant forall k :: 0 <= k < i && ids[k] in installed && installed[ids[k]] != "" ==> installed[ids[k]] == images[ids[k]]
    {
      assert ids[i] in images.Keys;
      if ids[i] in installed && installed[ids[i]] != "" && installed[ids[i]] != images[ids[i]] {
        return false;
      }
    }
    forall id | id in images && id in installed && installed[id] != "" ensures installed[id] == images[id] {
      assert id in ids;
    }
    return true;
  }

  method CompileDetached(t: Tools, q: PrepareRequest, cs: seq<Compiled>) returns (r: Option<Option<Compiled>>)
    ensures r == DetachedSubject(t, q, cs)
  {
    if q.plan.operation != Uninstall {
      return Some(None);
    }
    if FindCompiled(cs, q.plan.subject).Some? || q.subjectSource.None? {
      return None;
    }
    var source := q.subjectSource.value;
    if source.instanceId != "" && source.instanceId != q.plan.subject {
      return None;
    }
    var contract := t.compile(source.package);
    if contract.None? || source.sourceId == "" || source.packageId == "" || source.packageSha == "" {
      return None;
    }
    var k := contract.value;
    if q.coreContract != "" && k.coreContract != q.coreContract {
      return None;
    }
    var bound := ValidateSecretBindings(k.secrets, q.subjectSecretIds);
    var observed := FindObserved(q.plan.observed, q.plan.subject);
    if !bound || observed.None? {
      return None;
    }
    if observed.value.version != k.version || observed.value.packageId != source.packageId ||
       observed.value.packageSha != source.packageSha {
      return None;
    }
    var images := ResolveImages(t.resolve, k.images);
    if images.None? {
      return None;
    }
    var same := NoImageDrift(observed.value.images, images.value);
    if !same {
      return None;
    }
    return Some(Some(Compiled(Desired(q.plan.subject, source, q.subjectSecretIds, NO_OVERRIDE), k, images.value, k.resources)));
  }

  /** A removed module is not a provider that a desired module depends on. */
  predicate Removable(q: PrepareRequest, mods: seq<Module>) {
    var removed := FindObserved(q.plan.observed, q.plan.subject);
    q.plan.operation == Uninstall && removed.Some? && removed.value.moduleId != "" ==> !Required(mods, removed.value.moduleId)
  }

  predicate Required(mods: seq<Module>, moduleId: string) {
    exists m :: m in mods && exists d :: d in m.dependencies && d.targetModule == moduleId
  }

  method ValidateProviderRemoval(q: PrepareRequest, mods: seq<Module>) returns (ok: bool)
    requires q.plan.operation == Uninstall
    ensures ok <==> Removable(q, mods)
  {
    var removed := FindObserved(q.plan.observed, q.plan.subject);
    if removed.None? || removed.value.moduleId == "" {
      return true;
    }
    var id := removed.value.moduleId;
    for i := 0 to |mods|
      invariant forall k :: 0 <= k < i ==> forall d :: d in mods[k].dependencies ==> d.targetModule != id
    {
      for j := 0 to |mods[i].dependencies|
        invariant forall k :: 0 <= k < j ==> mods[i].dependencies[k].targetModule != id
      {
        if mods[i].dependencies[j].targetModule == id {
          assert mods[i] in mods && mods[i].dependencies[j] in mods[i].dependencies;
          return false;
        }
      }
    }
    return true;
  }

  // ---------- The parts of the input ----------

  function SourceOf(c: Compiled): Assembly.Source {
    Assembly.Source("module", c.desired.source.sourceId, c.contract.version, c.desired.source.gitCommit, c.desired.source.packageSha)
  }

  ghost function ImagesOf(c: Compiled): seq<Assembly.Image> {
    Mapped(SortedKeys(c.images.Keys), (id: string) => ImageOf(c, id))
  }

  function ImageOf(c: Compiled, id: string): Assembly.Image {
    Assembly.Image(c.desired.instanceId + "/" + id, if id in c.contract.images then c.contract.images[id] else "",
                   if id in c.images then c.images[id] else "")
  }

  ghost function AllImages(cs: seq<Compiled>): seq<Assembly.Image> {
    if cs == [] then [] else AllImages(cs[..|cs|-1]) + ImagesOf(cs[|cs|-1])
  }

  function CoreSources(q: PrepareRequest): seq<Assembly.Source> { if q.coreSource.id != "" then [q.coreSource] else [] }

  function WithDetached(cs: seq<Compiled>, detached: Option<Compiled>): seq<Compiled> {
    if detached.Some? then cs + [detached.value] else cs
  }

  /** `freezePlanIdentities`, as far as the bundle gets it. */
  method FreezeIdentities(q: PrepareRequest, cs: seq<Compiled>, detached: Option<Compiled>)
    returns (sources: seq<Assembly.Source>, images: seq<Assembly.Image>)
    ensures sources == CoreSources(q) + Mapped(WithDetached(cs, detached), SourceOf)
    ensures images == AllImages(WithDetached(cs, detached))
  {
    hide SourceOf, ImageOf, SortedKeys;
    sources, images := CoreSources(q), [];
    var all := WithDetached(cs, detached);
    for i := 0 to |all|
      invariant sources == CoreSources(q) + Mapped(all[..i], SourceOf) && images == AllImages(all[..i])
    {
      assert all[..i + 1][..i] == all[..i];
      assert Mapped(all[..i + 1], SourceOf) == Mapped(all[..i], SourceOf) + [SourceOf(all[i])];
      sources := sources + [SourceOf(all[i])];
      var ids := ListKeys(all[i].images.Keys);
      images := images + Mapped(ids, (id: string) => ImageOf(all[i], id));
    }
    assert all[..|all|] == all;
  }

  function SecretRefOf(c: Compiled, s: Secret, container: string): Assembly.SecretRef {
    Assembly.SecretRef(if s.id in c.desired.secretIds then c.desired.secretIds[s.id] else "",
                       c.desired.instanceId + "/" + container, s.delivery, if s.delivery == "file" then s.path else s.name)
  }

  function RefsOfSecret(c: Compiled, s: Secret): seq<Assembly.SecretRef> {
    Mapped(s.containers, (container: string) => SecretRefOf(c, s, container))
  }

  function RefsOfSecrets(c: Compiled, secrets: seq<Secret>): seq<Assembly.SecretRef> {
    if secrets == [] then [] else RefsOfSecrets(c, secrets[..|secrets|-1]) + RefsOfSecret(c, secrets[|secrets|-1])
  }

  function SecretRefs(cs: seq<Compiled>): seq<Assembly.SecretRef> {
    if cs == [] then [] else SecretRefs(cs[..|cs|-1]) + RefsOfSecrets(cs[|cs|-1], cs[|cs|-1].contract.secrets)
  }

  method AppendSecretRefs(before: seq<Assembly.SecretRef>, c: Compiled) returns (out: seq<Assembly.SecretRef>)
    ensures out == before + RefsOfSecrets(c, c.contract.secrets)
  {
    out := before;
    var secrets := c.contract.secrets;
    for i := 0 to |secrets|
      invariant out == before + RefsOfSecrets(c, secrets[..i])
    {
      assert secrets[..i + 1][..i] == secrets[..i];
      ghost var start := out;
      for j := 0 to |secrets[i].containers|
        invariant out == start + RefsOfSecret(c, secrets[i])[..j]
      {
        out := out + [SecretRefOf(c, secrets[i], secrets[i].containers[j])];
      }
    }
    assert secrets[..|secrets|] == secrets;
  }

  method BundleSecrets(cs: seq<Compiled>) returns (out: seq<Assembly.SecretRef>)
    ensures out == SecretRefs(cs)
  {
    out := [];
    for i := 0 to |cs|
      invariant out == SecretRefs(cs[..i])
    {
      assert cs[..i + 1][..i] == cs[..i];
      out := AppendSecretRefs(out, cs[i]);
    }
    assert cs[..|cs|] == cs;
  }

  /** The compiled subject: the desired one or the detached one. */
  function SubjectOf(q: PrepareRequest, cs: seq<Compiled>, detached: Option<Compiled>): Option<Compiled> {
    if FindCompiled(cs, q.plan.subject).Some? then FindCompiled(cs, q.plan.subject) else detached
  }

  function WritablePaths(subject: Option<Compiled>): seq<string> {
    if subject.None? then [] else Sort(subject.value.contract.storagePaths, StringKey)
  }

  function KindOf(op: Operation): Assembly.Kind {
    match op
    case Install => Assembly.Installation
    case Validate => Assembly.Validation
    case _ => Assembly.Migration
  }

  function VersionOf(q: PrepareRequest, subject: Option<Compiled>): string {
    if subject.Some? then subject.value.contract.version
    else if FindObserved(q.plan.observed, q.plan.subject).Some? then FindObserved(q.plan.observed, q.plan.subject).value.version
    else "unknown"
  }

  function IdentityOf(q: PrepareRequest, subject: Option<Compiled>): Assembly.Identity {
    Assembly.Identity(KindOf(q.plan.operation), q.plan.targetId, "module", q.plan.subject,
                      if subject.Some? then subject.value.contract.id else "unknown",
                      if subject.Some? then subject.value.desired.source.packageId else "",
                      if subject.Some? then subject.value.desired.source.packageSha else "", VersionOf(q, subject))
  }

  function ValidationOf(c: Compiled): Assembly.ValidationSpec {
    Assembly.ValidationSpec(c.desired.instanceId + ":" + c.contract.validationAction, true)
  }

  function Validations(cs: seq<Compiled>, subject: string): seq<Assembly.ValidationSpec> {
    if cs == [] then []
    else Validations(cs[..|cs|-1], subject) + (if cs[|cs|-1].desired.instanceId == subject then [ValidationOf(cs[|cs|-1])] else [])
  }

  method ValidationSpecs(cs: seq<Compiled>, subject: string) returns (out: seq<Assembly.ValidationSpec>)
    ensures out == Validations(cs, subject)
  {
    out := [];
    for i := 0 to |cs|
      invariant out == Validations(cs[..i], subject)
    {
      assert cs[..i + 1][..i] == cs[..i];
      if cs[i].desired.instanceId == subject {
        out := out + [ValidationOf(cs[i])];
      }
    }
    assert cs[..|cs|] == cs;
  }

  function PostOf(q: PrepareRequest, cs: seq<Compiled>, artifacts: seq<Artifact>): PostDoc {
    PostDoc(q.plan.targetId,
            Mapped(cs, (c: Compiled) => ModulePost(c.desired.instanceId, c.contract.id, c.contract.version, c.desired.source.packageSha, c.images)),
            ExpectedPost(artifacts))
  }

  function BundleFiles(artifacts: seq<Artifact>): (r: seq<Assembly.File>)
    ensures |r| == |artifacts|
    ensures forall i :: 0 <= i < |r| ==> r[i] == Assembly.File(artifacts[i].path, artifacts[i].targetPath, artifacts[i].mode, artifacts[i].data)
  {
    seq(|artifacts|, i requires 0 <= i < |artifacts| =>
      Assembly.File(artifacts[i].path, artifacts[i].targetPath, artifacts[i].mode, artifacts[i].data))
  }

  function ScriptFiles(files: seq<ActionFile>): (r: seq<Assembly.File>)
    ensures |r| == |files| && forall i :: 0 <= i < |r| ==> r[i] == Assembly.File(files[i].path, "", 0x16d, files[i].data)
  {
    seq(|files|, i requires 0 <= i < |files| => Assembly.File(files[i].path, "", 0x16d, files[i].data))
  }

  // ---------- The whole preparation ----------

  /** What a request compiles to. */
  datatype Draft = Draft(modules: seq<Compiled>, detached: Option<Compiled>, links: seq<Link>, artifacts: seq<Artifact>, plan: PlanState)

  function ContentOf(t: Tools, cs: seq<Compiled>, links: seq<Link>): Content {
    Content((path: string) => t.text(cs, links, path), t.codec.sha)
  }

  ghost predicate ClaimsPass(mods: seq<Module>, links: seq<Link>, observed: seq<ObservedClaim>) {
    (forall o :: o in observed ==> CompleteObservation(o)) && NoCollision(DerivedClaims(mods, links) + ObservedClaims(observed))
  }

  /** Links, claims, transitions, artifacts and plan of the compiled modules. */
  ghost function Planned(t: Tools, q: PrepareRequest, cs: seq<Compiled>, detached: Option<Compiled>): Option<Draft>
    requires t.env.Valid()
  {
    var mods := ModulesOf(cs);
    match DerivedLinks(t.env, mods, q.networks)
    case Err(_) => None
    case Ok(links) =>
      if !ClaimsPass(mods, links, q.claims) || !Removable(q, mods) || UpdateActions(q.plan, mods).Err? then None
      else
        var artifacts := GeneratedArtifacts(ContentOf(t, cs, links), mods, links);
        match PlanOf(t.base, q.plan, mods, artifacts, UpdateActions(q.plan, mods).value)
        case Err(_) => None
        case Ok(plan) => Some(Draft(cs, detached, links, artifacts, plan))
  }

  ghost function DraftOf(t: Tools, q: PrepareRequest): Option<Draft>
    requires t.env.Valid()
  {
    var cs := CompiledModules(t, q.coreContract, q.desired);
    if !ValidRequest(q) || cs.None? || !SubjectDesired(q, cs.value) || DetachedSubject(t, q, cs.value).None? then None
    else Planned(t, q, cs.value, DetachedSubject(t, q, cs.value).value)
  }

  ghost function InputOf(t: Tools, q: PrepareRequest, d: Draft): Assembly.Input {
    var subject, all := SubjectOf(q, d.modules, d.detached), WithDetached(d.modules, d.detached);
    Assembly.Input(IdentityOf(q, subject), CoreSources(q) + Mapped(all, SourceOf), AllImages(all), BundleFiles(d.artifacts),
                   ScriptFiles(d.plan.files), d.plan.ids, WritablePaths(subject), SecretRefs(d.modules), Preconditions(q.plan),
                   Some(t.encodePost(PostOf(q, d.modules, d.artifacts))), Validations(d.modules, q.plan.subject), d.plan.steps,
                   q.backupRequired)
  }

  /** The steps of `Prepare` after the modules are compiled, up to the plan. */
  method PlanCompiled(t: Tools, q: PrepareRequest, cs: seq<Compiled>, detached: Option<Compiled>) returns (r: Option<Draft>)
    requires t.env.Valid()
    ensures r == Planned(t, q, cs, detached)
  {
    hide NoCollision, DerivedClaims, GeneratedArtifacts, DerivedLinks, PlanOf, UpdateActions, Required;
    var mods := ModulesOf(cs);
    var links := DeriveLinks(t.env, mods, q.networks);
    if links.Err? {
      return None;
    }
    var free := ValidateClaims(mods, links.value, q.claims);
    if !free {
      return None;
    }
    if q.plan.operation == Uninstall {
      var removable := ValidateProviderRemoval(q, mods);
      if !removable {
        return None;
      }
    }
    var updates := UpdateActions(q.plan, mods);
    if updates.Err? {
      return None;
    }
    var artifacts := GenerateArtifacts(ContentOf(t, cs, links.value), mods, links.value);
    var plan := BuildPlan(t.base, q.plan, mods, artifacts, updates.value);
    if plan.Err? {
      return None;
    }
    return Some(Draft(cs, detached, links.value, artifacts, plan.value));
  }

  method DraftRequest(t: Tools, q: PrepareRequest) returns (r: Option<Draft>)
    requires t.env.Valid()
    ensures r == DraftOf(t, q)
  {
    hide ValidRequest, CompiledModules, DetachedSubject, Planned;
    var ok := ValidateRequest(q);
    if !ok {
      return None;
    }
    var cs := CompileModules(t, q.coreContract, q.desired);
    if cs.None? || !SubjectDesired(q, cs.value) {
      return None;
    }
    var detached := CompileDetached(t, q, cs.value);
    if detached.None? {
      return None;
    }
    r := PlanCompiled(t, q, cs.value, detached.value);
  }

  method BuildInput(t: Tools, q: PrepareRequest, d: Draft) returns (inp: Assembly.Input)
    ensures inp == InputOf(t, q, d)
  {
    hide Preconditions, AllImages, SecretRefs, Validations, IdentityOf, PostOf;
    var pre := CollectPreconditions(q.plan);
    var validations := ValidationSpecs(d.modules, q.plan.subject);
    var sources, images := FreezeIdentities(q, d.modules, d.detached);
    var secrets := BundleSecrets(d.modules);
    var subject := SubjectOf(q, d.modules, d.detached);
    inp := Assembly.Input(IdentityOf(q, subject), sources, images, BundleFiles(d.artifacts), ScriptFiles(d.plan.files), d.plan.ids,
                          WritablePaths(subject), secrets, pre, Some(t.encodePost(PostOf(q, d.modules, d.artifacts))), validations,
                          d.plan.steps, q.backupRequired);
  }

  /** The bundle of a request, or None if it is refused. */
  ghost function PreparedBundle(t: Tools, q: PrepareRequest): Option<Assembly.Assembled>
    requires t.Valid()
  {
    if DraftOf(t, q).Some? && Assembly.InputOk(InputOf(t, q, DraftOf(t, q).value))
    then Some(Assembly.AssembledBundle(t.codec, InputOf(t, q, DraftOf(t, q).value))) else None
  }

  /** `Prepare`, with the outcome of writing to the store. */
  method Prepare(t: Tools, store: BundleStore.Store, q: PrepareRequest, writeOk: bool) returns (r: Option<Assembly.Assembled>)
    requires t.Valid()
    modifies store
    ensures r.Some? ==> r == PreparedBundle(t, q) && store.bundles == old(store.bundles)[r.value.id := r.value.bytes]
    ensures r.None? ==> store.bundles == old(store.bundles)
    ensures r.Some? <==> PreparedBundle(t, q).Some? && var b := PreparedBundle(t, q).value;
      if b.id in old(store.bundles) then old(store.bundles)[b.id] == b.bytes else writeOk
  {
    hide DraftOf, InputOf, Assembly.InputOk, Assembly.AssembledBundle;
    var draft := DraftRequest(t, q);
    if draft.None? {
      return None;
    }
    var inp := BuildInput(t, q, draft.value);
    r := store.AssembleAndStore(t.codec, inp, writeOk);
  }
}
