/** The generated artifacts, by name and target path (`internal/deployment/generator_quadlet.go`),
    and why no two of them collide although their names are joined with hyphens. */
module Artifacts {
  import opened Prelude
  import opened Ordering
  import opened Text
  import opened Modules
  import opened Subnets
  import opened LinkNets
  import opened Claims

  datatype Artifact = Artifact(path: string, targetPath: string, mode: int, data: string, sha: string)

  /** One Quadlet file: a module network, a module container, or a Link-Net. */
  datatype Unit = NetworkUnit(inst: string, id: string) | ContainerUnit(inst: string, id: string)
                | LinkUnit(rel: string, linkName: string)

  function UnitName(u: Unit): string {
    match u
    case NetworkUnit(inst, id) => ResourceName(inst, id)
    case ContainerUnit(inst, id) => ResourceName(inst, id)
    case LinkUnit(_, name) => name
  }

  function FileName(u: Unit): string {
    UnitName(u) + (if u.ContainerUnit? then ".container" else ".network")
  }

  /** The three directories of generated artifacts, in the bundle and on the target. */
  datatype Area = Quadlet | Core | Inventory

  function PathHead(area: Area): string {
    match area
    case Quadlet => "artifacts/quadlet/"
    case Core => "artifacts/core/"
    case Inventory => "artifacts/inventory/"
  }

  function TargetHead(area: Area): string {
    match area
    case Quadlet => "/var/lib/vpsmith/generated/quadlet/"
    case Core => "/var/lib/vpsmith/generated/core/"
    case Inventory => "/var/lib/vpsmith/inventory/"
  }

  datatype Place = Place(area: Area, file: string) {
    function Path(): string { PathHead(area) + file }
    function Target(): string { TargetHead(area) + file }
  }

  function UnitPlace(u: Unit): Place { Place(Quadlet, FileName(u)) }

  const FIXED_PLACES: seq<Place> := [
    Place(Core, "Caddyfile"), Place(Core, "caddy-networks.conf"), Place(Core, "authelia-access-control.yml"),
    Place(Inventory, "modules.json"), Place(Inventory, "link-networks.json")]

  function ModuleUnits(m: Module): seq<Unit> {
    seq(|m.networks|, i requires 0 <= i < |m.networks| => NetworkUnit(m.instanceId, m.networks[i])) +
    seq(|m.containers|, i requires 0 <= i < |m.containers| => ContainerUnit(m.instanceId, m.containers[i]))
  }

  function AllModuleUnits(mods: seq<Module>): seq<Unit> {
    if mods == [] then [] else AllModuleUnits(mods[..|mods|-1]) + ModuleUnits(mods[|mods|-1])
  }

  function LinkUnits(links: seq<Link>): (r: seq<Unit>)
    ensures |r| == |links| && forall i :: 0 <= i < |r| ==> r[i] == LinkUnit(links[i].relationship, links[i].name)
  {
    seq(|links|, i requires 0 <= i < |links| => LinkUnit(links[i].relationship, links[i].name))
  }

  function Units(mods: seq<Module>, links: seq<Link>): seq<Unit> {
    AllModuleUnits(mods) + LinkUnits(links)
  }

  function PlacesOf(units: seq<Unit>): (r: seq<Place>)
    ensures |r| == |units| && forall i :: 0 <= i < |r| ==> r[i] == UnitPlace(units[i])
  {
    seq(|units|, i requires 0 <= i < |units| => UnitPlace(units[i]))
  }

  /** The text of a generated file and SHA-256 in lower-case hexadecimal are parameters. */
  datatype Content = Content(text: string -> string, sha: string -> string)

  function Make(c: Content, p: Place): Artifact {
    Artifact(p.Path(), p.Target(), 0x124, c.text(p.Path()), c.sha(c.text(p.Path())))
  }

  function MakeAll(c: Content, ps: seq<Place>): (r: seq<Artifact>)
    ensures |r| == |ps| && forall i :: 0 <= i < |r| ==> r[i] == Make(c, ps[i])
  {
    seq(|ps|, i requires 0 <= i < |ps| => Make(c, ps[i]))
  }

  function PathKey(a: Artifact): Key { [a.path] }

  function GeneratedArtifacts(c: Content, mods: seq<Module>, links: seq<Link>): seq<Artifact> {
    Sort(RawArtifacts(c, mods, links), PathKey)
  }

  lemma MakeAppend(c: Content, a: seq<Unit>, b: seq<Unit>)
    ensures MakeAll(c, PlacesOf(a + b)) == MakeAll(c, PlacesOf(a)) + MakeAll(c, PlacesOf(b))
  {
  }

  lemma MakeAppendPlaces(c: Content, a: seq<Place>, b: seq<Place>)
    ensures MakeAll(c, a + b) == MakeAll(c, a) + MakeAll(c, b)
  {
  }

  method GenerateArtifacts(c: Content, mods: seq<Module>, links: seq<Link>) returns (out: seq<Artifact>)
    ensures out == GeneratedArtifacts(c, mods, links)
  {
    out := [];
    for i := 0 to |mods|
      invariant out == MakeAll(c, PlacesOf(AllModuleUnits(mods[..i])))
    {
      assert mods[..i+1][..i] == mods[..i];
      MakeAppend(c, AllModuleUnits(mods[..i]), ModuleUnits(mods[i]));
      out := out + MakeAll(c, PlacesOf(ModuleUnits(mods[i])));
    }
    assert mods[..|mods|] == mods;
    ghost var before := out;
    for i := 0 to |links|
      invariant out == before + MakeAll(c, PlacesOf(LinkUnits(links[..i])))
    {
      var unit := LinkUnit(links[i].relationship, links[i].name);
      assert LinkUnits(links[..i+1]) == LinkUnits(links[..i]) + [unit];
      MakeAppend(c, LinkUnits(links[..i]), [unit]);
      out := out + [Make(c, UnitPlace(unit))];
    }
    assert links[..|links|] == links;
    MakeAppend(c, AllModuleUnits(mods), LinkUnits(links));
    MakeAppendPlaces(c, PlacesOf(Units(mods, links)), FIXED_PLACES);
    out := Sort(out + MakeAll(c, FIXED_PLACES), PathKey);
  }

  // ---------- The units are pairwise different ----------

  lemma DistinctConcat<T>(a: seq<T>, b: seq<T>)
    requires Distinct(a) && Distinct(b) && forall x :: x in a ==> x !in b
    ensures Distinct(a + b)
  {
    forall i, j | 0 <= i < j < |a + b| ensures (a + b)[i] != (a + b)[j] {
      if i < |a| <= j {
        assert (a + b)[i] in a && (a + b)[j] in b;
      }
    }
  }

  lemma {:induction false} ModuleUnitsOrigin(mods: seq<Module>, u: Unit)
    requires u in AllModuleUnits(mods)
    ensures !u.LinkUnit? && exists m :: m in mods && OfModule(m, u)
    decreases |mods|
  {
    var before, m := mods[..|mods|-1], mods[|mods|-1];
    if u in ModuleUnits(m) {
      assert OfModule(m, u) && m in mods;
    } else {
      ModuleUnitsOrigin(before, u);
      var k :| k in before && OfModule(k, u);
      assert k in mods;
    }
  }

  lemma EarlierInstance(mods: seq<Module>, u: Unit)
    requires mods != [] && DistinctInstances(mods) && exists m :: m in mods[..|mods|-1] && OfModule(m, u)
    ensures !u.LinkUnit? && u.inst != mods[|mods|-1].instanceId
  {
    var k :| k in mods[..|mods|-1] && OfModule(k, u);
    var i :| 0 <= i < |mods| - 1 && mods[i] == k;
  }

  lemma OwnUnitsDistinct(m: Module)
    requires Distinct(m.networks) && Distinct(m.containers)
    ensures Distinct(ModuleUnits(m))
    ensures forall u :: u in ModuleUnits(m) ==> !u.LinkUnit? && u.inst == m.instanceId
  {
  }

  lemma {:induction false} ModuleUnitsDistinct(mods: seq<Module>)
    requires DistinctInstances(mods) && forall m :: m in mods ==> ValidContract(m)
    ensures Distinct(AllModuleUnits(mods))
    decreases |mods|
  {
    if mods != [] {
      var before, m := mods[..|mods|-1], mods[|mods|-1];
      assert mods == before + [m];
      assert m in mods;
      ModuleUnitsDistinct(before);
      OwnUnitsDistinct(m);
      forall u | u in AllModuleUnits(before) ensures u !in ModuleUnits(m) {
        ModuleUnitsOrigin(before, u);
        EarlierInstance(mods, u);
      }
      DistinctConcat(AllModuleUnits(before), ModuleUnits(m));
    }
  }

  predicate OfModule(m: Module, u: Unit) {
    match u
    case NetworkUnit(inst, id) => inst == m.instanceId && id in m.networks
    case ContainerUnit(inst, id) => inst == m.instanceId && id in m.containers
    case LinkUnit(_, _) => false
  }

  lemma LinkUnitsDistinct(links: seq<Link>)
    ensures DistinctRelationships(links) ==> Distinct(LinkUnits(links))
  {
  }

  // ---------- Claims separate the names ----------

  /** Names built as the compiler builds them, and claims that passed the collision check. */
  ghost predicate Checked(mods: seq<Module>, links: seq<Link>, others: seq<Claim>) {
    && DistinctInstances(mods)
    && (forall m :: m in mods ==> ValidContract(m) && !(OBSERVED <= m.instanceId))
    && (forall l :: l in links ==> LinkShape(l))
    && (forall k, l :: k in links && l in links ==> (k.name == l.name <==> k.relationship == l.relationship))
    && NoCollision(DerivedClaims(mods, links) + others)
  }

  ghost predicate LinkShape(l: Link) {
    '/' in l.relationship && exists digits :: IsHex(digits) && l.name == LINK_PREFIX + digits
  }

  function UnitClaim(u: Unit): Claim {
    match u
    case NetworkUnit(inst, id) => Claim("network", ResourceName(inst, id), inst)
    case ContainerUnit(inst, id) => Claim("container", ResourceName(inst, id), inst)
    case LinkUnit(rel, name) => Claim("network", name, rel)
  }

  lemma UnitClaimed(mods: seq<Module>, links: seq<Link>, u: Unit)
    requires DistinctInstances(mods) && (forall m :: m in mods ==> ValidContract(m))
    requires u in Units(mods, links)
    ensures UnitClaim(u) in DerivedClaims(mods, links)
  {
    if u in LinkUnits(links) {
      var i :| 0 <= i < |links| && LinkUnits(links)[i] == u;
      assert LinkClaims(links[i])[0] == UnitClaim(u);
      LinkClaimIn(links, i, UnitClaim(u));
    } else {
      ModuleUnitsOrigin(mods, u);
      var m :| m in mods && OfModule(m, u);
      var i :| 0 <= i < |mods| && mods[i] == m;
      if u.ContainerUnit? {
        var k :| 0 <= k < |m.containers| && m.containers[k] == u.id;
        ContainerClaimIn(m.instanceId, m.containers, k);
      } else {
        var k :| 0 <= k < |m.networks| && m.networks[k] == u.id;
        NetworkClaimIn(m, k);
      }
      ModuleClaimIn(mods, i, UnitClaim(u));
    }
  }

  lemma NetworkClaimIn(m: Module, k: nat)
    requires k < |m.networks|
    ensures Claim("network", ResourceName(m.instanceId, m.networks[k]), m.instanceId) in ModuleClaims(m)
  {
    var networks := seq(|m.networks|, i requires 0 <= i < |m.networks| => Claim("network", ResourceName(m.instanceId, m.networks[i]), m.instanceId));
    assert networks[k] in networks;
    assert networks[k] in OtherClaims(m);
  }

  /** A module's own network cannot have the name of a Link-Net: the instance would be free of '/'
      and yet be the logical owner of the link. */
  lemma ModuleNameIsNotLinkName(inst: string, id: string, rel: string, name: string, digits: string)
    requires ResourceName(inst, id) == name == LINK_PREFIX + digits && IsHex(digits)
    requires '/' in rel && !(OBSERVED <= inst)
    ensures !SameLogicalOwner(inst, rel)
  {
    var whole := "vpsmith-" + inst + "-" + id;
    assert '/' !in whole;
    forall i | 0 <= i < |inst| ensures inst[i] != '/' {
      assert whole[8 + i] == inst[i];
      assert whole[8 + i] in whole;
    }
    SlashSurvivesTrim(rel);
  }

  lemma SlashSurvivesTrim(owner: string)
    requires '/' in owner
    ensures '/' in TrimObserved(owner)
  {
    if OBSERVED <= owner {
      var i :| 0 <= i < |owner| && owner[i] == '/';
      assert '/' !in OBSERVED;
      assert owner == OBSERVED + owner[|OBSERVED|..];
    }
  }

  lemma ResourceNameInjective(inst: string, a: string, b: string)
    requires ResourceName(inst, a) == ResourceName(inst, b)
    ensures a == b
  {
    PrefixUnique(PrefixOf(inst) + "-", a, b);
  }

  lemma FileNameKind(u: Unit, v: Unit)
    requires FileName(u) == FileName(v)
    ensures u.ContainerUnit? <==> v.ContainerUnit?
    ensures UnitName(u) == UnitName(v)
  {
    var f, g := FileName(u), FileName(v);
    assert f[|f|-1] == (if u.ContainerUnit? then 'r' else 'k');
    assert g[|g|-1] == (if v.ContainerUnit? then 'r' else 'k');
    SuffixUnique(UnitName(u), UnitName(v), if u.ContainerUnit? then ".container" else ".network");
  }

  /** Two units with one file name claim one resource, so claim checking gives them one owner. */
  lemma SharedNameSharedOwner(mods: seq<Module>, links: seq<Link>, others: seq<Claim>, u: Unit, v: Unit)
    requires Checked(mods, links, others)
    requires u in Units(mods, links) && v in Units(mods, links) && FileName(u) == FileName(v)
    ensures UnitClaim(u) == UnitClaim(v) || SameLogicalOwner(UnitClaim(u).owner, UnitClaim(v).owner)
  {
    FileNameKind(u, v);
    var claims := DerivedClaims(mods, links) + others;
    UnitClaimed(mods, links, u);
    UnitClaimed(mods, links, v);
    if UnitClaim(u) != UnitClaim(v) {
      NoCollisionOwners(claims, UnitClaim(u), UnitClaim(v));
    }
  }

  lemma OwnersDiffer(mods: seq<Module>, links: seq<Link>, others: seq<Claim>, own: Unit, link: Unit)
    requires Checked(mods, links, others) && own in Units(mods, links) && link in Units(mods, links)
    requires !own.LinkUnit? && link.LinkUnit? && UnitName(own) == UnitName(link)
    ensures !SameLogicalOwner(own.inst, link.rel) && own.inst != link.rel
  {
    UnitOrigin(mods, links, own);
    UnitOrigin(mods, links, link);
    var l :| l in links && link == LinkUnit(l.relationship, l.name);
    assert LinkShape(l);
    var digits :| IsHex(digits) && l.name == LINK_PREFIX + digits;
    ModuleNameIsNotLinkName(own.inst, own.id, link.rel, link.linkName, digits);
    SlashSurvivesTrim(link.rel);
  }

  lemma ModuleUnitIsNotLink(mods: seq<Module>, links: seq<Link>, others: seq<Claim>, own: Unit, link: Unit)
    requires Checked(mods, links, others) && own in Units(mods, links) && link in Units(mods, links)
    requires !own.LinkUnit? && link.LinkUnit?
    ensures FileName(own) != FileName(link)
  {
    if FileName(own) == FileName(link) {
      FileNameKind(own, link);
      OwnersDiffer(mods, links, others, own, link);
      SharedNameSharedOwner(mods, links, others, own, link);
    }
  }

  /** Different units have different file names. */
  lemma FileNamesSeparate(mods: seq<Module>, links: seq<Link>, others: seq<Claim>, u: Unit, v: Unit)
    requires Checked(mods, links, others)
    requires u in Units(mods, links) && v in Units(mods, links) && FileName(u) == FileName(v)
    ensures u == v
  {
    FileNameKind(u, v);
    UnitOrigin(mods, links, u);
    UnitOrigin(mods, links, v);
    if !u.LinkUnit? && v.LinkUnit? {
      ModuleUnitIsNotLink(mods, links, others, u, v);
    } else if u.LinkUnit? && !v.LinkUnit? {
      ModuleUnitIsNotLink(mods, links, others, v, u);
    } else if !u.LinkUnit? {
      SharedNameSharedOwner(mods, links, others, u, v);
      assert u.inst == v.inst;
      ResourceNameInjective(u.inst, u.id, v.id);
    }
  }

  lemma UnitOrigin(mods: seq<Module>, links: seq<Link>, u: Unit)
    requires u in Units(mods, links)
    ensures if u.LinkUnit? then exists l :: l in links && u == LinkUnit(l.relationship, l.name)
            else exists m :: m in mods && u.inst == m.instanceId
  {
    if u in LinkUnits(links) {
      var i :| 0 <= i < |links| && LinkUnits(links)[i] == u;
      assert links[i] in links;
    } else {
      ModuleUnitsOrigin(mods, u);
    }
  }

  // ---------- The main result ----------

  predicate Apart(p: Place, q: Place) { p.Path() != q.Path() && p.Target() != q.Target() }

  /** Different directories or different file names give different paths and targets. */
  lemma PlacesApart(p: Place, q: Place)
    requires p != q
    ensures Apart(p, q)
  {
    if p.area == q.area {
      if p.Path() == q.Path() { PrefixUnique(PathHead(p.area), p.file, q.file); }
      if p.Target() == q.Target() { PrefixUnique(TargetHead(p.area), p.file, q.file); }
    } else {
      assert p.Path()[10] != q.Path()[10];
      assert p.Target()[17] != q.Target()[17] || p.Target()[27] != q.Target()[27];
    }
  }

  lemma FixedPlacesDistinct()
    ensures Distinct(FIXED_PLACES) && forall p :: p in FIXED_PLACES ==> p.area != Quadlet
  {
    var f := FIXED_PLACES;
    assert f[0].file[0] == 'C' && f[1].file[0] == 'c' && f[2].file[0] == 'a' && f[3].file[0] == 'm' && f[4].file[0] == 'l';
  }

  lemma PlacesDistinct(mods: seq<Module>, links: seq<Link>, others: seq<Claim>)
    requires Checked(mods, links, others) && DistinctRelationships(links)
    ensures Distinct(PlacesOf(Units(mods, links)) + FIXED_PLACES)
  {
    var units := Units(mods, links);
    ModuleUnitsDistinct(mods);
    LinkUnitsDistinct(links);
    forall u | u in AllModuleUnits(mods) ensures u !in LinkUnits(links) {
      ModuleUnitsOrigin(mods, u);
    }
    DistinctConcat(AllModuleUnits(mods), LinkUnits(links));
    forall i, j | 0 <= i < j < |units| ensures FileName(units[i]) != FileName(units[j]) {
      assert units[i] in units && units[j] in units && units[i] != units[j];
      if FileName(units[i]) == FileName(units[j]) {
        FileNamesSeparate(mods, links, others, units[i], units[j]);
      }
    }
    FixedPlacesDistinct();
    DistinctConcat(PlacesOf(units), FIXED_PLACES);
  }

  predicate DistinctPaths(artifacts: seq<Artifact>) {
    forall i, j :: 0 <= i < j < |artifacts| ==>
      artifacts[i].path != artifacts[j].path && artifacts[i].targetPath != artifacts[j].targetPath
  }

  function RawArtifacts(c: Content, mods: seq<Module>, links: seq<Link>): seq<Artifact> {
    MakeAll(c, PlacesOf(Units(mods, links)) + FIXED_PLACES)
  }

  lemma DistinctPathsReordered(xs: seq<Artifact>, ys: seq<Artifact>)
    requires IsPermutation(xs, ys) && DistinctPaths(xs)
    ensures DistinctPaths(ys)
  {
    PairwiseReordered(xs, ys, (a: Artifact, b: Artifact) => a.path != b.path && a.targetPath != b.targetPath);
  }

  /** Two links with one relationship have one name, hence one artifact path. */
  lemma RepeatedRelationshipCollides(c: Content, mods: seq<Module>, links: seq<Link>, i: nat, j: nat)
    requires i < j < |links| && links[i].name == links[j].name
    ensures !DistinctPaths(RawArtifacts(c, mods, links))
  {
    var units, n := Units(mods, links), |AllModuleUnits(mods)|;
    assert units[n + i] == LinkUnits(links)[i] && units[n + j] == LinkUnits(links)[j];
    assert RawArtifacts(c, mods, links)[n + i].path == RawArtifacts(c, mods, links)[n + j].path;
  }

  /** With claims that pass the collision check, the generated paths and target paths are pairwise
      different exactly when no two links carry the same relationship. */
  lemma ArtifactPathsDistinct(c: Content, mods: seq<Module>, links: seq<Link>, others: seq<Claim>)
    requires Checked(mods, links, others)
    ensures DistinctPaths(GeneratedArtifacts(c, mods, links)) <==> DistinctRelationships(links)
  {
    var raw, sorted := RawArtifacts(c, mods, links), GeneratedArtifacts(c, mods, links);
    SortSorts(raw, PathKey);
    if DistinctRelationships(links) {
      PlacesDistinct(mods, links, others);
      var places := PlacesOf(Units(mods, links)) + FIXED_PLACES;
      forall i, j | 0 <= i < j < |raw| ensures raw[i].path != raw[j].path && raw[i].targetPath != raw[j].targetPath {
        PlacesApart(places[i], places[j]);
      }
      DistinctPathsReordered(raw, sorted);
    } else {
      var i, j :| 0 <= i < j < |links| && links[i].relationship == links[j].relationship;
      assert links[i] in links && links[j] in links;
      RepeatedRelationshipCollides(c, mods, links, i, j);
      if DistinctPaths(sorted) {
        DistinctPathsReordered(sorted, raw);
      }
    }
  }
}
