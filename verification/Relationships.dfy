/** When the relationship of a Link-Net identifies it, and what follows for the generated paths. */
module Relationships {
  import opened Prelude
  import opened Text
  import opened Modules
  import opened Subnets
  import opened LinkNets
  import opened Claims
  import opened Artifacts

  predicate SlashFreeInstances(mods: seq<Module>) {
    forall m :: m in mods ==> '/' !in m.instanceId
  }

  /** Without '/' in the instance IDs the four parts can be read back from a relationship. */
  lemma RelationshipInjective(p: Module, c: Module, d: Dependency, p': Module, c': Module, d': Dependency)
    requires Relationship(p, c, d) == Relationship(p', c', d')
    requires '/' !in p.instanceId && '/' !in p'.instanceId && '/' !in c.instanceId && '/' !in c'.instanceId
    requires IsIdentifier(d.interfaceId) && IsIdentifier(d'.interfaceId)
    ensures p.instanceId == p'.instanceId && c.instanceId == c'.instanceId
    ensures d.interfaceId == d'.interfaceId && d.consumer == d'.consumer
  {
    var t, t' := c.instanceId + ['/'] + d.consumer, c'.instanceId + ['/'] + d'.consumer;
    var x, x' := d.interfaceId + ['-'], d'.interfaceId + ['-'];
    var r, r' := x + ['>'] + t, x' + ['>'] + t';
    assert Relationship(p, c, d) == p.instanceId + ['/'] + r;
    assert Relationship(p', c', d') == p'.instanceId + ['/'] + r';
    SplitUnique(p.instanceId, r, p'.instanceId, r', '/');
    SplitUnique(x, t, x', t', '>');
    SuffixUnique(d.interfaceId, d'.interfaceId, ['-']);
    SplitUnique(c.instanceId, d.consumer, c'.instanceId, d'.consumer, '/');
  }

  lemma {:induction false} ProvidersAmong(mods: seq<Module>, id: string)
    ensures forall m :: m in Providers(mods, id) ==> m in mods && m.moduleId == id
    decreases |mods|
  {
    if mods != [] {
      assert mods == mods[..|mods|-1] + [mods[|mods|-1]];
      ProvidersAmong(mods[..|mods|-1], id);
    }
  }

  lemma {:induction false} NeedsDistinct(mods: seq<Module>)
    requires DistinctInstances(mods) && forall m :: m in mods ==> ValidContract(m)
    ensures Distinct(Needs(mods))
    ensures forall n :: n in Needs(mods) ==> n.0 in mods && n.1 in n.0.dependencies
    decreases |mods|
  {
    if mods != [] {
      var before, m := mods[..|mods|-1], mods[|mods|-1];
      assert mods == before + [m];
      assert m in mods;
      NeedsDistinct(before);
      forall n | n in Needs(before) ensures n !in ModuleNeeds(m) {
        var i :| 0 <= i < |before| && before[i] == n.0;
        assert mods[i] == n.0 && mods[|mods|-1] == m;
      }
      DistinctConcat(Needs(before), ModuleNeeds(m));
    }
  }

  lemma SameInstance(mods: seq<Module>, a: Module, b: Module)
    requires DistinctInstances(mods) && a in mods && b in mods && a.instanceId == b.instanceId
    ensures a == b
  {
    var i :| 0 <= i < |mods| && mods[i] == a;
    var j :| 0 <= j < |mods| && mods[j] == b;
    assert i == j;
  }

  /** One relationship, one need. */
  lemma NeedOfRelationship(env: Env, mods: seq<Module>, n: Need, n': Need, l: Link, l': Link)
    requires DistinctInstances(mods) && SlashFreeInstances(mods) && forall m :: m in mods ==> ValidContract(m)
    requires n.0 in mods && n.1 in n.0.dependencies && n'.0 in mods && n'.1 in n'.0.dependencies
    requires LinkFor(env, mods, n, l) && LinkFor(env, mods, n', l') && l.relationship == l'.relationship
    ensures n == n'
  {
    var p, p' := ResolveProvider(mods, n.1).value.0, ResolveProvider(mods, n'.1).value.0;
    ProvidersAmong(mods, n.1.targetModule);
    ProvidersAmong(mods, n'.1.targetModule);
    assert p in Providers(mods, n.1.targetModule) && p' in Providers(mods, n'.1.targetModule);
    RelationshipInjective(p, n.0, n.1, p', n'.0, n'.1);
    SameInstance(mods, n.0, n'.0);
    SameInstance(mods, p, p');
  }

  /** With instance IDs free of '/', derived links never share a relationship. */
  lemma RelationshipsDistinct(env: Env, mods: seq<Module>, observed: seq<ObservedNetwork>)
    requires env.Valid() && DerivedLinks(env, mods, observed).Ok?
    requires DistinctInstances(mods) && SlashFreeInstances(mods) && forall m :: m in mods ==> ValidContract(m)
    ensures DistinctRelationships(DerivedLinks(env, mods, observed).value)
  {
    var st, h, needs := FinalDerivation(env, mods, observed), HoldAll(env, observed).value, Needs(mods);
    NeedsDistinct(mods);
    DeriveOwnership(env, mods, observed, h, needs);
    LinksInOrder(env, mods, h, needs);
    forall i, j | 0 <= i < j < |st.out| ensures st.out[i].relationship != st.out[j].relationship {
      assert needs[i] in needs && needs[j] in needs && needs[i] != needs[j];
      if st.out[i].relationship == st.out[j].relationship {
        NeedOfRelationship(env, mods, needs[i], needs[j], st.out[i], st.out[j]);
      }
    }
    PairwiseReordered(st.out, DerivedLinks(env, mods, observed).value, (k: Link, l: Link) => k.relationship != l.relationship);
  }

  /** What claim checking has to see for the artifact paths to be safe. */
  ghost predicate Compiled(env: Env, mods: seq<Module>, observed: seq<ObservedNetwork>, others: seq<Claim>) {
    && env.Valid() && DerivedLinks(env, mods, observed).Ok?
    && DistinctInstances(mods) && (forall m :: m in mods ==> ValidContract(m) && !(OBSERVED <= m.instanceId))
    && NoCollision(DerivedClaims(mods, DerivedLinks(env, mods, observed).value) + others)
  }

  lemma CompiledIsChecked(env: Env, mods: seq<Module>, observed: seq<ObservedNetwork>, others: seq<Claim>)
    requires Compiled(env, mods, observed, others)
    ensures Checked(mods, DerivedLinks(env, mods, observed).value, others)
  {
    var links := DerivedLinks(env, mods, observed).value;
    var st := FinalDerivation(env, mods, observed);
    LinksDisjoint(env, mods, observed);
    forall l | l in links ensures LinkShape(l) && l.name == LinkName(env, l.relationship) {
      assert LinkHolds(env, st.held, l);
      DerivedRelationship(env, mods, observed, l);
      assert IsHex(HexOf(env.digest(l.relationship)[..6]));
    }
  }

  /** Whenever compilation passes the claim check, the artifact paths and targets are pairwise
      different exactly when no two dependencies have one relationship, and always if no instance ID
      contains '/'. */
  lemma CompiledPathsDistinct(env: Env, c: Content, mods: seq<Module>, observed: seq<ObservedNetwork>, others: seq<Claim>)
    requires Compiled(env, mods, observed, others)
    ensures DistinctPaths(GeneratedArtifacts(c, mods, DerivedLinks(env, mods, observed).value))
       <==> Unambiguous(mods)
    ensures SlashFreeInstances(mods) ==> DistinctPaths(GeneratedArtifacts(c, mods, DerivedLinks(env, mods, observed).value))
  {
    CompiledIsChecked(env, mods, observed, others);
    ArtifactPathsDistinct(c, mods, DerivedLinks(env, mods, observed).value, others);
    RelationshipsExactly(env, mods, observed);
    hide Unambiguous;
    if SlashFreeInstances(mods) {
      RelationshipsDistinct(env, mods, observed);
    }
  }

  // ---------- An ambiguous relationship ----------

  function Sample(inst: string, id: string, interfaces: seq<Interface>, dependencies: seq<Dependency>): Module {
    Module(inst, id, "1", "0", ["c"], [], [], [], [], interfaces, dependencies, map[], map[], "check", map[])
  }

  const FIRST_PROVIDER := Sample("a", "ma", [Interface("x", "c")], [])
  const SECOND_PROVIDER := Sample("a/x->b", "mb", [Interface("y", "c")], [])
  const FIRST_CONSUMER := Sample("b/y->d", "mc", [], [Dependency("ma", "x", "c")])
  const SECOND_CONSUMER := Sample("d", "md", [], [Dependency("mb", "y", "c")])

  const AMBIGUOUS := [FIRST_PROVIDER, SECOND_PROVIDER, FIRST_CONSUMER, SECOND_CONSUMER]

  lemma NeedsOfFour(a: Module, b: Module, c: Module, d: Module)
    requires a.dependencies == b.dependencies == [] && |c.dependencies| == |d.dependencies| == 1
    ensures Needs([a, b, c, d]) == [(c, c.dependencies[0]), (d, d.dependencies[0])]
  {
    assert [a, b, c, d][..3] == [a, b, c] && [a, b, c][..2] == [a, b] && [a, b][..1] == [a];
    assert Needs([a]) == [];
    assert Needs([a, b]) == [];
    assert Needs([a, b, c]) == [(c, c.dependencies[0])];
  }

  lemma ProvidersOfFour(a: Module, b: Module, c: Module, d: Module, id: string)
    requires c.moduleId != id && d.moduleId != id
    ensures a.moduleId == id && b.moduleId != id ==> Providers([a, b, c, d], id) == [a]
    ensures a.moduleId != id && b.moduleId == id ==> Providers([a, b, c, d], id) == [b]
  {
    assert [a, b, c, d][..3] == [a, b, c] && [a, b, c][..2] == [a, b] && [a, b][..1] == [a];
    assert Providers([a], id) == (if a.moduleId == id then [a] else []);
    assert Providers([a, b], id) == Providers([a], id) + (if b.moduleId == id then [b] else []);
    assert Providers([a, b, c], id) == Providers([a, b], id);
  }

  lemma AmbiguousProviders()
    ensures ResolveProvider(AMBIGUOUS, FIRST_CONSUMER.dependencies[0]) == Ok((FIRST_PROVIDER, Interface("x", "c")))
    ensures ResolveProvider(AMBIGUOUS, SECOND_CONSUMER.dependencies[0]) == Ok((SECOND_PROVIDER, Interface("y", "c")))
  {
    DifferentIds();
    ProvidersOfFour(FIRST_PROVIDER, SECOND_PROVIDER, FIRST_CONSUMER, SECOND_CONSUMER, "ma");
    ProvidersOfFour(FIRST_PROVIDER, SECOND_PROVIDER, FIRST_CONSUMER, SECOND_CONSUMER, "mb");
  }

  lemma DifferentIds()
    ensures Distinct(["ma", "mb", "mc", "md"])
  {
    var ids := ["ma", "mb", "mc", "md"];
    assert forall i :: 0 <= i < 4 ==> ids[i][1] == "abcd"[i];
  }

  const AMBIGUOUS_RELATIONSHIP := "a/x->b/y->d/c"

  lemma OneRelationship()
    ensures Relationship(FIRST_PROVIDER, FIRST_CONSUMER, FIRST_CONSUMER.dependencies[0]) == AMBIGUOUS_RELATIONSHIP
    ensures Relationship(SECOND_PROVIDER, SECOND_CONSUMER, SECOND_CONSUMER.dependencies[0]) == AMBIGUOUS_RELATIONSHIP
    ensures AMBIGUOUS_RELATIONSHIP != "" && !(OBSERVED <= AMBIGUOUS_RELATIONSHIP)
  {
    assert "a" + "/" + "x" + "->" + "b/y->d" + "/" + "c" == AMBIGUOUS_RELATIONSHIP;
    assert "a/x->b" + "/" + "y" + "->" + "d" + "/" + "c" == AMBIGUOUS_RELATIONSHIP;
    assert AMBIGUOUS_RELATIONSHIP[0] == 'a' && OBSERVED[0] == 'o';
  }

  const NOTHING := Held(map[], map[], map[])

  lemma SingleKey(m: map<string, string>, a: string, b: string)
    requires a in m && b in m && |m| <= 1
    ensures a == b
  {
    var others := m.Keys - {a};
    assert |others| == |m.Keys| - 1;
    assert b == a || b in others;
  }

  lemma OneSubnetTaken(taken: map<string, string>)
    requires |taken| <= 1
    ensures !Exhausted(taken)
  {
    if !Free(0, taken) && !Free(1, taken) {
      SingleKey(taken, Candidate(0), Candidate(1));
      CandidatesDistinct(0, 1);
    }
  }

  /** A need whose relationship is not observed, and whose name is free or its own, gets a link as
      long as at most one subnet is taken. */
  lemma EarlyNeedDerives(env: Env, mods: seq<Module>, st: Derivation, need: Need, rel: string)
    requires env.Valid() && LinkFor(env, mods, need, Link(rel, "", "", "", "", ""))
    requires st.held.byRelationship == map[] && |st.held.subnets| <= 1
    requires Owner(st.held.names, LinkName(env, rel)) in {"", rel}
    ensures DeriveOne(env, mods, st, need).Ok?
    ensures var st' := DeriveOne(env, mods, st, need).value;
      |st'.held.subnets| <= |st.held.subnets| + 1 && st'.held.byRelationship == map[] &&
      st'.held.names == st.held.names[LinkName(env, rel) := rel]
  {
    FirstFreeIsFirst(Seed(env.digest(rel)), st.held.subnets);
    OneSubnetTaken(st.held.subnets);
  }

  ghost predicate SharedNeeds(env: Env, mods: seq<Module>, needs: seq<Need>, rel: string) {
    forall n :: n in needs ==> LinkFor(env, mods, n, Link(rel, "", "", "", "", ""))
  }

  /** Two needs with one relationship both get a link: nothing compares relationships. */
  lemma SharedRelationshipDerives(env: Env, mods: seq<Module>, rel: string)
    requires env.Valid() && |Needs(mods)| == 2 && SharedNeeds(env, mods, Needs(mods), rel)
    ensures DerivedLinks(env, mods, []).Ok?
  {
    var needs, start := Needs(mods), Derivation([], NOTHING);
    assert needs[..1] == [needs[0]] && needs[..1][..0] == [];
    EarlyNeedDerives(env, mods, start, needs[0], rel);
    var st := DeriveOne(env, mods, start, needs[0]).value;
    assert DeriveFrom(env, mods, start, needs[..1]) == Ok(st);
    EarlyNeedDerives(env, mods, st, needs[1], rel);
  }

  lemma SharedByAll(env: Env, mods: seq<Module>, needs: seq<Need>, out: seq<Link>, rel: string)
    requires |needs| == |out| && SharedNeeds(env, mods, needs, rel)
    requires forall i :: 0 <= i < |needs| ==> LinkFor(env, mods, needs[i], out[i])
    ensures forall l :: l in out ==> l.relationship == rel
  {
    forall i | 0 <= i < |out| ensures out[i].relationship == rel {
      assert LinkFor(env, mods, needs[i], out[i]) && needs[i] in needs;
    }
  }

  lemma SharedRelationshipTwice(env: Env, mods: seq<Module>, rel: string)
    requires env.Valid() && DerivedLinks(env, mods, []).Ok? && SharedNeeds(env, mods, Needs(mods), rel)
    ensures |DerivedLinks(env, mods, []).value| == |Needs(mods)|
    ensures forall l :: l in DerivedLinks(env, mods, []).value ==> l.relationship == rel
  {
    var st := FinalDerivation(env, mods, []);
    LinksInOrder(env, mods, NOTHING, Needs(mods));
    SharedByAll(env, mods, Needs(mods), st.out, rel);
    PermutationMembers(DerivedLinks(env, mods, []).value, st.out);
  }

  ghost predicate OneContainer(m: Module) {
    && m.containers == ["c"] && m.networks == [] && m.storagePaths == [] && m.hostnames == [] && m.secretIds == []
    && m.instanceId != "" && !(OBSERVED <= m.instanceId)
  }

  ghost predicate Plain(m: Module) { ValidContract(m) && OneContainer(m) }

  lemma AmbiguousIds()
    ensures Distinct(["a", "a/x->b", "b/y->d", "d"])
    ensures forall s :: s in ["a", "a/x->b", "b/y->d", "d"] ==> s != "" && !(OBSERVED <= s)
  {
    assert "a"[0] == 'a' && "a/x->b"[0] == 'a' && "b/y->d"[0] == 'b' && "d"[0] == 'd' && OBSERVED[0] == 'o';
    assert |"a"| != |"a/x->b"|;
  }

  lemma SamplePlain(m: Module)
    requires OneContainer(m) && |m.dependencies| <= 1
    requires forall d :: d in m.dependencies ==> d.interfaceId in ["x", "y"] && d.consumer == "c"
    requires forall i :: i in m.interfaces ==> i.container == "c"
    ensures Plain(m)
  {
    assert IsIdentifier("c") && IsIdentifier("x") && IsIdentifier("y");
  }

  lemma AmbiguousIsValid()
    ensures DistinctInstances(AMBIGUOUS) && forall m :: m in AMBIGUOUS ==> Plain(m)
  {
    var ids := ["a", "a/x->b", "b/y->d", "d"];
    AmbiguousIds();
    assert forall i :: 0 <= i < 4 ==> AMBIGUOUS[i].instanceId == ids[i];
    SamplePlain(FIRST_PROVIDER);
    SamplePlain(SECOND_PROVIDER);
    SamplePlain(FIRST_CONSUMER);
    SamplePlain(SECOND_CONSUMER);
  }

  /** Claims of which the resource determines the owner. */
  predicate OwnerFixed(c: Claim, rel: string) {
    && c.owner != "" && !(OBSERVED <= c.owner)
    && (if c.kind == "container" then c.value == ResourceName(c.owner, "c")
        else if c.kind == "unit" then c.value == ResourceName(c.owner, "c") + ".service"
        else c.owner == rel)
  }

  lemma OwnersFixed(claims: seq<Claim>, rel: string)
    requires forall c :: c in claims ==> OwnerFixed(c, rel)
    ensures NoCollision(claims)
  {
    forall i, j | 0 <= i < j < |claims| && SameResource(claims[i], claims[j])
      ensures SameLogicalOwner(claims[i].owner, claims[j].owner)
    {
      var c, d := claims[i], claims[j];
      assert c in claims && d in claims;
      if c.kind == "unit" {
        SuffixUnique(ResourceName(c.owner, "c"), ResourceName(d.owner, "c"), ".service");
      }
      if c.kind == "unit" || c.kind == "container" {
        assert ResourceName(c.owner, "c") == PrefixOf(c.owner) + "-c" && ResourceName(d.owner, "c") == PrefixOf(d.owner) + "-c";
        SuffixUnique(PrefixOf(c.owner), PrefixOf(d.owner), "-c");
        PrefixUnique("vpsmith-", c.owner, d.owner);
      }
    }
  }

  lemma OneContainerClaims(m: Module, rel: string)
    requires OneContainer(m)
    ensures forall c :: c in ModuleClaims(m) ==> OwnerFixed(c, rel)
  {
    assert m.containers[..0] == [];
    assert OtherClaims(m) == [];
    assert ContainerClaims(m.instanceId, m.containers) == ContainerPair(m.instanceId, "c");
  }

  lemma {:induction false} SampleClaims(mods: seq<Module>, rel: string)
    requires forall m :: m in mods ==> OneContainer(m)
    ensures forall c :: c in AllModuleClaims(mods) ==> OwnerFixed(c, rel)
    decreases |mods|
  {
    if mods != [] {
      OneContainerClaims(mods[|mods|-1], rel);
      SampleClaims(mods[..|mods|-1], rel);
    }
  }

  lemma {:induction false} OneOwnerClaims(links: seq<Link>, rel: string)
    requires rel != "" && !(OBSERVED <= rel) && forall l :: l in links ==> l.relationship == rel
    ensures forall c :: c in AllLinkClaims(links) ==> OwnerFixed(c, rel)
    decreases |links|
  {
    if links != [] {
      var l := links[|links|-1];
      assert l in links;
      OneOwnerClaims(links[..|links|-1], rel);
    }
  }

  lemma SharedRelationshipCompiles(env: Env, mods: seq<Module>, rel: string)
    requires env.Valid() && |Needs(mods)| == 2 && SharedNeeds(env, mods, Needs(mods), rel) && rel != "" && !(OBSERVED <= rel)
    requires DistinctInstances(mods) && forall m :: m in mods ==> Plain(m)
    ensures Compiled(env, mods, [], []) && !DistinctRelationships(DerivedLinks(env, mods, []).value)
  {
    SharedRelationshipDerives(env, mods, rel);
    SharedRelationshipTwice(env, mods, rel);
    var links := DerivedLinks(env, mods, []).value;
    assert links[0] in links && links[1] in links;
    SampleClaims(mods, rel);
    OneOwnerClaims(links, rel);
    OwnersFixed(DerivedClaims(mods, links) + [], rel);
  }

  lemma AmbiguousSharedNeeds(env: Env)
    ensures |Needs(AMBIGUOUS)| == 2 && SharedNeeds(env, AMBIGUOUS, Needs(AMBIGUOUS), AMBIGUOUS_RELATIONSHIP)
  {
    NeedsOfFour(FIRST_PROVIDER, SECOND_PROVIDER, FIRST_CONSUMER, SECOND_CONSUMER);
    AmbiguousProviders();
    OneRelationship();
  }

  lemma AmbiguousCompiles(env: Env)
    requires env.Valid()
    ensures Compiled(env, AMBIGUOUS, [], []) && !DistinctRelationships(DerivedLinks(env, AMBIGUOUS, []).value)
  {
    AmbiguousIsValid();
    AmbiguousSharedNeeds(env);
    OneRelationship();
    SharedRelationshipCompiles(env, AMBIGUOUS, AMBIGUOUS_RELATIONSHIP);
  }

  /** The compiler accepts these four instance IDs, claim checking included, and derives two links
      with one relationship: their name repeats, and with it an artifact path. */
  lemma AmbiguousRelationship(env: Env, c: Content)
    requires env.Valid()
    ensures Compiled(env, AMBIGUOUS, [], [])
    ensures !DistinctPaths(GeneratedArtifacts(c, AMBIGUOUS, DerivedLinks(env, AMBIGUOUS, []).value))
  {
    AmbiguousCompiles(env);
    RelationshipsExactly(env, AMBIGUOUS, []);
    CompiledPathsDistinct(env, c, AMBIGUOUS, [], []);
  }
}
