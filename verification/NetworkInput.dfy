/** From the observed facts of a target to the compiler's network input
    (`internal/deploymentinput/network.go`), and what a second derivation makes of the links of
    the first one. */
module NetworkInput {
  import opened Prelude
  import opened Ordering
  import opened Text
  import opened Modules
  import opened Subnets
  import opened LinkNets

  datatype LinkObservation = LinkObservation(name: string, present: bool, subnet: string, relationship: string,
                                             definitionMatches: bool)

  datatype PodmanNetwork = PodmanNetwork(name: string, present: bool, subnets: seq<string>)

  datatype Facts = Facts(links: seq<LinkObservation>, podman: seq<PodmanNetwork>)

  function NetworkKey(n: ObservedNetwork): Key { [n.name, n.subnet, n.relationship] }

  function Managed(l: LinkObservation): ObservedNetwork { ObservedNetwork(l.name, l.subnet, l.relationship) }

  /** The managed networks, and their names, of a prefix of the link observations. */
  function ManagedNetworks(links: seq<LinkObservation>): Result<seq<ObservedNetwork>> {
    if links == [] then Ok([])
    else
      match ManagedNetworks(links[..|links|-1])
      case Err(e) => Err(e)
      case Ok(ns) => AddManaged(ns, links[|links|-1])
  }

  predicate NameTaken(ns: seq<ObservedNetwork>, name: string) {
    exists i :: 0 <= i < |ns| && ns[i].name == name
  }

  function AddManaged(ns: seq<ObservedNetwork>, l: LinkObservation): Result<seq<ObservedNetwork>> {
    if !l.present then Ok(ns)
    else if !l.definitionMatches then Err("observed Link-Net differs from its managed definition")
    else if Blank(l.name) || Blank(l.subnet) || Blank(l.relationship) then Err("observed managed Link-Net identity is incomplete")
    else if NameTaken(ns, l.name) then Err("duplicate observed managed Link-Net")
    else Ok(ns + [Managed(l)])
  }

  function Foreign(n: PodmanNetwork): seq<ObservedNetwork> {
    if n.subnets == [] then [ObservedNetwork(n.name, "", "")]
    else seq(|n.subnets|, i requires 0 <= i < |n.subnets| => ObservedNetwork(n.name, n.subnets[i], ""))
  }

  function AddForeign(managed: seq<ObservedNetwork>, n: PodmanNetwork): Result<seq<ObservedNetwork>> {
    if !n.present then Ok([])
    else if Blank(n.name) then Err("observed Podman network name is empty")
    else if NameTaken(managed, n.name) then Ok([])
    else Ok(Foreign(n))
  }

  function ForeignNetworks(managed: seq<ObservedNetwork>, podman: seq<PodmanNetwork>): Result<seq<ObservedNetwork>> {
    if podman == [] then Ok([])
    else
      match ForeignNetworks(managed, podman[..|podman|-1])
      case Err(e) => Err(e)
      case Ok(ns) =>
        match AddForeign(managed, podman[|podman|-1])
        case Err(e) => Err(e)
        case Ok(more) => Ok(ns + more)
  }

  function Networks(facts: Facts): Result<seq<ObservedNetwork>> {
    match ManagedNetworks(facts.links)
    case Err(e) => Err(e)
    case Ok(managed) =>
      match ForeignNetworks(managed, facts.podman)
      case Err(e) => Err(e)
      case Ok(foreign) => Ok(Sort(managed + foreign, NetworkKey))
  }

  lemma {:induction false} ManagedErr(links: seq<LinkObservation>, k: nat)
    requires k <= |links| && ManagedNetworks(links[..k]).Err?
    ensures ManagedNetworks(links) == ManagedNetworks(links[..k])
    decreases |links|
  {
    if k == |links| {
      assert links[..k] == links;
    } else {
      assert links[..|links|-1][..k] == links[..k];
      ManagedErr(links[..|links|-1], k);
    }
  }

  lemma {:induction false} ForeignErr(managed: seq<ObservedNetwork>, podman: seq<PodmanNetwork>, k: nat)
    requires k <= |podman| && ForeignNetworks(managed, podman[..k]).Err?
    ensures ForeignNetworks(managed, podman) == ForeignNetworks(managed, podman[..k])
    decreases |podman|
  {
    if k == |podman| {
      assert podman[..k] == podman;
    } else {
      assert podman[..|podman|-1][..k] == podman[..k];
      ForeignErr(managed, podman[..|podman|-1], k);
    }
  }

  method CollectNetworks(facts: Facts) returns (r: Result<seq<ObservedNetwork>>)
    ensures r == Networks(facts)
  {
    var managed: seq<ObservedNetwork> := [];
    for i := 0 to |facts.links|
      invariant ManagedNetworks(facts.links[..i]) == Ok(managed)
    {
      assert facts.links[..i+1][..i] == facts.links[..i];
      var next := AddManaged(managed, facts.links[i]);
      if next.Err? {
        ManagedErr(facts.links, i + 1);
        return next;
      }
      managed := next.value;
    }
    assert facts.links[..|facts.links|] == facts.links;
    var foreign: seq<ObservedNetwork> := [];
    for i := 0 to |facts.podman|
      invariant ForeignNetworks(managed, facts.podman[..i]) == Ok(foreign)
    {
      assert facts.podman[..i+1][..i] == facts.podman[..i];
      var more := AddForeign(managed, facts.podman[i]);
      if more.Err? {
        ForeignErr(managed, facts.podman, i + 1);
        return more;
      }
      foreign := foreign + more.value;
    }
    assert facts.podman[..|facts.podman|] == facts.podman;
    return Ok(Sort(managed + foreign, NetworkKey));
  }

  // ---------- What the input consists of ----------

  predicate PresentForeign(facts: Facts, managed: seq<ObservedNetwork>, n: PodmanNetwork) {
    n in facts.podman && n.present && !NameTaken(managed, n.name)
  }

  function PresentManaged(links: seq<LinkObservation>): seq<ObservedNetwork> {
    if links == [] then []
    else PresentManaged(links[..|links|-1]) + (if links[|links|-1].present then [Managed(links[|links|-1])] else [])
  }

  predicate Complete(n: ObservedNetwork) { !Blank(n.name) && !Blank(n.subnet) && !Blank(n.relationship) }

  predicate DistinctNames(ns: seq<ObservedNetwork>) {
    forall i, j :: 0 <= i < j < |ns| ==> ns[i].name != ns[j].name
  }

  /** Managed networks are accepted exactly when the present ones match their definition, are
      complete and have distinct names. */
  lemma {:induction false} ManagedExact(links: seq<LinkObservation>)
    ensures ManagedNetworks(links).Ok? <==>
      && (forall l :: l in links && l.present ==> l.definitionMatches && Complete(Managed(l)))
      && DistinctNames(PresentManaged(links))
    ensures ManagedNetworks(links).Ok? ==> ManagedNetworks(links).value == PresentManaged(links)
    ensures forall n :: n in PresentManaged(links) ==> exists l :: l in links && l.present && Managed(l) == n
    decreases |links|
  {
    if links != [] {
      var before, last := links[..|links|-1], links[|links|-1];
      assert links == before + [last];
      ManagedExact(before);
      var ns, all := PresentManaged(before), PresentManaged(links);
      assert ns <= all;
      if last.present {
        assert all == ns + [Managed(last)];
        assert all[|ns|].name == last.name;
        assert NameTaken(ns, last.name) || DistinctNames(ns) ==> DistinctNames(all) <==> !NameTaken(ns, last.name);
      }
      forall n | n in all ensures exists l :: l in links && l.present && Managed(l) == n {
        if n in ns {
          var l :| l in before && l.present && Managed(l) == n;
          assert l in links;
        } else {
          assert last in links;
        }
      }
    }
  }

  lemma {:induction false} ForeignContents(managed: seq<ObservedNetwork>, podman: seq<PodmanNetwork>)
    requires ForeignNetworks(managed, podman).Ok?
    ensures forall n :: n in podman && n.present ==> !Blank(n.name)
    ensures forall o :: o in ForeignNetworks(managed, podman).value <==>
      exists n :: n in podman && n.present && !NameTaken(managed, n.name) && o in Foreign(n)
    decreases |podman|
  {
    if podman != [] {
      var before, last := podman[..|podman|-1], podman[|podman|-1];
      assert podman == before + [last];
      ForeignContents(managed, before);
      forall o ensures o in ForeignNetworks(managed, podman).value <==>
        exists n :: n in podman && n.present && !NameTaken(managed, n.name) && o in Foreign(n)
      {
        if o in ForeignNetworks(managed, before).value {
          var n :| n in before && n.present && !NameTaken(managed, n.name) && o in Foreign(n);
          assert n in podman;
        }
        if last.present && !NameTaken(managed, last.name) && o in Foreign(last) {
          assert last in podman;
        }
      }
    }
  }

  lemma {:induction false} ForeignSucceeds(managed: seq<ObservedNetwork>, podman: seq<PodmanNetwork>)
    requires forall n :: n in podman && n.present ==> !Blank(n.name)
    ensures ForeignNetworks(managed, podman).Ok?
    decreases |podman|
  {
    if podman != [] {
      ForeignSucceeds(managed, podman[..|podman|-1]);
    }
  }

  // ---------- Deriving a second time ----------

  function Triples(links: seq<Link>): (r: seq<ObservedNetwork>)
    ensures |r| == |links| && forall i :: 0 <= i < |r| ==> r[i] == LinkTriple(links[i])
  {
    seq(|links|, i requires 0 <= i < |links| => LinkTriple(links[i]))
  }

  /** The facts after the derived links were applied: the managed Link-Nets are exactly the derived
      links, with matching definitions, and every other Podman network was a foreign one before. */
  ghost predicate Redeployed(before: Facts, after: Facts, links: seq<Link>) {
    && ManagedNetworks(before.links).Ok?
    && (forall l :: l in after.links && l.present ==> l.definitionMatches)
    && IsPermutation(PresentManaged(after.links), Triples(links))
    && forall n :: n in after.podman && n.present ==>
         (exists l :: l in links && l.name == n.name) || PresentForeign(before, ManagedNetworks(before.links).value, n)
  }

  /** The links derived from the facts of a target. */
  function LinksFrom(env: Env, mods: seq<Module>, facts: Facts): Result<seq<Link>>
    requires env.Valid()
  {
    match Networks(facts)
    case Err(e) => Err(e)
    case Ok(ns) => DerivedLinks(env, mods, ns)
  }

  lemma DistinctNamesReordered(xs: seq<ObservedNetwork>, ys: seq<ObservedNetwork>)
    requires IsPermutation(xs, ys) && DistinctNames(xs)
    ensures DistinctNames(ys)
  {
    PairwiseReordered(xs, ys, (a: ObservedNetwork, b: ObservedNetwork) => a.name != b.name);
  }

  lemma OnePerRelationshipReordered(xs: seq<ObservedNetwork>, ys: seq<ObservedNetwork>)
    requires IsPermutation(xs, ys) && OnePerRelationship(xs)
    ensures OnePerRelationship(ys)
  {
    PairwiseReordered(xs, ys, (a: ObservedNetwork, b: ObservedNetwork) => a.relationship == "" || a.relationship != b.relationship);
  }

  /** Link names are a function of the relationship and differ for different relationships. */
  lemma NamesDistinctExactly(env: Env, mods: seq<Module>, observed: seq<ObservedNetwork>)
    requires env.Valid() && DerivedLinks(env, mods, observed).Ok?
    ensures var links := DerivedLinks(env, mods, observed).value;
      DistinctNames(Triples(links)) <==> DistinctRelationships(links)
  {
    var st := FinalDerivation(env, mods, observed);
    var links := DerivedLinks(env, mods, observed).value;
    LinksDisjoint(env, mods, observed);
    forall i | 0 <= i < |links| ensures LinkHolds(env, st.held, links[i]) {
      assert links[i] in links;
    }
    if DistinctNames(Triples(links)) {
      forall i, j | 0 <= i < j < |links| ensures links[i].relationship != links[j].relationship {
        assert Triples(links)[i].name != Triples(links)[j].name;
      }
    }
    if DistinctRelationships(links) {
      forall i, j | 0 <= i < j < |links| ensures Triples(links)[i].name != Triples(links)[j].name {
        assert links[i].relationship != links[j].relationship;
      }
    }
  }

  lemma NamesNotBlank(env: Env, rel: string, v: nat)
    requires env.Valid() && v < SLOTS
    ensures !Blank(LinkName(env, rel)) && !Blank(Candidate(v))
  {
    assert LinkName(env, rel)[0] == 'v' && !IsSpace('v');
    assert Candidate(v)[0] == '1' && !IsSpace('1');
  }

  lemma DerivedComplete(env: Env, mods: seq<Module>, before: Facts, l: Link)
    requires env.Valid() && LinksFrom(env, mods, before).Ok? && l in LinksFrom(env, mods, before).value
    ensures Complete(LinkTriple(l))
  {
    var observed := Networks(before).value;
    var h := HoldAll(env, observed).value;
    var st := FinalDerivation(env, mods, observed);
    assert LinkHolds(env, st.held, l);
    DerivedRelationship(env, mods, observed, l);
    if l.relationship in h.byRelationship {
      NamesNotBlank(env, l.relationship, 0);
      HoldAllExact(env, observed);
      ReusedComplete(before, h, l.relationship);
    } else {
      var v: nat :| v < SLOTS && l.subnet == Candidate(v);
      NamesNotBlank(env, l.relationship, v);
    }
  }

  lemma ReusedComplete(before: Facts, h: Held, rel: string)
    requires Networks(before).Ok? && HoldsRelationships(h.byRelationship, Networks(before).value)
    requires rel in h.byRelationship
    ensures Complete(h.byRelationship[rel])
  {
    InputContents(before, h.byRelationship[rel]);
  }

  /** A network with a relationship in the compiler's input comes from a complete managed one. */
  lemma InputContents(facts: Facts, n: ObservedNetwork)
    requires Networks(facts).Ok? && n in Networks(facts).value
    ensures var managed := ManagedNetworks(facts.links).value;
      if n in managed then Complete(n) else n.relationship == "" && n in ForeignNetworks(managed, facts.podman).value
  {
    var managed := ManagedNetworks(facts.links).value;
    var foreign := ForeignNetworks(managed, facts.podman).value;
    SortSorts(managed + foreign, NetworkKey);
    PermutationMembers(Sort(managed + foreign, NetworkKey), managed + foreign);
    ManagedExact(facts.links);
    ForeignContents(managed, facts.podman);
    if n !in managed {
      assert n in foreign;
      var p :| p in facts.podman && p.present && !NameTaken(managed, p.name) && n in Foreign(p);
    }
  }

  lemma ManagedAreTriples(managed: seq<ObservedNetwork>, links: seq<Link>)
    requires IsPermutation(managed, Triples(links))
    ensures forall l :: l in links ==> LinkTriple(l) in managed
    ensures forall n :: n in managed ==> exists l :: l in links && LinkTriple(l) == n
    ensures DistinctNames(managed) <==> DistinctNames(Triples(links))
  {
    var triples := Triples(links);
    PermutationMembers(managed, triples);
    if DistinctNames(managed) { DistinctNamesReordered(managed, triples); }
    if DistinctNames(triples) { DistinctNamesReordered(triples, managed); }
    forall l | l in links ensures LinkTriple(l) in managed {
      var i :| 0 <= i < |links| && links[i] == l;
      assert triples[i] in managed;
    }
    forall n | n in managed ensures exists l :: l in links && LinkTriple(l) == n {
      var i :| 0 <= i < |triples| && triples[i] == n;
      assert links[i] in links;
    }
  }

  /** The second input is rejected only when two dependencies have one relationship. */
  lemma SecondInputAccepted(env: Env, mods: seq<Module>, before: Facts, after: Facts)
    requires env.Valid() && LinksFrom(env, mods, before).Ok?
    requires Redeployed(before, after, LinksFrom(env, mods, before).value)
    ensures Networks(after).Ok? <==> Unambiguous(mods)
  {
    RelationshipsExactly(env, mods, Networks(before).value);
    hide Unambiguous;
    var links, managed := LinksFrom(env, mods, before).value, PresentManaged(after.links);
    ManagedAreTriples(managed, links);
    ManagedExact(after.links);
    NamesDistinctExactly(env, mods, Networks(before).value);
    forall l | l in links ensures Complete(LinkTriple(l)) {
      DerivedComplete(env, mods, before, l);
    }
    forall o | o in after.links && o.present ensures Complete(Managed(o)) {
      PresentIn(after.links, o);
    }
    ForeignContents(ManagedNetworks(before.links).value, before.podman);
    forall n | n in after.podman && n.present ensures !Blank(n.name) {
      if l :| l in links && l.name == n.name {
        assert Complete(LinkTriple(l));
      }
    }
    ForeignSucceeds(managed, after.podman);
  }

  ghost predicate FromLink(links: seq<Link>, n: ObservedNetwork) { exists l :: l in links && LinkTriple(l) == n }

  /** An accepted second input means that the links have different relationships. */
  lemma SecondInputApart(env: Env, mods: seq<Module>, before: Facts, after: Facts)
    requires env.Valid() && LinksFrom(env, mods, before).Ok?
    requires Redeployed(before, after, LinksFrom(env, mods, before).value) && Networks(after).Ok?
    ensures DistinctRelationships(LinksFrom(env, mods, before).value)
  {
    SecondInputAccepted(env, mods, before, after);
    RelationshipsExactly(env, mods, Networks(before).value);
  }

  lemma SecondManaged(before: Facts, after: Facts, links: seq<Link>)
    requires Redeployed(before, after, links) && Networks(after).Ok?
    ensures var managed := ManagedNetworks(after.links).value;
      && (forall l :: l in links ==> LinkTriple(l) in managed)
      && (forall n :: n in managed ==> FromLink(links, n))
  {
    ManagedExact(after.links);
    ManagedAreTriples(PresentManaged(after.links), links);
  }

  /** The second input consists of the derived links and of foreign networks of the first one. */
  lemma SecondInput(env: Env, mods: seq<Module>, before: Facts, after: Facts)
    requires env.Valid() && LinksFrom(env, mods, before).Ok?
    requires Redeployed(before, after, LinksFrom(env, mods, before).value) && Networks(after).Ok?
    ensures OnePerRelationship(Networks(after).value)
    ensures forall l :: l in LinksFrom(env, mods, before).value ==> LinkTriple(l) in Networks(after).value
    ensures forall n :: n in Networks(after).value ==>
      FromLink(LinksFrom(env, mods, before).value, n) || (n in Networks(before).value && n.relationship == "")
  {
    hide Redeployed, DistinctRelationships, OnePerRelationship, FromLink;
    var links := LinksFrom(env, mods, before).value;
    SecondInputApart(env, mods, before, after);
    SecondManaged(before, after, links);
    SecondInputContents(before, after, links);
  }

  lemma {:induction false} PresentIn(links: seq<LinkObservation>, o: LinkObservation)
    requires o in links && o.present
    ensures Managed(o) in PresentManaged(links)
    decreases |links|
  {
    if o != links[|links|-1] {
      assert links == links[..|links|-1] + [links[|links|-1]];
      PresentIn(links[..|links|-1], o);
    }
  }

  lemma InputMembers(facts: Facts)
    requires Networks(facts).Ok?
    ensures var managed := ManagedNetworks(facts.links).value;
      IsPermutation(Networks(facts).value, managed + ForeignNetworks(managed, facts.podman).value)
    ensures var managed := ManagedNetworks(facts.links).value;
      forall n :: n in Networks(facts).value <==> n in managed || n in ForeignNetworks(managed, facts.podman).value
  {
    var managed := ManagedNetworks(facts.links).value;
    var all := managed + ForeignNetworks(managed, facts.podman).value;
    SortSorts(all, NetworkKey);
    PermutationMembers(Sort(all, NetworkKey), all);
  }

  lemma LinkNamesTaken(managed: seq<ObservedNetwork>, links: seq<Link>, l: Link)
    requires IsPermutation(managed, Triples(links)) && l in links
    ensures NameTaken(managed, l.name)
  {
    PermutationMembers(managed, Triples(links));
    var i :| 0 <= i < |links| && links[i] == l;
    assert Triples(links)[i] in managed;
    var k :| 0 <= k < |managed| && managed[k] == Triples(links)[i];
  }

  lemma ForeignStays(before: Facts, after: Facts, links: seq<Link>, o: ObservedNetwork)
    requires Networks(before).Ok? && Networks(after).Ok? && Redeployed(before, after, links)
    requires o in ForeignNetworks(ManagedNetworks(after.links).value, after.podman).value
    ensures o.relationship == "" && o in ForeignNetworks(ManagedNetworks(before.links).value, before.podman).value
  {
    var managed0, managed := ManagedNetworks(before.links).value, ManagedNetworks(after.links).value;
    ForeignContents(managed, after.podman);
    var n :| n in after.podman && n.present && !NameTaken(managed, n.name) && o in Foreign(n);
    assert PresentForeign(before, managed0, n) by {
      ManagedExact(after.links);
      forall l | l in links ensures l.name != n.name {
        LinkNamesTaken(managed, links, l);
      }
    }
    ForeignContents(managed0, before.podman);
  }

  lemma SecondInputContents(before: Facts, after: Facts, links: seq<Link>)
    requires Networks(before).Ok? && Networks(after).Ok? && Redeployed(before, after, links)
    requires DistinctRelationships(links)
    ensures OnePerRelationship(Networks(after).value)
    ensures forall n :: n in ManagedNetworks(after.links).value ==> n in Networks(after).value
    ensures forall n :: n in Networks(after).value ==>
      n in ManagedNetworks(after.links).value || (n in Networks(before).value && n.relationship == "")
  {
    var managed := ManagedNetworks(after.links).value;
    var foreign := ForeignNetworks(managed, after.podman).value;
    InputMembers(before);
    InputMembers(after);
    forall o | o in foreign ensures o in Networks(before).value && o.relationship == "" {
      ForeignStays(before, after, links, o);
    }
    ManagedExact(after.links);
    OnePerRelationshipReordered(Triples(links), managed);
    var all := managed + foreign;
    forall i, j | 0 <= i < j < |all| && all[i].relationship != "" ensures all[i].relationship != all[j].relationship {
      if j >= |managed| {
        assert all[j] in foreign;
      }
    }
    OnePerRelationshipReordered(all, Networks(after).value);
  }

  /** The second input can be held together. */
  lemma SecondInputConsistent(env: Env, mods: seq<Module>, before: Facts, after: Facts)
    requires env.Valid() && LinksFrom(env, mods, before).Ok?
    requires Redeployed(before, after, LinksFrom(env, mods, before).value)
    requires Networks(after).Ok?
    ensures Consistent(env, Networks(after).value)
  {
    var observed, ns := Networks(before).value, Networks(after).value;
    var st := FinalDerivation(env, mods, observed);
    SecondInput(env, mods, before, after);
    HoldAllExact(env, observed);
    forall n | n in ns ensures NetworkHolds(st.held, n) && (n.subnet != "" ==> env.parses(n.subnet)) {
      if l :| l in LinksFrom(env, mods, before).value && LinkTriple(l) == n {
        assert LinkHolds(env, st.held, l);
      } else {
        assert NetworkHolds(st.held, n);
      }
    }
    forall m, n | m in ns && n in ns && NameOf(m) == NameOf(n) != "" ensures OwnerKey(m) == OwnerKey(n) {
      assert NetworkHolds(st.held, m) && NetworkHolds(st.held, n);
    }
    forall m, n | m in ns && n in ns && SubnetOf(m) == SubnetOf(n) != "" ensures OwnerKey(m) == OwnerKey(n) {
      assert NetworkHolds(st.held, m) && NetworkHolds(st.held, n);
    }
  }

  /** Fixpoint: once the derived links are observed, deriving again returns exactly the same links,
      with names, aliases and subnets; the only way to fail is two dependencies with one relationship. */
  lemma LinkNetFixpoint(env: Env, mods: seq<Module>, before: Facts, after: Facts)
    requires env.Valid() && LinksFrom(env, mods, before).Ok?
    requires Redeployed(before, after, LinksFrom(env, mods, before).value)
    ensures if Unambiguous(mods)
            then LinksFrom(env, mods, after) == LinksFrom(env, mods, before)
            else LinksFrom(env, mods, after).Err?
  {
    SecondInputAccepted(env, mods, before, after);
    hide Unambiguous;
    if Unambiguous(mods) {
      SecondInput(env, mods, before, after);
      var observed, ns := Networks(before).value, Networks(after).value;
      var st := FinalDerivation(env, mods, observed);
      SecondInputConsistent(env, mods, before, after);
      HoldAllExact(env, ns);
      var again := HoldAll(env, ns).value;
      forall l | l in st.out
        ensures && l.relationship in again.byRelationship && again.byRelationship[l.relationship] == LinkTriple(l)
                && HeldBy(again.names, l.name, l.relationship) && HeldBy(again.subnets, l.subnet, l.relationship) && l.subnet != ""
      {
        var n := LinkTriple(l);
        assert LinkHolds(env, st.held, l);
        assert l in LinksFrom(env, mods, before).value && n in ns;
        assert |l.relationship| > 0 && |l.name| > 0;
        assert NameOf(n) == l.name && SubnetOf(n) == l.subnet;
      }
      DeriveAgain(env, mods, HoldAll(env, observed).value, again, Needs(mods));
    }
  }
}
