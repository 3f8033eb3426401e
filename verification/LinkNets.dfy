/** Derivation of Link-Nets from the dependencies of the desired modules
    (`deriveLinks`, `resolveProvider`, `selectLinkSubnet` in `internal/deployment/graph.go`). */
module LinkNets {
  import opened Prelude
  import opened Ordering
  import opened Text
  import opened Modules
  import opened Subnets

  /** SHA-256 of a text and the acceptance of a network prefix by `netip.ParsePrefix`. */
  datatype Env = Env(digest: string -> bytes, parses: string -> bool) {
    ghost predicate Valid() {
      && (forall s :: |digest(s)| == 32)
      && (forall v: nat :: v < SLOTS ==> parses(Candidate(v)))
    }
  }

  // ---------- Observed networks ----------

  /** Who holds which name and subnet, and the managed networks by relationship. */
  datatype Held = Held(names: map<string, string>, subnets: map<string, string>,
                       byRelationship: map<string, ObservedNetwork>)

  function OwnerKey(n: ObservedNetwork): string {
    if n.relationship == "" then "observed:" + n.name else n.relationship
  }

  predicate HeldByOther(m: map<string, string>, k: string, owner: string) {
    k in m && m[k] != owner
  }

  function HoldNetwork(env: Env, h: Held, n: ObservedNetwork): Result<Held> {
    if n.name != "" && HeldByOther(h.names, n.name, OwnerKey(n)) then
      Err("observed network name collision")
    else if n.subnet != "" && !env.parses(n.subnet) then
      Err("observed network has invalid subnet")
    else if n.subnet != "" && HeldByOther(h.subnets, n.subnet, OwnerKey(n)) then
      Err("observed subnet collision")
    else if n.relationship != "" && n.relationship in h.byRelationship then
      Err("duplicate observed Link-Net relationship")
    else
      Ok(Held(if n.name != "" then h.names[n.name := OwnerKey(n)] else h.names,
              if n.subnet != "" then h.subnets[n.subnet := OwnerKey(n)] else h.subnets,
              if n.relationship != "" then h.byRelationship[n.relationship := n] else h.byRelationship))
  }

  function HoldAll(env: Env, ns: seq<ObservedNetwork>): Result<Held> {
    if ns == [] then Ok(Held(map[], map[], map[]))
    else
      match HoldAll(env, ns[..|ns|-1])
      case Err(e) => Err(e)
      case Ok(h) => HoldNetwork(env, h, ns[|ns|-1])
  }

  function NameOf(n: ObservedNetwork): string { n.name }

  function SubnetOf(n: ObservedNetwork): string { n.subnet }

  /** A non-empty name or subnet appears under one owner only. */
  ghost predicate OneOwner(ns: seq<ObservedNetwork>, field: ObservedNetwork -> string) {
    forall m, n :: m in ns && n in ns && field(m) == field(n) != "" ==> OwnerKey(m) == OwnerKey(n)
  }

  ghost predicate OnePerRelationship(ns: seq<ObservedNetwork>) {
    forall i, j :: 0 <= i < j < |ns| && ns[i].relationship != "" ==> ns[i].relationship != ns[j].relationship
  }

  /** Observed networks that can be held together. */
  ghost predicate Consistent(env: Env, ns: seq<ObservedNetwork>) {
    && (forall n :: n in ns && n.subnet != "" ==> env.parses(n.subnet))
    && OneOwner(ns, NameOf) && OneOwner(ns, SubnetOf) && OnePerRelationship(ns)
  }

  /** The map holds exactly what the field of the observed networks says. */
  ghost predicate HoldsField(m: map<string, string>, ns: seq<ObservedNetwork>, field: ObservedNetwork -> string) {
    && (forall n :: n in ns && field(n) != "" ==> field(n) in m && m[field(n)] == OwnerKey(n))
    && (forall k :: k in m ==> exists n :: n in ns && field(n) == k != "" && m[k] == OwnerKey(n))
  }

  ghost predicate HoldsRelationships(m: map<string, ObservedNetwork>, ns: seq<ObservedNetwork>) {
    && (forall n :: n in ns && n.relationship != "" ==> n.relationship in m && m[n.relationship] == n)
    && (forall k :: k in m ==> m[k] in ns && m[k].relationship == k != "")
  }

  ghost predicate Holds(h: Held, ns: seq<ObservedNetwork>) {
    HoldsField(h.names, ns, NameOf) && HoldsField(h.subnets, ns, SubnetOf) && HoldsRelationships(h.byRelationship, ns)
  }

  lemma HoldFieldMore(m: map<string, string>, before: seq<ObservedNetwork>, n: ObservedNetwork, field: ObservedNetwork -> string)
    requires HoldsField(m, before, field) && OneOwner(before, field)
    requires field(n) == "" || !HeldByOther(m, field(n), OwnerKey(n))
    ensures HoldsField(if field(n) != "" then m[field(n) := OwnerKey(n)] else m, before + [n], field)
    ensures OneOwner(before + [n], field)
  {
    var ns := before + [n];
    var m' := if field(n) != "" then m[field(n) := OwnerKey(n)] else m;
    assert forall x :: x in ns <==> x in before || x == n;
    forall k | k in m' ensures exists x :: x in ns && field(x) == k != "" && m'[k] == OwnerKey(x) {
      if k == field(n) != "" {
        assert n in ns;
      } else {
        var x :| x in before && field(x) == k != "" && m[k] == OwnerKey(x);
        assert x in ns;
      }
    }
  }

  lemma HoldRelationshipMore(m: map<string, ObservedNetwork>, before: seq<ObservedNetwork>, n: ObservedNetwork)
    requires HoldsRelationships(m, before) && OnePerRelationship(before)
    requires n.relationship == "" || n.relationship !in m
    ensures HoldsRelationships(if n.relationship != "" then m[n.relationship := n] else m, before + [n])
    ensures OnePerRelationship(before + [n])
  {
    var ns := before + [n];
    assert forall x :: x in ns <==> x in before || x == n;
    forall i, j | 0 <= i < j < |ns| && ns[i].relationship != "" ensures ns[i].relationship != ns[j].relationship {
      assert ns[i] == before[i] && ns[i] in before;
    }
  }

  lemma ConsistentPrefix(env: Env, before: seq<ObservedNetwork>, n: ObservedNetwork, h: Held)
    requires Consistent(env, before + [n])
    ensures Consistent(env, before)
    ensures Holds(h, before) ==> HoldNetwork(env, h, n).Ok?
  {
    var ns := before + [n];
    assert forall x :: x in ns <==> x in before || x == n;
    assert forall i :: 0 <= i < |before| ==> before[i] == ns[i];
    assert NameOf(n) == n.name && SubnetOf(n) == n.subnet;
    forall m | m in before && m.relationship != "" ensures m.relationship != n.relationship {
      var i :| 0 <= i < |before| && before[i] == m;
      assert ns[i] == m && ns[|before|] == n;
    }
  }

  /** Holding succeeds exactly on consistent observations. */
  lemma {:induction false} HoldAllExact(env: Env, ns: seq<ObservedNetwork>)
    ensures HoldAll(env, ns).Ok? <==> Consistent(env, ns)
    ensures HoldAll(env, ns).Ok? ==> Holds(HoldAll(env, ns).value, ns)
    decreases |ns|
  {
    if ns != [] {
      var before, n := ns[..|ns|-1], ns[|ns|-1];
      assert ns == before + [n];
      HoldAllExact(env, before);
      if HoldAll(env, before).Ok? {
        var h := HoldAll(env, before).value;
        if HoldNetwork(env, h, n).Ok? {
          HoldFieldMore(h.names, before, n, NameOf);
          HoldFieldMore(h.subnets, before, n, SubnetOf);
          HoldRelationshipMore(h.byRelationship, before, n);
        } else if Consistent(env, ns) {
          ConsistentPrefix(env, before, n, h);
        }
      } else if Consistent(env, ns) {
        ConsistentPrefix(env, before, n, Held(map[], map[], map[]));
      }
    }
  }

  // ---------- One link ----------

  function Relationship(p: Module, c: Module, d: Dependency): string {
    p.instanceId + "/" + d.interfaceId + "->" + c.instanceId + "/" + d.consumer
  }

  function HexOf(b: bytes): (s: string)
    ensures |s| == 2 * |b|
    ensures IsHex(s)
  {
    if b == [] then [] else [Digit(b[0] as nat / 16), Digit(b[0] as nat % 16)] + HexOf(b[1..])
  }

  const LINK_PREFIX := "vpsmith-link-"

  function LinkName(env: Env, rel: string): string
    requires |env.digest(rel)| == 32
  {
    LINK_PREFIX + HexOf(env.digest(rel)[..6])
  }

  function LinkAlias(env: Env, rel: string): string
    requires |env.digest(rel)| == 32
  {
    "if-" + HexOf(env.digest(rel)[..4])
  }

  function Providers(mods: seq<Module>, id: string): seq<Module> {
    if mods == [] then []
    else Providers(mods[..|mods|-1], id) + (if mods[|mods|-1].moduleId == id then [mods[|mods|-1]] else [])
  }

  function FindInterface(xs: seq<Interface>, id: string): (r: Option<Interface>)
    ensures r.Some? ==> r.value in xs && r.value.id == id
  {
    if xs == [] then None else if xs[0].id == id then Some(xs[0]) else FindInterface(xs[1..], id)
  }

  /** The single module offering the dependency's interface. */
  function ResolveProvider(mods: seq<Module>, d: Dependency): Result<(Module, Interface)> {
    var ps := Providers(mods, d.targetModule);
    if |ps| == 0 then Err("dependency has missing provider")
    else if |ps| > 1 then Err("dependency has ambiguous provider")
    else match FindInterface(ps[0].interfaces, d.interfaceId)
      case None => Err("provider does not offer interface")
      case Some(x) => Ok((ps[0], x))
  }

  function SelectSubnet(env: Env, rel: string, h: Held): Result<string>
    requires |env.digest(rel)| == 32
  {
    if rel in h.byRelationship then
      var existing := h.byRelationship[rel];
      if existing.name != LinkName(env, rel) then Err("unexpected observed name")
      else if existing.subnet == "" then Err("no observed subnet")
      else if Owner(h.subnets, existing.subnet) != "" && Owner(h.subnets, existing.subnet) != rel then Err("subnet collides")
      else Ok(existing.subnet)
    else if Owner(h.names, LinkName(env, rel)) != "" && Owner(h.names, LinkName(env, rel)) != rel then
      Err("name collides with observed network")
    else
      match FirstFree(Seed(env.digest(rel)), 0, h.subnets)
      case None => Err("no collision-free Link-Net subnet available")
      case Some(s) => Ok(s)
  }

  /** The links derived so far, with the names and subnets held after deriving them. */
  datatype Derivation = Derivation(out: seq<Link>, held: Held)

  type Need = (Module, Dependency)

  function DeriveOne(env: Env, mods: seq<Module>, st: Derivation, need: Need): Result<Derivation>
    requires env.Valid()
  {
    match ResolveProvider(mods, need.1)
    case Err(e) => Err(e)
    case Ok((p, x)) =>
      var rel := Relationship(p, need.0, need.1);
      match SelectSubnet(env, rel, st.held)
      case Err(e) => Err(e)
      case Ok(subnet) =>
        var name := LinkName(env, rel);
        Ok(Derivation(
          st.out + [Link(rel, name, subnet, LinkAlias(env, rel),
                         p.instanceId + "/" + x.container, need.0.instanceId + "/" + need.1.consumer)],
          st.held.(names := st.held.names[name := rel], subnets := st.held.subnets[subnet := rel])))
  }

  function DeriveFrom(env: Env, mods: seq<Module>, st: Derivation, needs: seq<Need>): Result<Derivation>
    requires env.Valid()
  {
    if needs == [] then Ok(st)
    else
      match DeriveFrom(env, mods, st, needs[..|needs|-1])
      case Err(e) => Err(e)
      case Ok(st') => DeriveOne(env, mods, st', needs[|needs|-1])
  }

  lemma {:induction false} DeriveAppend(env: Env, mods: seq<Module>, st: Derivation, a: seq<Need>, b: seq<Need>)
    requires env.Valid()
    ensures DeriveFrom(env, mods, st, a + b) ==
      match DeriveFrom(env, mods, st, a) case Err(e) => Err(e) case Ok(st') => DeriveFrom(env, mods, st', b)
    decreases |b|
  {
    if b == [] {
      assert a + b == a;
    } else {
      assert (a + b)[..|a + b|-1] == a + b[..|b|-1];
      DeriveAppend(env, mods, st, a, b[..|b|-1]);
    }
  }

  function ModuleNeeds(m: Module): (r: seq<Need>)
    ensures |r| == |m.dependencies|
  {
    seq(|m.dependencies|, i requires 0 <= i < |m.dependencies| => (m, m.dependencies[i]))
  }

  /** The dependencies in the order in which the two nested loops visit them. */
  function Needs(mods: seq<Module>): seq<Need> {
    if mods == [] then [] else Needs(mods[..|mods|-1]) + ModuleNeeds(mods[|mods|-1])
  }

  function LinkKey(l: Link): Key { [l.relationship] }

  function DerivedLinks(env: Env, mods: seq<Module>, observed: seq<ObservedNetwork>): Result<seq<Link>>
    requires env.Valid()
  {
    match HoldAll(env, observed)
    case Err(e) => Err(e)
    case Ok(h) =>
      match DeriveFrom(env, mods, Derivation([], h), Needs(mods))
      case Err(e) => Err(e)
      case Ok(st) => Ok(Sort(st.out, LinkKey))
  }

  lemma {:induction false} HoldAllErr(env: Env, ns: seq<ObservedNetwork>, k: nat)
    requires k <= |ns| && HoldAll(env, ns[..k]).Err?
    ensures HoldAll(env, ns) == HoldAll(env, ns[..k])
    decreases |ns|
  {
    if k == |ns| {
      assert ns[..k] == ns;
    } else {
      assert ns[..|ns|-1][..k] == ns[..k];
      HoldAllErr(env, ns[..|ns|-1], k);
    }
  }

  lemma {:induction false} NeedsPrefix(mods: seq<Module>, i: nat) returns (rest: seq<Need>)
    requires i <= |mods|
    ensures Needs(mods) == Needs(mods[..i]) + rest
    decreases |mods|
  {
    if i == |mods| {
      assert mods[..i] == mods;
      rest := [];
    } else {
      var before := mods[..|mods|-1];
      assert before[..i] == mods[..i];
      rest := NeedsPrefix(before, i);
      rest := rest + ModuleNeeds(mods[|mods|-1]);
    }
  }

  method HoldObserved(env: Env, observed: seq<ObservedNetwork>) returns (r: Result<Held>)
    ensures r == HoldAll(env, observed)
  {
    var h := Held(map[], map[], map[]);
    for i := 0 to |observed|
      invariant HoldAll(env, observed[..i]) == Ok(h)
    {
      assert observed[..i+1][..i] == observed[..i];
      var next := HoldNetwork(env, h, observed[i]);
      if next.Err? {
        HoldAllErr(env, observed, i + 1);
        return next;
      }
      h := next.value;
    }
    assert observed[..|observed|] == observed;
    return Ok(h);
  }

  lemma DeriveStep(env: Env, mods: seq<Module>, st: Derivation, needs: seq<Need>, j: nat)
    requires env.Valid() && j < |needs| && DeriveFrom(env, mods, st, needs[..j]).Ok?
    ensures DeriveFrom(env, mods, st, needs[..j+1])
         == DeriveOne(env, mods, DeriveFrom(env, mods, st, needs[..j]).value, needs[j])
  {
    assert needs[..j+1][..j] == needs[..j];
  }

  lemma DeriveErr(env: Env, mods: seq<Module>, st: Derivation, needs: seq<Need>, j: nat)
    requires env.Valid() && j <= |needs| && DeriveFrom(env, mods, st, needs[..j]).Err?
    ensures DeriveFrom(env, mods, st, needs) == DeriveFrom(env, mods, st, needs[..j])
  {
    assert needs == needs[..j] + needs[j..];
    DeriveAppend(env, mods, st, needs[..j], needs[j..]);
  }

  method DeriveForConsumer(env: Env, mods: seq<Module>, start: Derivation, consumer: Module) returns (r: Result<Derivation>)
    requires env.Valid()
    ensures r == DeriveFrom(env, mods, start, ModuleNeeds(consumer))
  {
    var st := start;
    ghost var needs := ModuleNeeds(consumer);
    for j := 0 to |consumer.dependencies|
      invariant DeriveFrom(env, mods, start, needs[..j]) == Ok(st)
    {
      DeriveStep(env, mods, start, needs, j);
      var next := DeriveOne(env, mods, st, (consumer, consumer.dependencies[j]));
      if next.Err? {
        DeriveErr(env, mods, start, needs, j + 1);
        return next;
      }
      st := next.value;
    }
    assert needs[..|needs|] == needs;
    return Ok(st);
  }

  method DeriveLinks(env: Env, mods: seq<Module>, observed: seq<ObservedNetwork>) returns (r: Result<seq<Link>>)
    requires env.Valid()
    ensures r == DerivedLinks(env, mods, observed)
  {
    var held := HoldObserved(env, observed);
    if held.Err? {
      return Err(held.error);
    }
    var st := Derivation([], held.value);
    ghost var start := st;
    for i := 0 to |mods|
      invariant DeriveFrom(env, mods, start, Needs(mods[..i])) == Ok(st)
    {
      assert mods[..i+1][..i] == mods[..i];
      DeriveAppend(env, mods, start, Needs(mods[..i]), ModuleNeeds(mods[i]));
      var next := DeriveForConsumer(env, mods, st, mods[i]);
      if next.Err? {
        ghost var rest := NeedsPrefix(mods, i + 1);
        DeriveAppend(env, mods, start, Needs(mods[..i+1]), rest);
        return Err(next.error);
      }
      st := next.value;
    }
    assert mods[..|mods|] == mods;
    return Ok(Sort(st.out, LinkKey));
  }

  // ---------- Links never share a name or a subnet ----------

  ghost predicate HeldBy(m: map<string, string>, k: string, owner: string) { k in m && m[k] == owner }

  ghost predicate NoEmptyOwner(m: map<string, string>) { forall k :: k in m ==> m[k] != "" }

  /** A key that is free or already held by the new owner can be taken without losing a holding. */
  lemma TakeKeepsHoldings(m: map<string, string>, k: string, owner: string)
    requires NoEmptyOwner(m) && owner != "" && (Owner(m, k) == "" || Owner(m, k) == owner)
    ensures NoEmptyOwner(m[k := owner]) && HeldBy(m[k := owner], k, owner)
    ensures forall j, o :: HeldBy(m, j, o) ==> HeldBy(m[k := owner], j, o)
  {
  }

  /** The subnet of a link is the observed one of its relationship, or a fresh candidate. */
  ghost predicate ReusedOrFresh(h: Held, l: Link) {
    if l.relationship in h.byRelationship then l.subnet == h.byRelationship[l.relationship].subnet
    else exists v: nat :: v < SLOTS && l.subnet == Candidate(v)
  }

  /** Every derived link holds its own name and subnet, and keeps the derived names. */
  ghost predicate LinkHolds(env: Env, h: Held, l: Link)
    requires env.Valid()
  {
    && l.name == LinkName(env, l.relationship) && l.alias == LinkAlias(env, l.relationship)
    && l.subnet != "" && env.parses(l.subnet)
    && HeldBy(h.names, l.name, l.relationship) && HeldBy(h.subnets, l.subnet, l.relationship)
    && ReusedOrFresh(h, l)
  }

  ghost predicate NetworkHolds(h: Held, n: ObservedNetwork) {
    && (n.name != "" ==> HeldBy(h.names, n.name, OwnerKey(n)))
    && (n.subnet != "" ==> HeldBy(h.subnets, n.subnet, OwnerKey(n)))
  }

  ghost predicate Ownership(env: Env, observed: seq<ObservedNetwork>, st: Derivation)
    requires env.Valid()
  {
    && NoEmptyOwner(st.held.names) && NoEmptyOwner(st.held.subnets)
    && (forall l :: l in st.out ==> LinkHolds(env, st.held, l))
    && (forall n :: n in observed ==> NetworkHolds(st.held, n))
  }

  lemma SelectedSubnet(env: Env, rel: string, h: Held)
    requires env.Valid() && SelectSubnet(env, rel, h).Ok?
    ensures var s := SelectSubnet(env, rel, h).value;
      && (Owner(h.subnets, s) == "" || Owner(h.subnets, s) == rel)
      && (if rel in h.byRelationship then s == h.byRelationship[rel].subnet != "" && h.byRelationship[rel].name == LinkName(env, rel)
          else s != "" && env.parses(s) && (exists v: nat :: v < SLOTS && s == Candidate(v)) && (Owner(h.names, LinkName(env, rel)) == "" || Owner(h.names, LinkName(env, rel)) == rel))
  {
    if rel !in h.byRelationship {
      FirstFreeIsFirst(Seed(env.digest(rel)), h.subnets);
    }
  }

  lemma DeriveOneOwnership(env: Env, mods: seq<Module>, observed: seq<ObservedNetwork>, st: Derivation, need: Need)
    requires env.Valid() && Ownership(env, observed, st)
    requires HoldsRelationships(st.held.byRelationship, observed)
    requires forall n :: n in observed && n.subnet != "" ==> env.parses(n.subnet)
    requires DeriveOne(env, mods, st, need).Ok?
    ensures Ownership(env, observed, DeriveOne(env, mods, st, need).value)
  {
    var (p, x) := ResolveProvider(mods, need.1).value;
    var rel := Relationship(p, need.0, need.1);
    assert |rel| > 0;
    var subnet, name := SelectSubnet(env, rel, st.held).value, LinkName(env, rel);
    assert |name| > 0;
    SelectedSubnet(env, rel, st.held);
    if rel in st.held.byRelationship {
      assert NetworkHolds(st.held, st.held.byRelationship[rel]);
    }
    TakeKeepsHoldings(st.held.names, name, rel);
    TakeKeepsHoldings(st.held.subnets, subnet, rel);
    var st' := DeriveOne(env, mods, st, need).value;
    forall l | l in st'.out ensures LinkHolds(env, st'.held, l) {
      if l in st.out {
        assert LinkHolds(env, st.held, l);
      }
    }
    forall n | n in observed ensures NetworkHolds(st'.held, n) {
      assert NetworkHolds(st.held, n);
    }
  }

  lemma {:induction false} DeriveOwnership(env: Env, mods: seq<Module>, observed: seq<ObservedNetwork>, h: Held, needs: seq<Need>)
    requires env.Valid() && HoldAll(env, observed) == Ok(h)
    requires DeriveFrom(env, mods, Derivation([], h), needs).Ok?
    ensures var st := DeriveFrom(env, mods, Derivation([], h), needs).value;
      Ownership(env, observed, st) && st.held.byRelationship == h.byRelationship && |st.out| == |needs|
    decreases |needs|
  {
    HoldAllExact(env, observed);
    if needs == [] {
      forall n | n in observed ensures NetworkHolds(h, n) {
        assert NameOf(n) == n.name && SubnetOf(n) == n.subnet;
      }
    } else {
      DeriveOwnership(env, mods, observed, h, needs[..|needs|-1]);
      var st := DeriveFrom(env, mods, Derivation([], h), needs[..|needs|-1]).value;
      DeriveOneOwnership(env, mods, observed, st, needs[|needs|-1]);
    }
  }

  /** Each derived link names the provider and the consumer of the need it was derived for. */
  ghost predicate LinkFor(env: Env, mods: seq<Module>, need: Need, l: Link) {
    && ResolveProvider(mods, need.1).Ok?
    && l.relationship == Relationship(ResolveProvider(mods, need.1).value.0, need.0, need.1)
  }

  lemma DeriveOneAdds(env: Env, mods: seq<Module>, st: Derivation, need: Need)
    requires env.Valid() && DeriveOne(env, mods, st, need).Ok?
    ensures var out := DeriveOne(env, mods, st, need).value.out;
      |out| == |st.out| + 1 && out[..|st.out|] == st.out && LinkFor(env, mods, need, out[|st.out|])
  {
  }

  lemma DeriveFromAdds(env: Env, mods: seq<Module>, st: Derivation, needs: seq<Need>)
    requires env.Valid() && needs != [] && DeriveFrom(env, mods, st, needs).Ok?
    ensures var last := |needs| - 1;
      && DeriveFrom(env, mods, st, needs[..last]).Ok?
      && var out, before := DeriveFrom(env, mods, st, needs).value.out, DeriveFrom(env, mods, st, needs[..last]).value.out;
         |out| == |before| + 1 && out[..|before|] == before && LinkFor(env, mods, needs[last], out[|before|])
  {
    var last := |needs| - 1;
    DeriveOneAdds(env, mods, DeriveFrom(env, mods, st, needs[..last]).value, needs[last]);
  }

  lemma {:induction false} LinksInOrder(env: Env, mods: seq<Module>, h: Held, needs: seq<Need>)
    requires env.Valid() && DeriveFrom(env, mods, Derivation([], h), needs).Ok?
    ensures var out := DeriveFrom(env, mods, Derivation([], h), needs).value.out;
      |out| == |needs| && forall i :: 0 <= i < |needs| ==> LinkFor(env, mods, needs[i], out[i])
    decreases |needs|
  {
    if needs != [] {
      var last, start := |needs| - 1, Derivation([], h);
      DeriveFromAdds(env, mods, start, needs);
      LinksInOrder(env, mods, h, needs[..last]);
      InOrderMore(env, mods, needs, DeriveFrom(env, mods, start, needs[..last]).value.out, DeriveFrom(env, mods, start, needs).value.out);
    }
  }

  lemma InOrderMore(env: Env, mods: seq<Module>, needs: seq<Need>, before: seq<Link>, out: seq<Link>)
    requires |needs| == |out| == |before| + 1 && out[..|before|] == before
    requires forall i :: 0 <= i < |before| ==> LinkFor(env, mods, needs[..|before|][i], before[i])
    requires LinkFor(env, mods, needs[|before|], out[|before|])
    ensures forall i :: 0 <= i < |needs| ==> LinkFor(env, mods, needs[i], out[i])
  {
    forall i | 0 <= i < |needs| ensures LinkFor(env, mods, needs[i], out[i]) {
      if i < |before| {
        assert LinkFor(env, mods, needs[..|before|][i], before[i]);
        assert out[i] == out[..|before|][i];
      }
    }
  }

  lemma RelationshipHasSlash(p: Module, c: Module, d: Dependency)
    ensures '/' in Relationship(p, c, d) && !Blank(Relationship(p, c, d))
  {
    assert Relationship(p, c, d)[|p.instanceId|] == '/' && !IsSpace('/');
  }

  lemma DerivedRelationship(env: Env, mods: seq<Module>, observed: seq<ObservedNetwork>, l: Link)
    requires env.Valid() && DerivedLinks(env, mods, observed).Ok? && l in DerivedLinks(env, mods, observed).value
    ensures '/' in l.relationship && !Blank(l.relationship)
  {
    var st := FinalDerivation(env, mods, observed);
    var i :| 0 <= i < |st.out| && st.out[i] == l;
    var h := HoldAll(env, observed).value;
    DeriveOwnership(env, mods, observed, h, Needs(mods));
    LinksInOrder(env, mods, h, Needs(mods));
    var need := Needs(mods)[i];
    RelationshipHasSlash(ResolveProvider(mods, need.1).value.0, need.0, need.1);
  }

  /** The state in which a successful derivation ends. */
  ghost function FinalDerivation(env: Env, mods: seq<Module>, observed: seq<ObservedNetwork>): (st: Derivation)
    requires env.Valid() && DerivedLinks(env, mods, observed).Ok?
    ensures HoldAll(env, observed).Ok? && Ownership(env, observed, st)
    ensures st.held.byRelationship == HoldAll(env, observed).value.byRelationship
    ensures DeriveFrom(env, mods, Derivation([], HoldAll(env, observed).value), Needs(mods)) == Ok(st)
    ensures DerivedLinks(env, mods, observed).value == Sort(st.out, LinkKey)
    ensures IsPermutation(DerivedLinks(env, mods, observed).value, st.out)
    ensures forall l :: l in DerivedLinks(env, mods, observed).value <==> l in st.out
  {
    var h := HoldAll(env, observed).value;
    DeriveOwnership(env, mods, observed, h, Needs(mods));
    var st := DeriveFrom(env, mods, Derivation([], h), Needs(mods)).value;
    SortSorts(st.out, LinkKey);
    PermutationMembers(Sort(st.out, LinkKey), st.out);
    st
  }

  /** Links with different relationships never share a name or a subnet, and no link shares one
      with an observed network that belongs to someone else. */
  lemma LinksDisjoint(env: Env, mods: seq<Module>, observed: seq<ObservedNetwork>)
    requires env.Valid() && DerivedLinks(env, mods, observed).Ok?
    ensures var links := DerivedLinks(env, mods, observed).value;
      && (forall k, l :: k in links && l in links && (k.name == l.name || k.subnet == l.subnet) ==> k.relationship == l.relationship)
      && (forall l, n :: l in links && n in observed && (l.name == n.name || l.subnet == n.subnet) ==> OwnerKey(n) == l.relationship)
  {
    var st := FinalDerivation(env, mods, observed);
    forall l, n | l in st.out && n in observed && (l.name == n.name || l.subnet == n.subnet)
      ensures OwnerKey(n) == l.relationship
    {
      assert LinkHolds(env, st.held, l) && NetworkHolds(st.held, n);
    }
    forall k, l | k in st.out && l in st.out && (k.name == l.name || k.subnet == l.subnet)
      ensures k.relationship == l.relationship
    {
      assert LinkHolds(env, st.held, k) && LinkHolds(env, st.held, l);
    }
  }

  // ---------- When relationships identify their links ----------

  /** The relationship that a dependency is going to have, as far as its provider can be resolved. */
  function NeedText(mods: seq<Module>, n: Need): string {
    match ResolveProvider(mods, n.1)
    case Err(_) => ""
    case Ok((p, _)) => Relationship(p, n.0, n.1)
  }

  /** No two dependencies of the modules have one relationship. */
  predicate Unambiguous(mods: seq<Module>) {
    forall i, j :: 0 <= i < j < |Needs(mods)| ==> NeedText(mods, Needs(mods)[i]) != NeedText(mods, Needs(mods)[j])
  }

  /** Whether derived links share a relationship can be read off the modules. */
  lemma RelationshipsExactly(env: Env, mods: seq<Module>, observed: seq<ObservedNetwork>)
    requires env.Valid() && DerivedLinks(env, mods, observed).Ok?
    ensures DistinctRelationships(DerivedLinks(env, mods, observed).value) <==> Unambiguous(mods)
  {
    var links, needs, st := DerivedLinks(env, mods, observed).value, Needs(mods), FinalDerivation(env, mods, observed);
    LinksInOrder(env, mods, HoldAll(env, observed).value, needs);
    forall i | 0 <= i < |needs| ensures st.out[i].relationship == NeedText(mods, needs[i]) {
      assert LinkFor(env, mods, needs[i], st.out[i]);
    }
    var apart := (k: Link, l: Link) => k.relationship != l.relationship;
    if DistinctRelationships(links) {
      PairwiseReordered(links, st.out, apart);
    }
    if Unambiguous(mods) {
      assert Pairwise(st.out, apart);
      PairwiseReordered(st.out, links, apart);
    }
  }

  // ---------- Deriving again from the links of a first derivation ----------

  function LinkTriple(l: Link): ObservedNetwork { ObservedNetwork(l.name, l.subnet, l.relationship) }

  ghost predicate HeldAgain(again: Held, l: Link) {
    && l.relationship in again.byRelationship && again.byRelationship[l.relationship] == LinkTriple(l)
    && HeldBy(again.names, l.name, l.relationship) && HeldBy(again.subnets, l.subnet, l.relationship) && l.subnet != ""
  }

  lemma DeriveOneAgain(env: Env, mods: seq<Module>, st: Derivation, again: Held, need: Need)
    requires env.Valid() && DeriveOne(env, mods, st, need).Ok?
    requires var out := DeriveOne(env, mods, st, need).value.out; HeldAgain(again, out[|out|-1])
    ensures DeriveOne(env, mods, Derivation(st.out, again), need)
         == Ok(Derivation(DeriveOne(env, mods, st, need).value.out, again))
  {
    var out := DeriveOne(env, mods, st, need).value.out;
    var l := out[|out|-1];
    var (p, x) := ResolveProvider(mods, need.1).value;
    assert l.relationship == Relationship(p, need.0, need.1) && l.name == LinkName(env, l.relationship);
    assert SelectSubnet(env, l.relationship, again) == Ok(l.subnet);
    assert again.names[l.name := l.relationship] == again.names;
    assert again.subnets[l.subnet := l.relationship] == again.subnets;
  }

  /** If every link of a first derivation is held, deriving the same needs reproduces it. */
  lemma {:induction false} DeriveAgain(env: Env, mods: seq<Module>, h: Held, again: Held, needs: seq<Need>)
    requires env.Valid() && DeriveFrom(env, mods, Derivation([], h), needs).Ok?
    requires forall l :: l in DeriveFrom(env, mods, Derivation([], h), needs).value.out ==> HeldAgain(again, l)
    ensures DeriveFrom(env, mods, Derivation([], again), needs)
         == Ok(Derivation(DeriveFrom(env, mods, Derivation([], h), needs).value.out, again))
    decreases |needs|
  {
    if needs != [] {
      var before := DeriveFrom(env, mods, Derivation([], h), needs[..|needs|-1]).value;
      var st := DeriveFrom(env, mods, Derivation([], h), needs).value;
      assert st.out == before.out + [st.out[|st.out|-1]];
      assert forall l :: l in before.out ==> l in st.out;
      DeriveAgain(env, mods, h, again, needs[..|needs|-1]);
      DeriveOneAgain(env, mods, before, again, needs[|needs|-1]);
    }
  }
}
