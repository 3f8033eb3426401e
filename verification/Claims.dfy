/** Resource claims: derivation, and collision detection by sorting and comparing neighbours
    (`internal/deployment/claims.go`). */
module Claims {
  import opened Prelude
  import opened Ordering
  import opened Text
  import opened Modules

  datatype Claim = Claim(kind: string, value: string, owner: string)

  datatype ObservedClaim = ObservedClaim(kind: string, value: string, owner: string)

  const OBSERVED := "observed:"

  function TrimObserved(owner: string): string {
    if OBSERVED <= owner then owner[|OBSERVED|..] else owner
  }

  predicate SameLogicalOwner(a: string, b: string) {
    TrimObserved(a) != "" && TrimObserved(a) == TrimObserved(b)
  }

  predicate SameResource(a: Claim, b: Claim) { a.kind == b.kind && a.value == b.value }

  function ClaimKey(c: Claim): Key { [c.kind, c.value, c.owner] }

  /** What claim checking is for: nowhere in the list do two entries share a resource without
      having the same logical owner. */
  ghost predicate NoCollision(cs: seq<Claim>) {
    forall i, j :: 0 <= i < j < |cs| && SameResource(cs[i], cs[j])
      ==> SameLogicalOwner(cs[i].owner, cs[j].owner)
  }

  ghost predicate NeighboursAgree(cs: seq<Claim>, n: nat) {
    forall i :: 1 <= i < n && i < |cs| && SameResource(cs[i-1], cs[i])
      ==> SameLogicalOwner(cs[i-1].owner, cs[i].owner)
  }

  // ---------- The claims of a desired state ----------

  function PrefixOf(instanceId: string): string { "vpsmith-" + instanceId }

  function ResourceName(instanceId: string, id: string): string { PrefixOf(instanceId) + "-" + id }

  function ContainerClaims(inst: string, ids: seq<string>): seq<Claim> {
    if ids == [] then [] else ContainerClaims(inst, ids[..|ids|-1]) + ContainerPair(inst, ids[|ids|-1])
  }

  function ContainerPair(inst: string, id: string): seq<Claim> {
    [Claim("container", ResourceName(inst, id), inst), Claim("unit", ResourceName(inst, id) + ".service", inst)]
  }

  function ModuleClaims(m: Module): seq<Claim> {
    ContainerClaims(m.instanceId, m.containers) + OtherClaims(m)
  }

  function OtherClaims(m: Module): seq<Claim> {
    seq(|m.storagePaths|, i requires 0 <= i < |m.storagePaths| => Claim("path", m.storagePaths[i], m.instanceId)) +
    seq(|m.networks|, i requires 0 <= i < |m.networks| => Claim("network", ResourceName(m.instanceId, m.networks[i]), m.instanceId)) +
    seq(|m.hostnames|, i requires 0 <= i < |m.hostnames| => Claim("hostname", ToLower(m.hostnames[i]), m.instanceId)) +
    seq(|m.secretIds|, i requires 0 <= i < |m.secretIds| => Claim("secret", m.secretIds[i], m.instanceId))
  }

  function LinkClaims(l: Link): seq<Claim> {
    [Claim("network", l.name, l.relationship), Claim("subnet", l.subnet, l.relationship),
     Claim("alias", l.name + ":" + l.alias, l.relationship)]
  }

  function AllModuleClaims(mods: seq<Module>): seq<Claim> {
    if mods == [] then [] else AllModuleClaims(mods[..|mods|-1]) + ModuleClaims(mods[|mods|-1])
  }

  function AllLinkClaims(links: seq<Link>): seq<Claim> {
    if links == [] then [] else AllLinkClaims(links[..|links|-1]) + LinkClaims(links[|links|-1])
  }

  function DerivedClaims(mods: seq<Module>, links: seq<Link>): seq<Claim> {
    AllModuleClaims(mods) + AllLinkClaims(links)
  }

  function ObservedClaims(observed: seq<ObservedClaim>): seq<Claim> {
    seq(|observed|, i requires 0 <= i < |observed| =>
      Claim(observed[i].kind, observed[i].value, OBSERVED + observed[i].owner))
  }

  method DeriveModuleClaims(before: seq<Claim>, m: Module) returns (claims: seq<Claim>)
    ensures claims == before + ModuleClaims(m)
  {
    claims := before;
    for j := 0 to |m.containers|
      invariant claims == before + ContainerClaims(m.instanceId, m.containers[..j])
    {
      assert m.containers[..j+1][..j] == m.containers[..j];
      claims := claims + ContainerPair(m.instanceId, m.containers[j]);
    }
    assert m.containers[..|m.containers|] == m.containers;
    claims := claims + OtherClaims(m);
  }

  method DeriveClaims(mods: seq<Module>, links: seq<Link>) returns (claims: seq<Claim>)
    ensures claims == DerivedClaims(mods, links)
  {
    claims := [];
    for i := 0 to |mods|
      invariant claims == AllModuleClaims(mods[..i])
    {
      assert mods[..i+1][..i] == mods[..i];
      claims := DeriveModuleClaims(claims, mods[i]);
    }
    assert mods[..|mods|] == mods;
    for i := 0 to |links|
      invariant claims == AllModuleClaims(mods) + AllLinkClaims(links[..i])
    {
      assert links[..i+1][..i] == links[..i];
      claims := claims + LinkClaims(links[i]);
    }
    assert links[..|links|] == links;
  }

  // ---------- Sort, then compare neighbours ----------

  lemma ThreePartOrder(a: Claim, b: Claim)
    requires AtMost(ClaimKey(a), ClaimKey(b))
    ensures a.kind == b.kind || StrLess(a.kind, b.kind)
    ensures a.kind == b.kind ==> a.value == b.value || StrLess(a.value, b.value)
  {
    StrTrichotomy(a.kind, b.kind);
    StrTrichotomy(a.value, b.value);
    var ka, kb := ClaimKey(a), ClaimKey(b);
    assert kb[1..] == [b.value, b.owner] && ka[1..] == [a.value, a.owner];
    assert StrLess(b.value, a.value) ==> KeyLess(kb[1..], ka[1..]);
  }

  /** In sorted order the claims between two claims on one resource are on that resource too. */
  lemma BetweenSameResource(a: Claim, m: Claim, b: Claim)
    requires AtMost(ClaimKey(a), ClaimKey(m)) && AtMost(ClaimKey(m), ClaimKey(b)) && SameResource(a, b)
    ensures SameResource(a, m)
  {
    ThreePartOrder(a, m);
    ThreePartOrder(m, b);
    StrTrichotomy(a.kind, m.kind);
    StrTrichotomy(a.value, m.value);
  }

  lemma {:induction false} ChainAgrees(cs: seq<Claim>, i: nat, j: nat)
    requires SortedBy(cs, ClaimKey) && NeighboursAgree(cs, |cs|)
    requires i < j < |cs| && SameResource(cs[i], cs[j])
    ensures SameLogicalOwner(cs[i].owner, cs[j].owner)
    decreases j - i
  {
    if j > i + 1 {
      BetweenSameResource(cs[i], cs[j-1], cs[j]);
      ChainAgrees(cs, i, j - 1);
    }
    assert SameResource(cs[j-1], cs[j]);
  }

  /** The neighbour scan over the sorted list decides the question for all pairs. */
  lemma NeighbourScanComplete(cs: seq<Claim>)
    requires SortedBy(cs, ClaimKey)
    ensures NeighboursAgree(cs, |cs|) <==> NoCollision(cs)
  {
    if NeighboursAgree(cs, |cs|) {
      forall i, j | 0 <= i < j < |cs| && SameResource(cs[i], cs[j])
        ensures SameLogicalOwner(cs[i].owner, cs[j].owner)
      {
        ChainAgrees(cs, i, j);
      }
    }
  }

  lemma CollisionSurvivesReordering(xs: seq<Claim>, ys: seq<Claim>)
    requires IsPermutation(xs, ys) && NoCollision(xs)
    ensures NoCollision(ys)
  {
    PairwiseReordered(xs, ys, (a: Claim, b: Claim) => SameResource(a, b) ==> SameLogicalOwner(a.owner, b.owner));
  }

  predicate CompleteObservation(o: ObservedClaim) { !Blank(o.kind) && !Blank(o.value) }

  /** The scan of the sorted list answers the question about all pairs of the unsorted one. */
  method SortAndScan(claims: seq<Claim>) returns (ok: bool)
    ensures ok <==> NoCollision(claims)
  {
    var sorted := Sort(claims, ClaimKey);
    ScanDecides(claims);
    var i := 1;
    while i < |sorted|
      invariant 1 <= i && NeighboursAgree(sorted, i)
    {
      if SameResource(sorted[i-1], sorted[i]) && !SameLogicalOwner(sorted[i-1].owner, sorted[i].owner) {
        assert !NeighboursAgree(sorted, |sorted|);
        return false;
      }
      i := i + 1;
    }
    assert NeighboursAgree(sorted, |sorted|);
    return true;
  }

  lemma ScanDecides(claims: seq<Claim>)
    ensures var sorted := Sort(claims, ClaimKey); NeighboursAgree(sorted, |sorted|) <==> NoCollision(claims)
  {
    var sorted := Sort(claims, ClaimKey);
    SortSorts(claims, ClaimKey);
    NeighbourScanComplete(sorted);
    if NoCollision(sorted) {
      CollisionSurvivesReordering(sorted, claims);
    }
    if NoCollision(claims) {
      CollisionSurvivesReordering(claims, sorted);
    }
  }

  /** Accepts exactly when every observed claim is complete and no two claims anywhere, derived
      or observed, share a resource without sharing a logical owner. */
  method ValidateClaims(mods: seq<Module>, links: seq<Link>, observed: seq<ObservedClaim>) returns (ok: bool)
    ensures ok <==> (forall o :: o in observed ==> CompleteObservation(o))
                    && NoCollision(DerivedClaims(mods, links) + ObservedClaims(observed))
  {
    var claims := DeriveClaims(mods, links);
    for i := 0 to |observed|
      invariant forall k :: 0 <= k < i ==> CompleteObservation(observed[k])
      invariant claims == DerivedClaims(mods, links) + ObservedClaims(observed[..i])
    {
      if !CompleteObservation(observed[i]) {
        return false;
      }
      claims := claims + [Claim(observed[i].kind, observed[i].value, OBSERVED + observed[i].owner)];
      assert ObservedClaims(observed[..i+1]) ==
        ObservedClaims(observed[..i]) + [Claim(observed[i].kind, observed[i].value, OBSERVED + observed[i].owner)];
    }
    assert observed[..|observed|] == observed;
    ok := SortAndScan(claims);
  }

  // ---------- Which claims are derived ----------

  lemma {:induction false} ContainerClaimIn(inst: string, ids: seq<string>, k: nat)
    requires k < |ids|
    ensures Claim("container", ResourceName(inst, ids[k]), inst) in ContainerClaims(inst, ids)
    decreases |ids|
  {
    if k < |ids| - 1 {
      assert ids[..|ids|-1][k] == ids[k];
      ContainerClaimIn(inst, ids[..|ids|-1], k);
    }
  }

  lemma {:induction false} ModuleClaimIn(mods: seq<Module>, m: nat, c: Claim)
    requires m < |mods| && c in ModuleClaims(mods[m])
    ensures c in AllModuleClaims(mods)
    decreases |mods|
  {
    if m < |mods| - 1 {
      assert mods[..|mods|-1][m] == mods[m];
      ModuleClaimIn(mods[..|mods|-1], m, c);
    }
  }

  lemma {:induction false} LinkClaimIn(links: seq<Link>, l: nat, c: Claim)
    requires l < |links| && c in LinkClaims(links[l])
    ensures c in AllLinkClaims(links)
    decreases |links|
  {
    if l < |links| - 1 {
      assert links[..|links|-1][l] == links[l];
      LinkClaimIn(links[..|links|-1], l, c);
    }
  }

  /** Two different claims on one resource in a collision-free list have the same logical owner. */
  lemma NoCollisionOwners(cs: seq<Claim>, a: Claim, b: Claim)
    requires NoCollision(cs) && a in cs && b in cs && a != b && SameResource(a, b)
    ensures SameLogicalOwner(a.owner, b.owner)
  {
    var i :| 0 <= i < |cs| && cs[i] == a;
    var j :| 0 <= j < |cs| && cs[j] == b;
    assert i < j || j < i;
  }
}
