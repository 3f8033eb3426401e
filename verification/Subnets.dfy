/** Allocation of Link-Net subnets by hash-seeded linear probing
    (`chooseSubnet` in `internal/deployment/graph.go`). */
module Subnets {
  import opened Prelude
  import opened Text

  const SLOTS := 4096

  /** The candidate of slot v: the third and fourth hexadecimal digits of v pick the octets. */
  function Candidate(v: nat): string
    requires v < SLOTS
  {
    "10." + Decimal(240 + v / 256) + "." + Decimal(v % 256) + ".0/24"
  }

  /** A Go map lookup yields the zero value for a missing key. */
  function Owner(m: map<string, string>, k: string): string {
    if k in m then m[k] else ""
  }

  function Slot(seed: nat, probe: nat): (v: nat)
    ensures v < SLOTS
  {
    (seed + probe) % SLOTS
  }

  predicate Free(v: nat, used: map<string, string>)
    requires v < SLOTS
  {
    Owner(used, Candidate(v)) == ""
  }

  function Seed(digest: bytes): nat
    requires |digest| == 32
  {
    digest[0] as int * 256 + digest[1] as int
  }

  /** The first free candidate at or after a probe, in cyclic order from the seed. */
  function FirstFree(seed: nat, probe: nat, used: map<string, string>): (r: Option<string>)
    requires probe <= SLOTS
    ensures r.Some? ==> r.value !in used || used[r.value] == ""
    decreases SLOTS - probe
  {
    if probe == SLOTS then None
    else if Free(Slot(seed, probe), used) then Some(Candidate(Slot(seed, probe)))
    else FirstFree(seed, probe + 1, used)
  }

  /** Probe p finds the first free slot of the cyclic walk. */
  ghost predicate FirstFreeProbe(seed: nat, p: nat, used: map<string, string>) {
    p < SLOTS && Free(Slot(seed, p), used) && forall q: nat :: q < p ==> !Free(Slot(seed, q), used)
  }

  ghost predicate Exhausted(used: map<string, string>) {
    forall v: nat :: v < SLOTS ==> !Free(v, used)
  }

  /** Returns the candidate of the first free probe, and fails exactly when all slots are taken. */
  method ChooseSubnet(digest: bytes, used: map<string, string>) returns (r: Option<string>)
    requires |digest| == 32
    ensures r == FirstFree(Seed(digest), 0, used)
    ensures r.Some? ==> exists p :: FirstFreeProbe(Seed(digest), p, used) && r.value == Candidate(Slot(Seed(digest), p))
    ensures r.None? <==> Exhausted(used)
  {
    var seed := Seed(digest);
    r := None;
    for probe := 0 to SLOTS
      invariant r.None? && FirstFree(seed, 0, used) == FirstFree(seed, probe, used)
    {
      hide Slot, Candidate;
      if Free(Slot(seed, probe), used) {
        r := Some(Candidate(Slot(seed, probe)));
        break;
      }
    }
    FirstFreeIsFirst(seed, used) by { hide *; }
  }

  lemma AllSlotsProbed(seed: nat, used: map<string, string>)
    requires forall q: nat :: q < SLOTS ==> !Free(Slot(seed, q), used)
    ensures Exhausted(used)
  {
    forall v: nat | v < SLOTS ensures !Free(v, used) {
      SlotsCovered(seed, v);
    }
  }

  /** The cyclic probe visits every slot. */
  lemma SlotsCovered(seed: nat, v: nat)
    requires v < SLOTS
    ensures exists p: nat :: p < SLOTS && Slot(seed, p) == v
  {
    var s := seed % SLOTS;
    var p := if v >= s then v - s else v + SLOTS - s;
    assert seed == (seed / SLOTS) * SLOTS + s;
    assert (seed + p) % SLOTS == v by {
      if v >= s {
        ModShift(seed / SLOTS, v);
      } else {
        ModShift(seed / SLOTS + 1, v);
      }
    }
    assert Slot(seed, p) == v;
  }

  lemma ModShift(k: nat, v: nat)
    requires v < SLOTS
    ensures (k * SLOTS + v) % SLOTS == v
  {
  }

  lemma FirstFreeIsFirst(seed: nat, used: map<string, string>)
    ensures FirstFree(seed, 0, used).None? <==> Exhausted(used)
    ensures FirstFree(seed, 0, used).Some? ==>
      exists p :: FirstFreeProbe(seed, p, used) && FirstFree(seed, 0, used).value == Candidate(Slot(seed, p))
  {
    FirstFreeFrom(seed, 0, used);
    if FirstFree(seed, 0, used).None? {
      AllSlotsProbed(seed, used);
    }
  }

  lemma {:induction false} FirstFreeFrom(seed: nat, probe: nat, used: map<string, string>)
    requires probe <= SLOTS
    requires forall q: nat :: q < probe ==> !Free(Slot(seed, q), used)
    ensures FirstFree(seed, probe, used).None? ==> forall q: nat :: q < SLOTS ==> !Free(Slot(seed, q), used)
    ensures FirstFree(seed, probe, used).Some? ==>
      exists p :: FirstFreeProbe(seed, p, used) && FirstFree(seed, probe, used).value == Candidate(Slot(seed, p))
    decreases SLOTS - probe
  {
    hide Slot, Candidate, Free;
    if probe < SLOTS {
      if Free(Slot(seed, probe), used) {
        assert FirstFreeProbe(seed, probe, used);
      } else {
        FirstFreeFrom(seed, probe + 1, used);
      }
    }
  }

  lemma OctetsUnique(a: nat, b: nat, c: nat, d: nat)
    requires "10." + Decimal(a) + "." + Decimal(b) + ".0/24" == "10." + Decimal(c) + "." + Decimal(d) + ".0/24"
    ensures a == c && b == d
  {
    TwoFieldsUnique("10.", Decimal(a), Decimal(b), Decimal(c), Decimal(d), ".0/24", '.');
    DecimalInjective(a, c);
    DecimalInjective(b, d);
  }

  /** The slots name pairwise different /24 networks, all inside 10.240.0.0/12: the second octet
      has the high bits 1111, and the slot can be read back from the two variable octets. */
  lemma CandidatesDistinct(v: nat, w: nat)
    requires v < SLOTS && w < SLOTS && Candidate(v) == Candidate(w)
    ensures v == w
  {
    OctetsUnique(240 + v / 256, v % 256, 240 + w / 256, w % 256);
  }

  predicate InPrivateBlock(subnet: string, second: nat, third: nat) {
    240 <= second <= 255 && third <= 255 && subnet == "10." + Decimal(second) + "." + Decimal(third) + ".0/24"
  }

  lemma CandidateInPrivateBlock(v: nat)
    requires v < SLOTS
    ensures exists second: nat, third: nat ::
      InPrivateBlock(Candidate(v), second, third) && (second - 240) * 256 + third == v
  {
    assert InPrivateBlock(Candidate(v), 240 + v / 256, v % 256);
  }
}
