/** The store of immutable bundles, and what the bytes of a bundle do not depend on
    (`internal/executionbundle/assembler.go`). */
module BundleStore {
  import opened Prelude
  import opened Ordering
  import opened Text
  import opened Members
  import opened Checksums
  import opened Plan
  import opened Assembly
  import opened BundleVerify

  const BUNDLE_PREFIX := "bundle_"

  predicate OpenableId(id: string) { BUNDLE_PREFIX <= id && Lacks(id, "/\\\0") }

  class Store {
    var bundles: map<string, string>

    constructor ()
      ensures bundles == map[]
    {
      bundles := map[];
    }

    /** An existing bundle is never replaced: other bytes under its ID are an error. A failed write
        leaves nothing behind. */
    method Put(id: string, bytes: string, writeOk: bool) returns (ok: bool)
      modifies this
      ensures ok <==> (if id in old(bundles) then old(bundles)[id] == bytes else writeOk)
      ensures bundles == if ok then old(bundles)[id := bytes] else old(bundles)
    {
      if id in bundles {
        return bundles[id] == bytes;
      }
      if writeOk {
        bundles := bundles[id := bytes];
      }
      return writeOk;
    }

    /** History is append-only: whatever the outcome, bundles that were there keep their bytes. */
    method AssembleAndStore(c: Codec, inp: Input, writeOk: bool) returns (r: Option<Assembled>)
      requires IsSha(c.sha)
      modifies this
      ensures r.Some? ==> InputOk(inp) && r.value == AssembledBundle(c, inp) && bundles == old(bundles)[r.value.id := r.value.bytes]
      ensures r.None? ==> bundles == old(bundles)
      ensures r.Some? <==> InputOk(inp) && var b := AssembledBundle(c, inp);
        if b.id in old(bundles) then old(bundles)[b.id] == b.bytes else writeOk
      ensures forall id :: id in old(bundles) ==> id in bundles && bundles[id] == old(bundles)[id]
    {
      var b := Assemble(c, inp);
      if b.None? {
        return None;
      }
      var ok := Put(b.value.id, b.value.bytes, writeOk);
      return if ok then b else None;
    }

    method Open(c: Codec, id: string) returns (r: Option<Manifest>)
      requires IsSha(c.sha)
      ensures r.Some? ==> OpenableId(id) && id in bundles && Accepted(c, id, c.sha(bundles[id]), bundles[id], r.value)
      ensures r.None? ==> !OpenableId(id) || id !in bundles || forall m :: !Accepted(c, id, c.sha(bundles[id]), bundles[id], m)
    {
      if !OpenableId(id) || id !in bundles {
        return None;
      }
      r := Verify(c, id, c.sha(bundles[id]), bundles[id]);
    }

    /** What was assembled and stored can be opened again, with the same manifest, exactly if no input
        path has a backslash or a reserved name. */
    method RoundTrip(c: Codec, inp: Input, writeOk: bool) returns (r: Option<Assembled>, found: Option<Manifest>)
      requires c.Valid()
      modifies this
      ensures r.Some? && Unreserved(inp.files + inp.actions) && NoBackslash(inp.files + inp.actions) ==> found == Some(r.value.manifest)
      ensures r.Some? && !(Unreserved(inp.files + inp.actions) && NoBackslash(inp.files + inp.actions)) ==> found == None
    {
      r := AssembleAndStore(c, inp, writeOk);
      found := None;
      if r.Some? {
        found := Open(c, r.value.id);
        AssembledIdOpens(c, inp);
        VerifyAcceptsAssembled(c, inp, r.value.manifest);
        if found.Some? {
          VerifyAcceptsAssembled(c, inp, found.value);
        }
      }
    }
  }

  lemma HexIdOpens(digits: string)
    requires IsHex(digits)
    ensures OpenableId(BUNDLE_PREFIX + digits)
  {
    var id := BUNDLE_PREFIX + digits;
    forall i | 0 <= i < |id| ensures id[i] !in "/\\\0" {
      if i < 7 {
        assert id[i] == BUNDLE_PREFIX[i];
      } else {
        assert id[i] == digits[i - 7] && IsHexDigit(digits[i - 7]);
      }
    }
  }

  lemma AssembledIdOpens(c: Codec, inp: Input)
    requires IsSha(c.sha) && InputOk(inp)
    ensures OpenableId(AssembledBundle(c, inp).id)
  {
    hide OpenableId;
    var m := NormalizeManifest(RawManifest(c, inp));
    var digest := c.sha(c.encode(m.(bundleId := "")));
    assert IsHex(digest[..32]) && AssembledBundle(c, inp).id == BUNDLE_PREFIX + digest[..32];
    HexIdOpens(digest[..32]);
  }

  // ---------- What a bundle does not depend on ----------

  /** Two inputs that differ at most in the order of everything that is a set by meaning; actions and
      steps, whose order is meaning, are the same. */
  ghost predicate SameUpToOrder(a: Input, b: Input) {
    && a.identity == b.identity && a.actions == b.actions && a.actionIds == b.actionIds && a.post == b.post
    && a.steps == b.steps && a.backupRequired == b.backupRequired
    && IsPermutation(a.files, b.files) && IsPermutation(a.sources, b.sources) && IsPermutation(a.images, b.images)
    && IsPermutation(a.writablePaths, b.writablePaths) && IsPermutation(a.secrets, b.secrets)
    && IsPermutation(a.preconditions, b.preconditions) && IsPermutation(a.validations, b.validations)
  }

  /** Where a comparator ignores fields: either the order is the same, or the key tells the entries apart. */
  ghost predicate SortAlike<T(!new)>(xs: seq<T>, ys: seq<T>, key: T -> Key) { xs == ys || KeyDetermines(xs, key) }

  ghost predicate KeysDetermine(a: Input, b: Input) {
    && SortAlike(a.sources, b.sources, SourceKey) && SortAlike(a.images, b.images, ImageKey)
    && SortAlike(a.secrets, b.secrets, SecretKey) && SortAlike(a.validations, b.validations, ValidationKey)
  }

  lemma SortedAlike<T(!new)>(xs: seq<T>, ys: seq<T>, key: T -> Key)
    requires IsPermutation(xs, ys) && SortAlike(xs, ys, key)
    ensures Sort(xs, key) == Sort(ys, key)
  {
    if xs != ys {
      SortOfPermutation(xs, ys, key);
    }
  }

  lemma FilesReordered(fs: seq<File>, gs: seq<File>, actions: seq<File>)
    requires IsPermutation(fs, gs) && FilesOk(fs, actions)
    ensures FilesOk(gs, actions)
  {
    PermutationMembers(fs, gs);
    assert multiset(fs + actions) == multiset(gs + actions);
    PermutationMembers(fs + actions, gs + actions);
    DistinctReordered(fs + actions, gs + actions);
  }

  lemma StillValid(a: Input, b: Input)
    requires SameUpToOrder(a, b) && InputOk(a)
    ensures InputOk(b)
  {
    PermutationMembers(a.writablePaths, b.writablePaths);
    PermutationDistinct(a.writablePaths, b.writablePaths);
    PermutationMembers(a.sources, b.sources);
    PermutationMembers(a.images, b.images);
    FilesReordered(a.files, b.files, a.actions);
  }

  lemma SpecsReordered(sha: string -> string, fs: seq<File>, gs: seq<File>, actions: seq<File>)
    requires IsPermutation(fs, gs) && FilesOk(fs, actions)
    ensures Sort(Specs(sha, fs), SpecKey) == Sort(Specs(sha, gs), SpecKey)
  {
    var f := (x: File) => Spec(sha, x);
    assert Specs(sha, fs) == Mapped(fs, f) && Specs(sha, gs) == Mapped(gs, f);
    MappedPermutation(fs, gs, f);
    var specs := Specs(sha, fs);
    forall x, y | x in specs && y in specs && SpecKey(x) == SpecKey(y) ensures x == y {
      var i :| 0 <= i < |specs| && specs[i] == x;
      var j :| 0 <= j < |specs| && specs[j] == y;
      assert SpecKey(x)[0] == x.path && SpecKey(y)[0] == y.path;
      var ms := MembersOf(fs + actions);
      assert ms[i].0 == fs[i].path && ms[j].0 == fs[j].path;
    }
    SortOfPermutation(specs, Specs(sha, gs), SpecKey);
  }

  lemma FullKeys(a: Input)
    ensures KeyDetermines(a.preconditions, PreconditionKey) && KeyDetermines(a.writablePaths, StringKey)
  {
    forall x, y | x in a.preconditions && y in a.preconditions && PreconditionKey(x) == PreconditionKey(y) ensures x == y {
      var k, l := PreconditionKey(x), PreconditionKey(y);
      assert k[0] == l[0] && k[1] == l[1] && k[2] == l[2];
    }
    forall x, y | x in a.writablePaths && y in a.writablePaths && StringKey(x) == StringKey(y) ensures x == y {
      assert StringKey(x)[0] == StringKey(y)[0];
    }
  }

  lemma SameManifest(c: Codec, a: Input, b: Input)
    requires IsSha(c.sha) && SameUpToOrder(a, b) && InputOk(a) && KeysDetermine(a, b)
    ensures InputOk(b) && FinalManifest(c, a) == FinalManifest(c, b)
  {
    StillValid(a, b);
    FullKeys(a);
    SpecsReordered(c.sha, a.files, b.files, a.actions);
    SortedAlike(a.sources, b.sources, SourceKey);
    SortedAlike(a.images, b.images, ImageKey);
    SortOfPermutation(a.writablePaths, b.writablePaths, StringKey);
    SortedAlike(a.secrets, b.secrets, SecretKey);
    SortOfPermutation(a.preconditions, b.preconditions, PreconditionKey);
    SortedAlike(a.validations, b.validations, ValidationKey);
    assert NormalizeManifest(RawManifest(c, a)) == NormalizeManifest(RawManifest(c, b));
  }

  lemma SortedByPath(fs: seq<File>, gs: seq<File>)
    requires IsPermutation(fs, gs) && DistinctMembers(MembersOf(fs))
    ensures Sort(fs, FileKey) == Sort(gs, FileKey)
    ensures Sort(MembersOf(fs), MemberKey) == Sort(MembersOf(gs), MemberKey)
  {
    var f := (x: File) => (x.path, x.data);
    assert MembersOf(fs) == Mapped(fs, f) && MembersOf(gs) == Mapped(gs, f);
    MappedPermutation(fs, gs, f);
    forall x, y | x in fs && y in fs && FileKey(x) == FileKey(y) ensures x == y {
      assert FileKey(x)[0] == FileKey(y)[0];
      FileIn(fs, x);
      FileIn(fs, y);
      PathOnce(fs, x, y);
    }
    forall x, y | x in MembersOf(fs) && y in MembersOf(fs) && MemberKey(x) == MemberKey(y) ensures x == y {
      assert MemberKey(x)[0] == MemberKey(y)[0];
      var i :| 0 <= i < |fs| && MembersOf(fs)[i] == x;
      var j :| 0 <= j < |fs| && MembersOf(fs)[j] == y;
      assert i < j || i == j || j < i;
    }
    SortOfPermutation(fs, gs, FileKey);
    SortOfPermutation(MembersOf(fs), MembersOf(gs), MemberKey);
  }

  lemma PathOnce(fs: seq<File>, x: File, y: File)
    requires DistinctMembers(MembersOf(fs)) && x in fs && y in fs && x.path == y.path
    ensures x == y
  {
    var i :| 0 <= i < |fs| && fs[i] == x;
    var j :| 0 <= j < |fs| && fs[j] == y;
    assert MembersOf(fs)[i].0 == MembersOf(fs)[j].0;
  }

  lemma SamePayload(c: Codec, a: Input, b: Input, m: Manifest)
    requires SameUpToOrder(a, b) && InputOk(a) && Unreserved(a.files + a.actions)
    ensures IsPermutation(WithModes(a.files + a.actions), WithModes(b.files + b.actions))
    ensures SumsFile(c, Payload(c, a, m)) == SumsFile(c, Payload(c, b, m))
  {
    var fs, gs := a.files + a.actions, b.files + b.actions;
    assert IsPermutation(fs, gs);
    assert WithModes(fs) == Mapped(fs, WithMode) && WithModes(gs) == Mapped(gs, WithMode);
    MappedPermutation(fs, gs, WithMode);
    PayloadMembers(c, a, m);
    SortedByPath(Payload(c, a, m), Payload(c, b, m));
  }

  lemma SameSorted(inputs: seq<File>, inputs': seq<File>, runner: File, manifest: File, sums: File)
    requires runner.path == RUNNER_PATH && manifest.path == MANIFEST_PATH && sums.path == SUMS
    requires IsPermutation(inputs, inputs') && DistinctMembers(MembersOf(inputs)) && Unreserved(inputs)
    ensures Sort(inputs + [runner, manifest, sums], FileKey) == Sort(inputs' + [runner, manifest, sums], FileKey)
  {
    DistinctWithReserved(inputs, runner, manifest, sums);
    SortedByPath(inputs + [runner, manifest, sums], inputs' + [runner, manifest, sums]);
  }

  /** The bytes and the ID of a bundle do not depend on the order of files, sources, images, secrets,
      preconditions, validations or writable paths. */
  lemma OrderIndependent(c: Codec, a: Input, b: Input)
    requires c.Valid() && SameUpToOrder(a, b) && InputOk(a) && KeysDetermine(a, b) && Unreserved(a.files + a.actions)
    ensures InputOk(b) && AssembledBundle(c, a) == AssembledBundle(c, b)
  {
    SameManifest(c, a, b);
    var m := FinalManifest(c, a);
    SamePayload(c, a, b, m);
    ModesKeepPaths(a.files + a.actions);
    var runner, manifest, sums := RunnerFile(c), ManifestFile(c, m), SumsFile(c, Payload(c, a, m));
    SameSorted(WithModes(a.files + a.actions), WithModes(b.files + b.actions), runner, manifest, sums);
    AllFilesAre(c, a, m);
    AllFilesAre(c, b, m);
  }

  lemma AllFilesAre(c: Codec, inp: Input, m: Manifest)
    ensures AllFiles(c, inp, m) ==
      WithModes(inp.files + inp.actions) + [RunnerFile(c), ManifestFile(c, m), SumsFile(c, Payload(c, inp, m))]
  {
  }
}
