/** Which bundles the two readers accept: `Verify` in `internal/executionbundle/verify.go` and
    `read_bundle` of the target runner. */
module BundleVerify {
  import opened Prelude
  import opened Ordering
  import opened Text
  import opened Members
  import opened Checksums
  import opened Plan
  import opened Assembly

  function EntryMembers(es: seq<Entry>): (r: seq<Member>)
    ensures |r| == |es| && forall i :: 0 <= i < |r| ==> r[i] == (es[i].name, es[i].data)
  {
    seq(|es|, i requires 0 <= i < |es| => (es[i].name, es[i].data))
  }

  // ---------- The Go reader ----------

  ghost predicate GoArchive(es: seq<Entry>) {
    (forall e :: e in es ==> SafeArchivePath(e.name) && e.regular) && DistinctMembers(EntryMembers(es))
  }

  /** The manifest matches the ID, names a runner among the files, and the ID is its own hash. */
  predicate GoManifest(c: Codec, id: string, m: Manifest, files: map<string, string>)
    requires forall d :: |c.sha(d)| >= 32
  {
    && m.formatVersion == 2 && m.bundleId == id
    && m.runner.version != "" && SafeArchivePath(m.runner.path) && ValidDigest(m.runner.sha)
    && m.runner.path in files && c.sha(files[m.runner.path]) == m.runner.sha
    && BundleIdOf(c, m) == id
  }

  function FilesOf(c: Codec, bytes: string): map<string, string> {
    var entries := c.untar(bytes);
    if entries.None? then map[] else FileMap(EntryMembers(entries.value))
  }

  /** What acceptance by `Verify` means, with the manifest it returns. */
  ghost predicate Accepted(c: Codec, id: string, sum: string, bytes: string, m: Manifest)
    requires IsSha(c.sha)
  {
    && id != "" && sum != "" && bytes != "" && c.sha(bytes) == sum
    && c.untar(bytes).Some? && GoArchive(c.untar(bytes).value)
    && var files := FilesOf(c, bytes);
       && MANIFEST_PATH in files && c.decode(files[MANIFEST_PATH]) == Some(m)
       && SUMS in files && Covers(GoBreak, c.sha, files, files[SUMS])
       && GoManifest(c, id, m, files)
  }

  ghost predicate Collected(es: seq<Entry>, i: nat, files: map<string, string>) {
    i <= |es| && files == FileMap(EntryMembers(es[..i])) && GoArchive(es[..i])
  }

  lemma CollectOneMore(es: seq<Entry>, i: nat, files: map<string, string>)
    requires i < |es| && Collected(es, i, files) && SafeArchivePath(es[i].name) && es[i].regular && es[i].name !in files
    ensures Collected(es, i + 1, files[es[i].name := es[i].data])
  {
    var ms := EntryMembers(es[..i + 1]);
    assert ms[..i] == EntryMembers(es[..i]);
    FileMapKeys(EntryMembers(es[..i]));
    forall a, b | 0 <= a < b < |ms| ensures ms[a].0 != ms[b].0 {
      if b == i {
        assert EntryMembers(es[..i])[a].0 == ms[a].0;
      } else {
        assert EntryMembers(es[..i])[a] == ms[a] && EntryMembers(es[..i])[b] == ms[b];
      }
    }
  }

  lemma RepeatedEntry(es: seq<Entry>, i: nat, files: map<string, string>)
    requires i < |es| && Collected(es, i, files) && es[i].name in files
    ensures !DistinctMembers(EntryMembers(es))
  {
    FileMapKeys(EntryMembers(es[..i]));
    var a :| 0 <= a < i && EntryMembers(es[..i])[a].0 == es[i].name;
    assert EntryMembers(es)[a].0 == EntryMembers(es)[i].0;
  }

  method CollectFiles(es: seq<Entry>) returns (ok: bool, files: map<string, string>)
    ensures ok <==> GoArchive(es)
    ensures ok ==> files == FileMap(EntryMembers(es))
  {
    ok, files := true, map[];
    for i := 0 to |es|
      invariant ok && Collected(es, i, files)
    {
      var e := es[i];
      assert e in es;
      if !SafeArchivePath(e.name) || !e.regular {
        ok := false;
        return;
      }
      if e.name in files {
        RepeatedEntry(es, i, files);
        ok := false;
        return;
      }
      CollectOneMore(es, i, files);
      files := files[e.name := e.data];
    }
    assert es[..|es|] == es;
  }

  /** Accepts exactly when acceptance holds of the manifest in the archive, and returns that one. */
  method Verify(c: Codec, id: string, sum: string, bytes: string) returns (r: Option<Manifest>)
    requires IsSha(c.sha)
    ensures r.Some? ==> Accepted(c, id, sum, bytes, r.value)
    ensures r.None? ==> forall m :: !Accepted(c, id, sum, bytes, m)
  {
    if id == "" || sum == "" || bytes == "" || c.sha(bytes) != sum {
      return None;
    }
    var entries := c.untar(bytes);
    if entries.None? {
      return None;
    }
    var ok, files := CollectFiles(entries.value);
    if !ok || MANIFEST_PATH !in files {
      return None;
    }
    var decoded := c.decode(files[MANIFEST_PATH]);
    if decoded.None? {
      return None;
    }
    var m := decoded.value;
    if m.formatVersion != 2 || m.bundleId != id {
      return None;
    }
    if m.runner.version == "" || !SafeArchivePath(m.runner.path) || !ValidDigest(m.runner.sha) {
      return None;
    }
    var covered := VerifyPayloadChecksums(c.sha, files);
    SafeNames(entries.value);
    if !covered || m.runner.path !in files || c.sha(files[m.runner.path]) != m.runner.sha {
      return None;
    }
    if BundleIdOf(c, m) != id {
      return None;
    }
    return Some(m);
  }

  lemma SafeNames(es: seq<Entry>)
    requires GoArchive(es)
    ensures forall p :: p in FileMap(EntryMembers(es)) ==> SafeArchivePath(p)
  {
    FileMapKeys(EntryMembers(es));
    forall p | p in FileMap(EntryMembers(es)) ensures SafeArchivePath(p) {
      var i :| 0 <= i < |es| && EntryMembers(es)[i].0 == p;
      assert es[i] in es;
    }
  }

  /** The checksum document pins the payload: accepted bundles with the same document have the same
      members, as far as the hash tells contents apart. */
  lemma DocumentPinsPayload(c: Codec, b: Assembled, b': Assembled)
    requires IsSha(c.sha) && Accepted(c, b.id, b.sha, b.bytes, b.manifest) && Accepted(c, b'.id, b'.sha, b'.bytes, b'.manifest)
    requires var files, files' := FilesOf(c, b.bytes), FilesOf(c, b'.bytes); files[SUMS] == files'[SUMS]
    ensures var files, files' := FilesOf(c, b.bytes), FilesOf(c, b'.bytes);
      files.Keys == files'.Keys && forall p :: p in files ==> c.sha(files[p]) == c.sha(files'[p])
  {
    var files, files' := FilesOf(c, b.bytes), FilesOf(c, b'.bytes);
    var ls := Lines(files[SUMS], GoBreak);
    forall p ensures p in files <==> p in files' {
      assert p != SUMS ==> (NameIn(ls, p) <==> p in files) && (NameIn(ls, p) <==> p in files');
    }
    forall p | p in files ensures c.sha(files[p]) == c.sha(files'[p]) {
      if p != SUMS {
        assert NameIn(ls, p);
        var l :| l in ls && Name(l) == p;
        assert LineOk(c.sha, files, l) && LineOk(c.sha, files', l);
      }
    }
  }

  // ---------- Assembled bundles ----------

  ghost predicate Unreserved(fs: seq<File>) {
    forall f :: f in fs ==> f.path != MANIFEST_PATH && f.path != SUMS && f.path != RUNNER_PATH
  }

  ghost predicate NoBackslash(fs: seq<File>) { forall f :: f in fs ==> '\\' !in f.path }

  predicate NameChar(ch: char) { 'a' <= ch <= 'z' || 'A' <= ch <= 'Z' || '0' <= ch <= '9' || ch == '.' }

  predicate PlainName(p: string) { p != "" && p[0] != '.' && forall i :: 0 <= i < |p| ==> NameChar(p[i]) }

  lemma PlainNameIsSafe(p: string)
    requires PlainName(p)
    ensures SafeArchivePath(p)
  {
    SplitPrefix(p, [], '/');
    assert forall ch :: ch in "\\" + LINE_OR_NUL ==> !NameChar(ch);
  }

  lemma PlainPairIsClean(a: string, b: string)
    requires PlainName(a) && PlainName(b)
    ensures Clean(a + ['/'] + b)
  {
    SplitPrefix(a, b, '/');
    SplitPrefix(b, [], '/');
  }

  lemma PlainPairIsSafe(a: string, b: string)
    requires PlainName(a) && PlainName(b)
    ensures SafeArchivePath(a + ['/'] + b)
  {
    var p := a + ['/'] + b;
    PlainPairIsClean(a, b);
    assert forall ch :: ch in "\\" + LINE_OR_NUL ==> !NameChar(ch) && ch != '/';
    assert forall i :: 0 <= i < |p| ==> NameChar(p[i]) || p[i] == '/';
    assert p[0] == a[0];
  }

  lemma ManifestPathIsSafe()
    ensures SafeArchivePath(MANIFEST_PATH)
  {
    PlainNameIsSafe(MANIFEST_PATH);
  }

  lemma RunnerPathIsSafe()
    ensures SafeArchivePath(RUNNER_PATH)
  {
    assert PlainName("runtime") && PlainName("runner.py");
    PlainPairIsSafe("runtime", "runner.py");
    assert RUNNER_PATH == "runtime" + ['/'] + "runner.py";
  }

  lemma SumsIsSafe()
    ensures SafeArchivePath(SUMS)
  {
    PlainNameIsSafe(SUMS);
  }

  lemma ReservedApart()
    ensures MANIFEST_PATH != SUMS && MANIFEST_PATH != RUNNER_PATH && SUMS != RUNNER_PATH
  {
    assert |MANIFEST_PATH| == 13 && |SUMS| == 10 && |RUNNER_PATH| == 17;
  }

  lemma PathOf(fs: seq<File>, p: string)
    ensures PathIn(MembersOf(fs), p) <==> exists f :: f in fs && f.path == p
  {
    if PathIn(MembersOf(fs), p) {
      var i :| 0 <= i < |fs| && MembersOf(fs)[i].0 == p;
      assert fs[i] in fs;
    }
    if f :| f in fs && f.path == p {
      var i :| 0 <= i < |fs| && fs[i] == f;
      assert MembersOf(fs)[i].0 == p;
    }
  }

  lemma FileIn(fs: seq<File>, f: File)
    requires DistinctMembers(MembersOf(fs)) && f in fs
    ensures f.path in FileMap(MembersOf(fs)) && FileMap(MembersOf(fs))[f.path] == f.data
  {
    var i :| 0 <= i < |fs| && fs[i] == f;
    FileMapHas(MembersOf(fs), i);
  }

  lemma SameFilesSameMap(fs: seq<File>, gs: seq<File>)
    requires DistinctMembers(MembersOf(fs)) && DistinctMembers(MembersOf(gs)) && forall f :: f in fs <==> f in gs
    ensures FileMap(MembersOf(fs)) == FileMap(MembersOf(gs))
  {
    var m, n := FileMap(MembersOf(fs)), FileMap(MembersOf(gs));
    FileMapKeys(MembersOf(fs));
    FileMapKeys(MembersOf(gs));
    forall p ensures p in m <==> p in n {
      PathOf(fs, p);
      PathOf(gs, p);
    }
    forall p | p in m ensures m[p] == n[p] {
      PathOf(fs, p);
      var f :| f in fs && f.path == p;
      FileIn(fs, f);
      FileIn(gs, f);
    }
  }

  lemma DistinctReordered(fs: seq<File>, gs: seq<File>)
    requires IsPermutation(fs, gs) && DistinctMembers(MembersOf(fs))
    ensures DistinctMembers(MembersOf(gs))
  {
    forall i, j | 0 <= i < j < |fs| ensures fs[i].path != fs[j].path {
      assert MembersOf(fs)[i].0 != MembersOf(fs)[j].0;
    }
    PairwiseReordered(fs, gs, (f: File, g: File) => f.path != g.path);
  }

  /** The three files that assembly adds collide with nothing exactly when no input file has one of
      their names. */
  lemma DistinctWithReserved(fs: seq<File>, runner: File, manifest: File, sums: File)
    requires DistinctMembers(MembersOf(fs)) && runner.path == RUNNER_PATH && manifest.path == MANIFEST_PATH && sums.path == SUMS
    ensures DistinctMembers(MembersOf(fs + [runner, manifest, sums])) <==> Unreserved(fs)
  {
    var all, n := fs + [runner, manifest, sums], |fs|;
    ReservedApart();
    assert all[n] == runner && all[n + 1] == manifest && all[n + 2] == sums;
    if DistinctMembers(MembersOf(all)) {
      forall f | f in fs ensures f.path != MANIFEST_PATH && f.path != SUMS && f.path != RUNNER_PATH {
        var i :| 0 <= i < n && fs[i] == f;
        assert MembersOf(all)[i].0 == f.path;
        assert MembersOf(all)[n].0 == RUNNER_PATH && MembersOf(all)[n + 1].0 == MANIFEST_PATH && MembersOf(all)[n + 2].0 == SUMS;
      }
    }
    if Unreserved(fs) {
      forall i, j | 0 <= i < j < |all| ensures all[i].path != all[j].path {
        if j < n {
          assert MembersOf(fs)[i].0 != MembersOf(fs)[j].0;
        } else if i < n {
          assert all[i] == fs[i] && fs[i] in fs;
        }
      }
    }
  }

  lemma ModesKeepPaths(fs: seq<File>)
    ensures MembersOf(WithModes(fs)) == MembersOf(fs)
    ensures Unreserved(WithModes(fs)) <==> Unreserved(fs)
    ensures NoBackslash(WithModes(fs)) <==> NoBackslash(fs)
    ensures NoDots(WithModes(fs)) <==> NoDots(fs)
  {
    var gs := WithModes(fs);
    assert forall i :: 0 <= i < |fs| ==> gs[i] in gs && fs[i] in fs && gs[i].path == fs[i].path;
  }

  lemma EntriesOfFiles(fs: seq<File>)
    ensures EntryMembers(Entries(fs)) == MembersOf(fs)
  {
  }

  lemma EntryNames(fs: seq<File>, ok: string -> bool)
    ensures (forall e :: e in Entries(fs) ==> ok(e.name) && e.regular) <==> (forall f :: f in fs ==> ok(f.path))
  {
    if forall e :: e in Entries(fs) ==> ok(e.name) && e.regular {
      forall f | f in fs ensures ok(f.path) {
        var i :| 0 <= i < |fs| && fs[i] == f;
        assert Entries(fs)[i] in Entries(fs);
      }
    }
    if forall f :: f in fs ==> ok(f.path) {
      forall e | e in Entries(fs) ensures ok(e.name) && e.regular {
        var i :| 0 <= i < |fs| && Entries(fs)[i] == e;
        assert fs[i] in fs;
      }
    }
  }

  /** The names in the archive are all fine exactly when those of the input files are. */
  lemma ArchiveNames(inputs: seq<File>, added: seq<File>, sorted: seq<File>, ok: string -> bool)
    requires forall f :: f in sorted <==> f in WithModes(inputs) + added
    requires forall f :: f in added ==> ok(f.path)
    ensures (forall e :: e in Entries(sorted) ==> ok(e.name) && e.regular) <==> (forall f :: f in inputs ==> ok(f.path))
  {
    var modes := WithModes(inputs);
    EntryNames(sorted, ok);
    assert forall f :: f in modes + added <==> f in modes || f in added;
    if forall f :: f in sorted ==> ok(f.path) {
      forall f | f in inputs ensures ok(f.path) {
        var i :| 0 <= i < |inputs| && inputs[i] == f;
        assert modes[i] in modes && modes[i] in sorted;
      }
    }
    if forall f :: f in inputs ==> ok(f.path) {
      forall f | f in modes ensures ok(f.path) {
        var i :| 0 <= i < |modes| && modes[i] == f;
        assert inputs[i] in inputs;
      }
    }
  }

  lemma SafeEntries(inputs: seq<File>, added: seq<File>, sorted: seq<File>)
    requires forall f :: f in added ==> SafeArchivePath(f.path)
    requires forall f :: f in inputs ==> FileOk(f)
    requires forall f :: f in sorted <==> f in WithModes(inputs) + added
    ensures (forall e :: e in Entries(sorted) ==> SafeArchivePath(e.name) && e.regular) <==> NoBackslash(inputs)
  {
    ArchiveNames(inputs, added, sorted, SafeArchivePath);
    forall f | f in inputs ensures SafeArchivePath(f.path) <==> '\\' !in f.path {
      assert FileOk(f);
      SafeIsBundlePath(f.path);
    }
  }

  lemma AddedSafe(runner: File, manifest: File, sums: File)
    requires runner.path == RUNNER_PATH && manifest.path == MANIFEST_PATH && sums.path == SUMS
    ensures forall f :: f in [runner, manifest, sums] ==> SafeArchivePath(f.path)
  {
    ManifestPathIsSafe();
    RunnerPathIsSafe();
    SumsIsSafe();
  }

  lemma DistinctSorted(inputs: seq<File>, runner: File, manifest: File, sums: File, sorted: seq<File>)
    requires runner.path == RUNNER_PATH && manifest.path == MANIFEST_PATH && sums.path == SUMS
    requires DistinctMembers(MembersOf(inputs)) && IsPermutation(sorted, inputs + [runner, manifest, sums])
    ensures DistinctMembers(MembersOf(sorted)) <==> Unreserved(inputs)
  {
    var all := inputs + [runner, manifest, sums];
    DistinctWithReserved(inputs, runner, manifest, sums);
    if DistinctMembers(MembersOf(all)) { DistinctReordered(all, sorted); }
    if DistinctMembers(MembersOf(sorted)) { DistinctReordered(sorted, all); }
  }

  lemma SortedFileMap(inputs: seq<File>, runner: File, manifest: File, sums: File, sorted: seq<File>)
    requires runner.path == RUNNER_PATH && manifest.path == MANIFEST_PATH && sums.path == SUMS
    requires DistinctMembers(MembersOf(inputs)) && IsPermutation(sorted, inputs + [runner, manifest, sums]) && Unreserved(inputs)
    ensures FileMap(MembersOf(sorted)) == FileMap(MembersOf(inputs + [runner, manifest]))[SUMS := sums.data]
  {
    var payload := inputs + [runner, manifest];
    var all := payload + [sums];
    assert all == inputs + [runner, manifest, sums];
    DistinctWithReserved(inputs, runner, manifest, sums);
    DistinctReordered(all, sorted);
    PermutationMembers(sorted, all);
    SameFilesSameMap(sorted, all);
    assert MembersOf(all)[..|all| - 1] == MembersOf(payload);
  }

  /** What the archive of an assembled bundle lists. */
  lemma AssembledArchive(c: Codec, inp: Input)
    requires c.Valid() && InputOk(inp)
    ensures var b, inputs := AssembledBundle(c, inp), inp.files + inp.actions;
      && c.untar(b.bytes).Some?
      && (GoArchive(c.untar(b.bytes).value) <==> Unreserved(inputs) && NoBackslash(inputs))
  {
    var b, inputs := AssembledBundle(c, inp), WithModes(inp.files + inp.actions);
    var runner, manifest, sums := RunnerFile(c), ManifestFile(c, b.manifest), SumsFile(c, Payload(c, inp, b.manifest));
    var sorted := SortedFiles(c, inp, inputs, runner, manifest, sums);
    ModesKeepPaths(inp.files + inp.actions);
    DistinctSorted(inputs, runner, manifest, sums, sorted);
    AddedSafe(runner, manifest, sums);
    SafeEntries(inp.files + inp.actions, [runner, manifest, sums], sorted);
    EntriesOfFiles(sorted);
  }

  lemma SortedFiles(c: Codec, inp: Input, inputs: seq<File>, runner: File, manifest: File, sums: File) returns (sorted: seq<File>)
    requires c.Valid() && InputOk(inp) && inputs == WithModes(inp.files + inp.actions)
    requires var m := FinalManifest(c, inp);
      runner == RunnerFile(c) && manifest == ManifestFile(c, m) && sums == SumsFile(c, Payload(c, inp, m))
    ensures IsPermutation(sorted, inputs + [runner, manifest, sums])
    ensures forall f :: f in sorted <==> f in inputs + [runner, manifest, sums]
    ensures c.untar(AssembledBundle(c, inp).bytes) == Some(Entries(sorted))
  {
    var all := AllFiles(c, inp, FinalManifest(c, inp));
    assert all == inputs + [runner, manifest, sums];
    sorted := Sort(all, FileKey);
    SortSorts(all, FileKey);
    PermutationMembers(sorted, all);
  }

  lemma AssembledFiles(c: Codec, inp: Input)
    requires c.Valid() && InputOk(inp) && Unreserved(inp.files + inp.actions)
    ensures FilesOf(c, AssembledBundle(c, inp).bytes) == WithSums(c.sha, MembersOf(Payload(c, inp, FinalManifest(c, inp))))
  {
    var m, inputs := FinalManifest(c, inp), WithModes(inp.files + inp.actions);
    var runner, manifest, sums := RunnerFile(c), ManifestFile(c, m), SumsFile(c, Payload(c, inp, m));
    var sorted := SortedFiles(c, inp, inputs, runner, manifest, sums);
    ModesKeepPaths(inp.files + inp.actions);
    SortedFileMap(inputs, runner, manifest, sums, sorted);
    EntriesOfFiles(sorted);
  }

  // ---------- The main results ----------

  lemma PayloadMembers(c: Codec, inp: Input, m: Manifest)
    requires InputOk(inp) && Unreserved(inp.files + inp.actions)
    ensures DistinctMembers(MembersOf(Payload(c, inp, m)))
    ensures forall x :: x in MembersOf(Payload(c, inp, m)) ==> x.0 != SUMS
    ensures RunnerFile(c) in Payload(c, inp, m) && ManifestFile(c, m) in Payload(c, inp, m)
  {
    var inputs, payload := WithModes(inp.files + inp.actions), Payload(c, inp, m);
    var sums := File(SUMS, "", 0, "");
    ModesKeepPaths(inp.files + inp.actions);
    DistinctWithReserved(inputs, RunnerFile(c), ManifestFile(c, m), sums);
    var all := inputs + [RunnerFile(c), ManifestFile(c, m), sums];
    var n := |payload|;
    assert all == payload + [sums] && payload[n - 2] == RunnerFile(c) && payload[n - 1] == ManifestFile(c, m);
    forall i | 0 <= i < n ensures MembersOf(payload)[i].0 != SUMS {
      assert MembersOf(all)[i].0 != MembersOf(all)[n].0;
    }
    forall i, j | 0 <= i < j < n ensures MembersOf(payload)[i].0 != MembersOf(payload)[j].0 {
      assert MembersOf(all)[i].0 != MembersOf(all)[j].0;
    }
  }

  lemma ReservedHaveNoBreaks()
    ensures NoBreak(MANIFEST_PATH, PythonBreak) && NoBreak(RUNNER_PATH, PythonBreak)
    ensures NoBreak(MANIFEST_PATH, GoBreak) && NoBreak(RUNNER_PATH, GoBreak)
  {
  }

  ghost predicate NoBreaks(fs: seq<File>, brk: Breaks) { forall f :: f in fs ==> NoBreak(f.path, brk) }

  lemma PayloadBreaks(c: Codec, inp: Input, m: Manifest, brk: Breaks)
    requires NoBreak(MANIFEST_PATH, brk) && NoBreak(RUNNER_PATH, brk)
    ensures (forall x :: x in MembersOf(Payload(c, inp, m)) ==> NoBreak(x.0, brk)) <==> NoBreaks(inp.files + inp.actions, brk)
  {
    var inputs, payload := inp.files + inp.actions, Payload(c, inp, m);
    var ms := MembersOf(payload);
    assert forall i :: 0 <= i < |inputs| ==> ms[i].0 == inputs[i].path && ms[i] in ms && inputs[i] in inputs;
  }

  /** Both readers accept the checksum document of an assembled bundle unless a path holds one of their
      line breaks. */
  lemma AssembledCovers(c: Codec, inp: Input, brk: Breaks)
    requires c.Valid() && InputOk(inp) && Unreserved(inp.files + inp.actions) && Compatible(brk)
    requires NoBreak(MANIFEST_PATH, brk) && NoBreak(RUNNER_PATH, brk)
    ensures var files := FilesOf(c, AssembledBundle(c, inp).bytes);
      SUMS in files && (Covers(brk, c.sha, files, files[SUMS]) <==> NoBreaks(inp.files + inp.actions, brk))
  {
    var m := FinalManifest(c, inp);
    AssembledFiles(c, inp);
    PayloadMembers(c, inp, m);
    PayloadBreaks(c, inp, m, brk);
    DocumentAccepted(brk, c.sha, MembersOf(Payload(c, inp, m)));
  }

  /** The manifest and the runner are found in an assembled bundle. */
  lemma AssembledMetadata(c: Codec, inp: Input)
    requires c.Valid() && InputOk(inp) && Unreserved(inp.files + inp.actions)
    ensures var b := AssembledBundle(c, inp); var files := FilesOf(c, b.bytes);
      && MANIFEST_PATH in files && c.decode(files[MANIFEST_PATH]) == Some(b.manifest)
      && RUNNER_PATH in files && c.sha(files[RUNNER_PATH]) == b.manifest.runner.sha
  {
    var m := FinalManifest(c, inp);
    AssembledFiles(c, inp);
    PayloadMembers(c, inp, m);
    ReservedApart();
    FileIn(Payload(c, inp, m), RunnerFile(c));
    FileIn(Payload(c, inp, m), ManifestFile(c, m));
  }

  lemma OwnId(c: Codec, inp: Input)
    requires IsSha(c.sha) && InputOk(inp)
    ensures var m := FinalManifest(c, inp); BundleIdOf(c, m) == m.bundleId && m.bundleId != ""
    ensures var m := FinalManifest(c, inp); m.formatVersion == 2 && m.runner == Runner("1", RUNNER_PATH, c.sha(c.runner))
  {
    var m0 := NormalizeManifest(RawManifest(c, inp));
    assert m0.bundleId == "";
    assert FinalManifest(c, inp).(bundleId := "") == m0 == m0.(bundleId := "");
  }

  lemma InputHasNoGoBreaks(inp: Input)
    requires InputOk(inp)
    ensures NoBreaks(inp.files + inp.actions, GoBreak)
  {
    forall f | f in inp.files + inp.actions ensures NoBreak(f.path, GoBreak) {
      assert FileOk(f) && '\n' in LINE_OR_NUL;
    }
  }

  lemma AssembledGoManifest(c: Codec, inp: Input, files: map<string, string>)
    requires c.Valid() && InputOk(inp)
    requires RUNNER_PATH in files && c.sha(files[RUNNER_PATH]) == FinalManifest(c, inp).runner.sha
    ensures GoManifest(c, FinalManifest(c, inp).bundleId, FinalManifest(c, inp), files)
  {
    OwnId(c, inp);
    RunnerPathIsSafe();
  }

  lemma GoodInputAccepted(c: Codec, inp: Input)
    requires c.Valid() && InputOk(inp) && Unreserved(inp.files + inp.actions) && NoBackslash(inp.files + inp.actions)
    ensures var b := AssembledBundle(c, inp); Accepted(c, b.id, b.sha, b.bytes, b.manifest)
  {
    AssembledArchive(c, inp);
    AssembledMetadata(c, inp);
    InputHasNoGoBreaks(inp);
    ReservedHaveNoBreaks();
    AssembledCovers(c, inp, GoBreak);
    OwnId(c, inp);
    AssembledGoManifest(c, inp, FilesOf(c, AssembledBundle(c, inp).bytes));
  }

  /** `Verify` accepts an assembled bundle, and then returns its manifest, exactly when no input path
      contains a backslash or is one of the three names that assembly adds itself. */
  lemma VerifyAcceptsAssembled(c: Codec, inp: Input, m: Manifest)
    requires c.Valid() && InputOk(inp)
    ensures var b, inputs := AssembledBundle(c, inp), inp.files + inp.actions;
      Accepted(c, b.id, b.sha, b.bytes, m) <==> m == b.manifest && Unreserved(inputs) && NoBackslash(inputs)
  {
    var inputs := inp.files + inp.actions;
    if Unreserved(inputs) && NoBackslash(inputs) {
      AssembledMetadata(c, inp);
      GoodInputAccepted(c, inp);
    } else {
      AssembledArchive(c, inp);
    }
  }

  // ---------- The runner ----------

  /** `safe_member`, without the file type. */
  predicate PythonSafe(p: string) { !("/" <= p) && ".." !in Split(p, '/') && '\\' !in p }

  ghost predicate PythonArchive(es: seq<Entry>) {
    (forall e :: e in es ==> PythonSafe(e.name) && e.regular) && DistinctMembers(EntryMembers(es))
  }

  predicate PythonManifest(c: Codec, m: Manifest, files: map<string, string>) {
    m.formatVersion == 2 && m.runner.version == "1" && m.runner.path in files && c.sha(files[m.runner.path]) == m.runner.sha
  }

  /** What acceptance by the runner's `read_bundle` means. */
  ghost predicate RunnerAccepted(c: Codec, bytes: string, m: Manifest) {
    c.untar(bytes).Some? && PythonArchive(c.untar(bytes).value) && PythonPayload(c, FilesOf(c, bytes), m)
  }

  ghost predicate PythonPayload(c: Codec, files: map<string, string>, m: Manifest) {
    && MANIFEST_PATH in files && c.decode(files[MANIFEST_PATH]) == Some(m)
    && SUMS in files && Covers(PythonBreak, c.sha, files, files[SUMS]) && PythonManifest(c, m, files)
  }

  lemma LeadingDots(p: string)
    requires CleanParts(Split(p, '/'), true) && ".." in Split(p, '/')
    ensures p == ".." || "../" <= p
  {
    SplitParts(p, '/');
    var parts := Split(p, '/');
    assert parts[0] == "..";
    if |parts| > 1 {
      assert p == ".." + ['/'] + Join(parts[1..], '/');
    }
  }

  lemma PythonSafeExactly(p: string)
    requires BundlePath(p)
    ensures PythonSafe(p) <==> p != ".." && '\\' !in p
  {
    if p == ".." || p == "." {
      SplitPrefix(p, [], '/');
    } else if ".." in Split(p, '/') {
      LeadingDots(p);
    }
  }

  lemma PythonSafeEntries(inputs: seq<File>, added: seq<File>, sorted: seq<File>)
    requires forall f :: f in added ==> PythonSafe(f.path)
    requires forall f :: f in inputs ==> FileOk(f)
    requires forall f :: f in sorted <==> f in WithModes(inputs) + added
    ensures (forall e :: e in Entries(sorted) ==> PythonSafe(e.name) && e.regular) <==> NoBackslash(inputs) && NoDots(inputs)
  {
    ArchiveNames(inputs, added, sorted, PythonSafe);
    forall f | f in inputs ensures PythonSafe(f.path) <==> f.path != ".." && '\\' !in f.path {
      assert FileOk(f);
      PythonSafeExactly(f.path);
    }
  }

  lemma AddedPythonSafe(runner: File, manifest: File, sums: File)
    requires runner.path == RUNNER_PATH && manifest.path == MANIFEST_PATH && sums.path == SUMS
    ensures forall f :: f in [runner, manifest, sums] ==> PythonSafe(f.path)
  {
    ReservedPythonSafe();
  }

  lemma ReservedPythonSafe()
    ensures PythonSafe(MANIFEST_PATH) && PythonSafe(SUMS) && PythonSafe(RUNNER_PATH)
  {
    ManifestPathIsSafe();
    SumsIsSafe();
    RunnerPathIsSafe();
    ReservedDots();
    SafeIsBundlePath(MANIFEST_PATH);
    SafeIsBundlePath(SUMS);
    SafeIsBundlePath(RUNNER_PATH);
    PythonSafeExactly(MANIFEST_PATH);
    PythonSafeExactly(SUMS);
    PythonSafeExactly(RUNNER_PATH);
  }

  lemma ReservedDots()
    ensures MANIFEST_PATH != ".." && SUMS != ".." && RUNNER_PATH != ".."
  {
    assert |MANIFEST_PATH| == 13 && |SUMS| == 10 && |RUNNER_PATH| == 17;
  }

  ghost predicate NoDots(fs: seq<File>) { forall f :: f in fs ==> f.path != ".." }

  lemma AssembledPythonArchive(c: Codec, inp: Input)
    requires c.Valid() && InputOk(inp)
    ensures var b, inputs := AssembledBundle(c, inp), inp.files + inp.actions;
      && c.untar(b.bytes).Some?
      && (PythonArchive(c.untar(b.bytes).value) <==> Unreserved(inputs) && NoBackslash(inputs) && NoDots(inputs))
  {
    var b, inputs := AssembledBundle(c, inp), WithModes(inp.files + inp.actions);
    var runner, manifest, sums := RunnerFile(c), ManifestFile(c, b.manifest), SumsFile(c, Payload(c, inp, b.manifest));
    var sorted := SortedFiles(c, inp, inputs, runner, manifest, sums);
    ModesKeepPaths(inp.files + inp.actions);
    DistinctSorted(inputs, runner, manifest, sums, sorted);
    AddedPythonSafe(runner, manifest, sums);
    PythonSafeEntries(inp.files + inp.actions, [runner, manifest, sums], sorted);
    EntriesOfFiles(sorted);
  }

  lemma AssembledPythonManifest(c: Codec, inp: Input, files: map<string, string>)
    requires c.Valid() && InputOk(inp)
    requires RUNNER_PATH in files && c.sha(files[RUNNER_PATH]) == FinalManifest(c, inp).runner.sha
    ensures PythonManifest(c, FinalManifest(c, inp), files)
  {
    OwnId(c, inp);
  }

  lemma PayloadExactly(c: Codec, files: map<string, string>, own: Manifest, m: Manifest, covered: bool)
    requires MANIFEST_PATH in files && c.decode(files[MANIFEST_PATH]) == Some(own) && PythonManifest(c, own, files)
    requires SUMS in files && (Covers(PythonBreak, c.sha, files, files[SUMS]) <==> covered)
    ensures PythonPayload(c, files, m) <==> m == own && covered
  {
    hide Covers, PythonManifest;
  }

  lemma PythonCovers(c: Codec, inp: Input)
    requires c.Valid() && InputOk(inp) && Unreserved(inp.files + inp.actions)
    ensures var files := FilesOf(c, AssembledBundle(c, inp).bytes);
      SUMS in files && (Covers(PythonBreak, c.sha, files, files[SUMS]) <==> NoBreaks(inp.files + inp.actions, PythonBreak))
  {
    hide AssembledBundle, FilesOf, Covers, NoBreaks, Unreserved;
    ReservedHaveNoBreaks();
    AssembledCovers(c, inp, PythonBreak);
  }

  lemma PythonPayloadExactly(c: Codec, inp: Input, m: Manifest)
    requires c.Valid() && InputOk(inp) && Unreserved(inp.files + inp.actions)
    ensures var b := AssembledBundle(c, inp);
      PythonPayload(c, FilesOf(c, b.bytes), m) <==> m == b.manifest && NoBreaks(inp.files + inp.actions, PythonBreak)
  {
    var b := AssembledBundle(c, inp);
    hide FinalManifest, FilesOf, InputOk, Unreserved, Covers, NoBreaks, PythonManifest, PythonPayload;
    AssembledMetadata(c, inp);
    AssembledPythonManifest(c, inp, FilesOf(c, b.bytes));
    PythonCovers(c, inp);
    PayloadExactly(c, FilesOf(c, b.bytes), b.manifest, m, NoBreaks(inp.files + inp.actions, PythonBreak));
  }

  /** The runner accepts what `Verify` accepts, except a path ".." and paths with a line break that only
      Python knows: the two readers agree exactly on the other bundles. */
  lemma RunnerAcceptsAssembled(c: Codec, inp: Input, m: Manifest)
    requires c.Valid() && InputOk(inp)
    ensures var b, inputs := AssembledBundle(c, inp), inp.files + inp.actions;
      RunnerAccepted(c, b.bytes, m) <==>
        Accepted(c, b.id, b.sha, b.bytes, m) && NoDots(inputs) && NoBreaks(inputs, PythonBreak)
  {
    var inputs := inp.files + inp.actions;
    VerifyAcceptsAssembled(c, inp, m);
    AssembledPythonArchive(c, inp);
    if Unreserved(inputs) {
      PythonPayloadExactly(c, inp, m);
    }
  }

  // ---------- Bundles that can be assembled and not read ----------

  function OneFile(path: string): File { File(path, "/x", 0, "") }

  function PlainIdentity(): Identity { Identity(Installation, "t", "module", "s", "i", "", "", "1") }

  /** An input with one file. */
  function Single(path: string): Input {
    Input(PlainIdentity(), [], [], [OneFile(path)], [], [], [], [], [], Some(""), [], [], false)
  }

  lemma PlainTarget(path: string)
    ensures TargetOk(OneFile(path))
  {
    SplitPrefix("x", [], '/');
    assert "/x"[1..] == "x";
  }

  lemma PlainTexts()
    ensures var id := PlainIdentity();
      !Blank(id.targetId) && !Blank(id.subjectKind) && !Blank(id.subjectId) && !Blank(id.subjectIdentity) && !Blank(id.version)
  {
    assert !IsSpace("t"[0]) && !IsSpace("module"[0]) && !IsSpace("s"[0]) && !IsSpace("i"[0]) && !IsSpace("1"[0]);
  }

  lemma SingleIsOk(path: string)
    requires BundlePath(path)
    ensures InputOk(Single(path))
  {
    hide Blank, TargetOk, BundlePath;
    PlainTexts();
    PlainTarget(path);
  }

  lemma SingleNames(path: string)
    ensures var inputs := Single(path).files + Single(path).actions;
      && (Unreserved(inputs) <==> path != MANIFEST_PATH && path != SUMS && path != RUNNER_PATH)
      && (NoBackslash(inputs) <==> '\\' !in path) && (NoDots(inputs) <==> path != "..")
      && (NoBreaks(inputs, PythonBreak) <==> NoBreak(path, PythonBreak))
  {
    hide NoBreak;
    var inputs := Single(path).files + Single(path).actions;
    assert inputs == [OneFile(path)] && OneFile(path) in inputs;
  }

  predicate GoName(path: string) { path != MANIFEST_PATH && path != SUMS && path != RUNNER_PATH && '\\' !in path }

  predicate RunnerName(path: string) { GoName(path) && path != ".." && NoBreak(path, PythonBreak) }

  /** One file is enough to tell the two readers and assembly apart by its name. */
  lemma SingleReaders(c: Codec, path: string, m: Manifest)
    requires c.Valid() && BundlePath(path)
    ensures InputOk(Single(path))
    ensures var b := AssembledBundle(c, Single(path));
      && (Accepted(c, b.id, b.sha, b.bytes, m) <==> m == b.manifest && GoName(path))
      && (RunnerAccepted(c, b.bytes, m) <==> m == b.manifest && RunnerName(path))
  {
    SingleIsOk(path);
    SingleNames(path);
    hide InputOk, AssembledBundle, Accepted, RunnerAccepted, Unreserved, NoBackslash, NoDots, NoBreaks, BundlePath, NoBreak, Single;
    VerifyAcceptsAssembled(c, Single(path), m);
    RunnerAcceptsAssembled(c, Single(path), m);
  }

  lemma PlainPart(p: string)
    requires p != "" && p != "." && '/' !in p && Lacks(p, LINE_OR_NUL)
    ensures BundlePath(p)
  {
    SplitPrefix(p, [], '/');
    assert "../"[2] == '/' && forall i :: 0 <= i < |p| ==> p[i] != '/';
  }

  lemma BackslashName()
    ensures BundlePath("a\\b") && !GoName("a\\b")
  {
    assert "a\\b"[1] == '\\';
    PlainPart("a\\b");
  }

  lemma ManifestName()
    ensures BundlePath(MANIFEST_PATH) && !GoName(MANIFEST_PATH)
  {
    ManifestPathIsSafe();
    SafeIsBundlePath(MANIFEST_PATH);
  }

  lemma DotsName()
    ensures BundlePath("..") && GoName("..") && !RunnerName("..")
  {
    PlainPart("..");
    ReservedDots();
  }

  lemma LineSeparatorName()
    ensures BundlePath("a\U{2028}b") && GoName("a\U{2028}b") && !RunnerName("a\U{2028}b")
  {
    var p := "a\U{2028}b";
    assert p[0] == 'a' && p[1] == '\U{2028}' && p[2] == 'b';
    assert MANIFEST_PATH[0] == 'm' && SUMS[0] == 'S' && RUNNER_PATH[0] == 'r';
    PlainPart(p);
  }

  /** A file with a backslash in its path, or with the name of the manifest, is assembled into a bundle that
      neither reader accepts; one that is named "..", or has a line separator in its path, into a bundle that
      `Verify` accepts and the runner refuses. */
  lemma AssembledAndUnreadable(c: Codec, path: string, m: Manifest)
    requires c.Valid() && path in ["a\\b", MANIFEST_PATH, "..", "a\U{2028}b"]
    ensures InputOk(Single(path)) && !RunnerAccepted(c, AssembledBundle(c, Single(path)).bytes, m)
    ensures var b := AssembledBundle(c, Single(path));
      Accepted(c, b.id, b.sha, b.bytes, m) <==> m == b.manifest && path !in ["a\\b", MANIFEST_PATH]
  {
    hide BundlePath, GoName, NoBreak, AssembledBundle, Accepted, RunnerAccepted, InputOk, Single;
    BackslashName();
    ManifestName();
    DotsName();
    LineSeparatorName();
    SingleReaders(c, path, m);
  }
}
