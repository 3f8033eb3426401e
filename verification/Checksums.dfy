/** The checksum document of a bundle and its two readers, one in Go and one in Python
    (`internal/executionbundle/canonical.go`, `internal/executionbundle/verify.go`,
    `internal/targetrunner/parts/00.inc` and `01.inc`). */
module Checksums {
  import opened Prelude
  import opened Ordering
  import opened Text
  import opened Members

  const SUMS := "SHA256SUMS"

  /** SHA-256 in lower-case hexadecimal. */
  ghost predicate IsSha(sha: string -> string) {
    forall d :: |sha(d)| == 64 && IsHex(sha(d))
  }

  // ---------- Writing ----------

  function MemberKey(m: Member): Key { [m.0] }

  function SumLine(sha: string -> string, m: Member): string { sha(m.1) + "  " + m.0 }

  function Document(sha: string -> string, ms: seq<Member>): string {
    if ms == [] then [] else SumLine(sha, ms[0]) + "\n" + Document(sha, ms[1..])
  }

  lemma {:induction false} DocumentSnoc(sha: string -> string, ms: seq<Member>, m: Member)
    ensures Document(sha, ms + [m]) == Document(sha, ms) + (SumLine(sha, m) + "\n")
    decreases |ms|
  {
    if ms != [] {
      assert (ms + [m])[1..] == ms[1..] + [m];
      DocumentSnoc(sha, ms[1..], m);
    } else {
      assert ([m])[1..] == [];
      assert ms + [m] == [m];
    }
  }

  /** `checksumDocument`: the members sorted by path, one line each. */
  method ChecksumDocument(sha: string -> string, ms: seq<Member>) returns (doc: string)
    ensures doc == Document(sha, Sort(ms, MemberKey))
  {
    var sorted := Sort(ms, MemberKey);
    doc := "";
    for i := 0 to |sorted|
      invariant doc == Document(sha, sorted[..i])
    {
      DocumentSnoc(sha, sorted[..i], sorted[i]);
      assert sorted[..i] + [sorted[i]] == sorted[..i+1];
      doc := doc + (SumLine(sha, sorted[i]) + "\n");
    }
    assert sorted[..|sorted|] == sorted;
  }

  // ---------- Reading ----------

  /** What separates lines: only "\n" for Go's `strings.Split`, many more for Python's `splitlines`. */
  type Breaks = char -> bool

  predicate GoBreak(c: char) { c == '\n' }

  predicate PythonBreak(c: char) {
    c in "\n\r" || c == '\U{b}' || c == '\U{c}' || c == '\U{1c}' || c == '\U{1d}' || c == '\U{1e}' ||
    c == '\U{85}' || c == '\U{2028}' || c == '\U{2029}'
  }

  predicate NoBreak(s: string, brk: Breaks) { forall i :: 0 <= i < |s| ==> !brk(s[i]) }

  function FirstBreak(doc: string, brk: Breaks): (n: nat)
    ensures n <= |doc| && (forall i :: 0 <= i < n ==> !brk(doc[i]))
    ensures n < |doc| ==> brk(doc[n])
  {
    if doc == [] || brk(doc[0]) then 0
    else
      var n := FirstBreak(doc[1..], brk);
      assert forall i :: 1 <= i <= n ==> doc[i] == doc[1..][i - 1];
      n + 1
  }

  /** The non-empty lines: both readers skip empty ones. */
  function Lines(doc: string, brk: Breaks): seq<string>
    decreases |doc|
  {
    if doc == [] then []
    else
      var n := FirstBreak(doc, brk);
      (if n == 0 then [] else [doc[..n]]) + (if n == |doc| then [] else Lines(doc[n + 1..], brk))
  }

  lemma {:induction false} LinesHaveNoBreaks(doc: string, brk: Breaks)
    ensures forall l :: l in Lines(doc, brk) ==> NoBreak(l, brk)
    decreases |doc|
  {
    if doc != [] {
      var n := FirstBreak(doc, brk);
      assert NoBreak(doc[..n], brk);
      hide NoBreak, FirstBreak;
      if n < |doc| {
        LinesHaveNoBreaks(doc[n + 1..], brk);
      }
    }
  }

  lemma FirstLine(line: string, rest: string, brk: Breaks)
    requires line != "" && NoBreak(line, brk) && brk('\n')
    ensures Lines(line + "\n" + rest, brk) == [line] + Lines(rest, brk)
  {
    var doc := line + "\n" + rest;
    var n := FirstBreak(doc, brk);
    assert doc[|line|] == '\n';
    assert forall i :: 0 <= i < |line| ==> doc[i] == line[i];
    assert n == |line|;
    assert doc[..n] == line && doc[n + 1..] == rest;
  }

  /** `strings.Cut` and `str.partition` at the first double space. */
  function CutLine(line: string): Option<(string, string)> {
    if |line| < 2 then None
    else if line[0] == ' ' && line[1] == ' ' then Some(("", line[2..]))
    else match CutLine(line[1..])
      case None => None
      case Some(p) => Some(([line[0]] + p.0, p.1))
  }

  lemma {:induction false} CutAtDigest(digest: string, name: string)
    requires ' ' !in digest
    ensures CutLine(digest + "  " + name) == Some((digest, name))
    decreases |digest|
  {
    var line := digest + "  " + name;
    if digest != "" {
      assert line[0] == digest[0];
      assert line[1..] == digest[1..] + "  " + name;
      CutAtDigest(digest[1..], name);
      assert [digest[0]] + digest[1..] == digest;
    } else {
      assert line[2..] == name;
    }
  }

  lemma {:induction false} CutIsSubstring(line: string, brk: Breaks)
    requires CutLine(line).Some? && NoBreak(line, brk)
    ensures NoBreak(CutLine(line).value.1, brk)
    decreases |line|
  {
    if !(line[0] == ' ' && line[1] == ' ') {
      CutIsSubstring(line[1..], brk);
    }
  }

  function Name(line: string): string { if CutLine(line).Some? then CutLine(line).value.1 else "" }

  ghost predicate NameIn(ls: seq<string>, n: string) { exists l :: l in ls && Name(l) == n }

  predicate LineOk(sha: string -> string, files: map<string, string>, line: string) {
    match CutLine(line)
    case None => false
    case Some((digest, name)) => name in files && sha(files[name]) == digest
  }

  /** What a checksum document has to say: every line is right, and the lines cover every member but
      the document itself, once. */
  ghost predicate Covers(brk: Breaks, sha: string -> string, files: map<string, string>, doc: string) {
    var ls := Lines(doc, brk);
    && (forall l :: l in ls ==> LineOk(sha, files, l))
    && (forall i, j :: 0 <= i < j < |ls| ==> Name(ls[i]) != Name(ls[j]))
    && (forall n :: NameIn(ls, n) <==> n in files && n != SUMS)
  }

  predicate ValidDigest(s: string) { |s| == 64 && IsHex(s) }

  ghost predicate ReadUpTo(sha: string -> string, files: map<string, string>, ls: seq<string>, listed: set<string>) {
    && (forall l :: l in ls ==> LineOk(sha, files, l) && Name(l) in listed)
    && (forall i, j :: 0 <= i < j < |ls| ==> Name(ls[i]) != Name(ls[j]))
    && (forall n :: n in listed ==> NameIn(ls, n))
  }

  lemma ReadOneMore(sha: string -> string, files: map<string, string>, ls: seq<string>, i: nat, listed: set<string>)
    requires i < |ls| && ReadUpTo(sha, files, ls[..i], listed) && LineOk(sha, files, ls[i]) && Name(ls[i]) !in listed
    ensures ReadUpTo(sha, files, ls[..i+1], listed + {Name(ls[i])})
  {
    var before, now := ls[..i], ls[..i+1];
    assert now == before + [ls[i]];
    forall a, b | 0 <= a < b < |now| ensures Name(now[a]) != Name(now[b]) {
      if b == i { assert before[a] in before; } else { assert before[a] == now[a] && before[b] == now[b]; }
    }
    forall n | n in listed + {Name(ls[i])} ensures NameIn(now, n) {
      if n in listed {
        var l :| l in before && Name(l) == n;
        assert l in now;
      } else {
        assert ls[i] in now;
      }
    }
  }

  lemma RepeatedName(ls: seq<string>, i: nat, listed: set<string>)
    requires i < |ls| && Name(ls[i]) in listed && (forall n :: n in listed ==> NameIn(ls[..i], n))
    ensures exists a, b :: 0 <= a < b < |ls| && Name(ls[a]) == Name(ls[b])
  {
    var l :| l in ls[..i] && Name(l) == Name(ls[i]);
    var a :| 0 <= a < i && ls[..i][a] == l;
    assert ls[a] == l;
  }

  /** Go: `verifyPayloadChecksums`. */
  method VerifyPayloadChecksums(sha: string -> string, files: map<string, string>) returns (ok: bool)
    requires IsSha(sha)
    ensures ok <==> SUMS in files && Covers(GoBreak, sha, files, files[SUMS]) && forall n :: n in files && n != SUMS ==> SafeArchivePath(n)
  {
    if SUMS !in files {
      return false;
    }
    var ls := Lines(files[SUMS], GoBreak);
    var listed: set<string> := {};
    for i := 0 to |ls|
      invariant ReadUpTo(sha, files, ls[..i], listed)
      invariant forall n :: n in listed ==> SafeArchivePath(n) && n != SUMS
    {
      var line := ls[i];
      assert line in ls;
      var cut := CutLine(line);
      if cut.None? || !ValidDigest(cut.value.0) || !SafeArchivePath(cut.value.1) || cut.value.1 == SUMS {
        return false;
      }
      var name := cut.value.1;
      if name in listed {
        RepeatedName(ls, i, listed);
        return false;
      }
      if name !in files || sha(files[name]) != cut.value.0 {
        return false;
      }
      ReadOneMore(sha, files, ls, i, listed);
      listed := listed + {name};
    }
    assert ls[..|ls|] == ls;
    ok := forall n :: n in files && n != SUMS ==> n in listed;
  }

  /** Python: the checksum part of `read_bundle`. */
  method ReadBundleChecksums(sha: string -> string, files: map<string, string>) returns (ok: bool)
    requires IsSha(sha)
    ensures ok <==> SUMS in files && Covers(PythonBreak, sha, files, files[SUMS])
  {
    if SUMS !in files {
      return false;
    }
    var ls := Lines(files[SUMS], PythonBreak);
    var listed: set<string> := {};
    for i := 0 to |ls|
      invariant ReadUpTo(sha, files, ls[..i], listed)
    {
      var line := ls[i];
      assert line in ls;
      var cut := CutLine(line);
      if cut.None? || |cut.value.0| != 64 {
        return false;
      }
      var name := cut.value.1;
      if name in listed {
        RepeatedName(ls, i, listed);
        return false;
      }
      if name !in files || sha(files[name]) != cut.value.0 {
        return false;
      }
      ReadOneMore(sha, files, ls, i, listed);
      listed := listed + {name};
    }
    assert ls[..|ls|] == ls;
    ok := listed == files.Keys - {SUMS};
    assert ok <==> forall n :: n in listed <==> n in files && n != SUMS;
    assert forall n :: n in listed <==> NameIn(ls, n);
  }

  // ---------- Which documents are accepted ----------

  predicate Compatible(brk: Breaks) { brk('\n') && !brk(' ') && forall c :: IsHexDigit(c) ==> !brk(c) }

  lemma {:induction false} LinesOfDocument(sha: string -> string, ms: seq<Member>, brk: Breaks)
    requires IsSha(sha) && Compatible(brk) && forall m :: m in ms ==> NoBreak(m.0, brk)
    ensures var ls := Lines(Document(sha, ms), brk);
      |ls| == |ms| && forall i :: 0 <= i < |ls| ==> ls[i] == SumLine(sha, ms[i])
    decreases |ms|
  {
    if ms != [] {
      assert ms[0] in ms && forall m :: m in ms[1..] ==> m in ms;
      LinesOfDocument(sha, ms[1..], brk);
      LineHasNoBreak(sha, ms[0], brk);
      FirstLine(SumLine(sha, ms[0]), Document(sha, ms[1..]), brk);
      hide SumLine, NoBreak, Lines;
      var ls := Lines(Document(sha, ms), brk);
      forall i | 0 <= i < |ls| ensures ls[i] == SumLine(sha, ms[i]) {
        if i > 0 { assert ms[1..][i - 1] == ms[i]; }
      }
    }
  }

  lemma LineHasNoBreak(sha: string -> string, m: Member, brk: Breaks)
    requires IsSha(sha) && Compatible(brk) && NoBreak(m.0, brk)
    ensures NoBreak(SumLine(sha, m), brk)
  {
    var line, digest := SumLine(sha, m), sha(m.1);
    forall i | 0 <= i < |line| ensures !brk(line[i]) {
      if i < 64 {
        assert line[i] == digest[i] && IsHexDigit(digest[i]);
      } else if i >= 66 {
        assert line[i] == m.0[i - 66];
      }
    }
  }

  lemma SumLineCut(sha: string -> string, m: Member)
    requires IsSha(sha)
    ensures CutLine(SumLine(sha, m)) == Some((sha(m.1), m.0)) && Name(SumLine(sha, m)) == m.0
  {
    assert IsHex(sha(m.1)) && !IsHexDigit(' ');
    CutAtDigest(sha(m.1), m.0);
  }

  /** The files of a bundle: the members, and the document that covers them. */
  function WithSums(sha: string -> string, ms: seq<Member>): map<string, string> {
    FileMap(ms)[SUMS := Document(sha, Sort(ms, MemberKey))]
  }

  /** A reader accepts a written document exactly when no path contains one of its line breaks. */
  lemma DocumentAccepted(brk: Breaks, sha: string -> string, ms: seq<Member>)
    requires IsSha(sha) && Compatible(brk) && DistinctMembers(ms) && forall m :: m in ms ==> m.0 != SUMS
    ensures Covers(brk, sha, WithSums(sha, ms), WithSums(sha, ms)[SUMS]) <==> forall m :: m in ms ==> NoBreak(m.0, brk)
  {
    var sorted, files := Sort(ms, MemberKey), WithSums(sha, ms);
    SortSorts(ms, MemberKey);
    PermutationMembers(sorted, ms);
    if forall m :: m in ms ==> NoBreak(m.0, brk) {
      LinesOfDocument(sha, sorted, brk);
      CleanDocumentCovers(brk, sha, ms);
    }
    if Covers(brk, sha, files, files[SUMS]) {
      forall m | m in ms ensures NoBreak(m.0, brk) {
        CoveredHasNoBreak(brk, sha, ms, m);
      }
    }
  }

  lemma CoveredHasNoBreak(brk: Breaks, sha: string -> string, ms: seq<Member>, m: Member)
    requires Covers(brk, sha, WithSums(sha, ms), WithSums(sha, ms)[SUMS]) && m in ms && m.0 != SUMS
    ensures NoBreak(m.0, brk)
  {
    var ls := Lines(WithSums(sha, ms)[SUMS], brk);
    FileMapKeys(ms);
    var i :| 0 <= i < |ms| && ms[i] == m;
    assert m.0 in WithSums(sha, ms);
    var l :| l in ls && Name(l) == m.0;
    LinesHaveNoBreaks(WithSums(sha, ms)[SUMS], brk);
    assert LineOk(sha, WithSums(sha, ms), l);
    CutIsSubstring(l, brk);
  }

  /** The lines of a written document, read back. */
  ghost predicate Written(sha: string -> string, ls: seq<string>, sorted: seq<Member>) {
    |ls| == |sorted| && forall i :: 0 <= i < |ls| ==> ls[i] == SumLine(sha, sorted[i])
  }

  lemma WrittenLineOk(sha: string -> string, ms: seq<Member>, m: Member)
    requires IsSha(sha) && DistinctMembers(ms) && m in ms && m.0 != SUMS
    ensures Name(SumLine(sha, m)) == m.0 && LineOk(sha, WithSums(sha, ms), SumLine(sha, m))
  {
    SumLineCut(sha, m);
    var k :| 0 <= k < |ms| && ms[k] == m;
    FileMapHas(ms, k);
  }

  lemma WrittenNames(sha: string -> string, ls: seq<string>, sorted: seq<Member>)
    requires IsSha(sha) && DistinctMembers(sorted) && Written(sha, ls, sorted)
    ensures forall i, j :: 0 <= i < j < |ls| ==> Name(ls[i]) != Name(ls[j])
    ensures forall n :: NameIn(ls, n) <==> PathIn(sorted, n)
  {
    forall i | 0 <= i < |ls| ensures Name(ls[i]) == sorted[i].0 {
      SumLineCut(sha, sorted[i]);
    }
    forall n ensures NameIn(ls, n) <==> PathIn(sorted, n) {
      if l :| l in ls && Name(l) == n {
        var i :| 0 <= i < |ls| && ls[i] == l;
        assert sorted[i].0 == n;
      }
      if i :| 0 <= i < |sorted| && sorted[i].0 == n {
        assert ls[i] in ls;
      }
    }
  }

  lemma WrittenPaths(sha: string -> string, ms: seq<Member>, sorted: seq<Member>)
    requires IsPermutation(sorted, ms) && forall m :: m in ms ==> m.0 != SUMS
    ensures forall n :: PathIn(sorted, n) <==> n in WithSums(sha, ms) && n != SUMS
  {
    FileMapKeys(ms);
    forall n ensures PathIn(sorted, n) <==> n in WithSums(sha, ms) && n != SUMS {
      if PathIn(sorted, n) { SamePaths(sorted, ms, n); }
      if PathIn(ms, n) {
        SamePaths(ms, sorted, n);
        var i :| 0 <= i < |ms| && ms[i].0 == n;
        assert ms[i] in ms;
      }
    }
  }

  lemma WrittenLinesOk(sha: string -> string, ls: seq<string>, ms: seq<Member>, sorted: seq<Member>)
    requires IsSha(sha) && DistinctMembers(ms) && (forall m :: m in ms ==> m.0 != SUMS) && IsPermutation(sorted, ms)
    requires Written(sha, ls, sorted)
    ensures forall l :: l in ls ==> LineOk(sha, WithSums(sha, ms), l)
  {
    PermutationMembers(sorted, ms);
    hide WithSums, LineOk, SumLine;
    forall i | 0 <= i < |ls| ensures LineOk(sha, WithSums(sha, ms), ls[i]) {
      assert sorted[i] in ms;
      WrittenLineOk(sha, ms, sorted[i]);
    }
  }

  lemma CleanDocumentCovers(brk: Breaks, sha: string -> string, ms: seq<Member>)
    requires IsSha(sha) && DistinctMembers(ms) && forall m :: m in ms ==> m.0 != SUMS
    requires Written(sha, Lines(WithSums(sha, ms)[SUMS], brk), Sort(ms, MemberKey))
    ensures Covers(brk, sha, WithSums(sha, ms), WithSums(sha, ms)[SUMS])
  {
    var sorted, files := Sort(ms, MemberKey), WithSums(sha, ms);
    var ls := Lines(files[SUMS], brk);
    SortSorts(ms, MemberKey);
    MembersReordered(ms, sorted);
    hide WithSums, LineOk, NameIn, PathIn, SumLine, Name, Lines, Sort, Written, DistinctMembers, SortedBy;
    WrittenNames(sha, ls, sorted);
    WrittenPaths(sha, ms, sorted);
    WrittenLinesOk(sha, ls, ms, sorted);
  }
}
