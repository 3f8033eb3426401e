/** The canonical identity of a source tree: the byte stream that is hashed
    (`internal/sourcehash/sourcehash.go`). */
module TreeHash {
  import opened Prelude
  import opened Ordering
  import opened Text

  datatype TreeEntry = RegularFile(path: string, mode: nat, size: nat, digest: string)
                     | SymbolicLink(path: string, target: string)

  /** `%04o` of the nine permission bits. */
  function OctalMode(mode: nat): (s: string)
    requires mode < 0x200
  {
    ['0', Digit(mode / 64), Digit(mode / 8 % 8), Digit(mode % 8)]
  }

  const NUL := '\0'

  /** Paths, targets and digests hold no zero byte. */
  predicate WellFormed(e: TreeEntry) {
    NUL !in e.path && match e
      case RegularFile(_, mode, _, digest) => mode < 0x200 && NUL !in digest
      case SymbolicLink(_, target) => NUL !in target
  }

  const SYMLINK_TAG := "symlink"
  const FILE_TAG := "file"

  function Fields(e: TreeEntry): seq<string>
    requires WellFormed(e)
  {
    match e
    case RegularFile(path, mode, size, digest) => [FILE_TAG, path, OctalMode(mode), Decimal(size), digest]
    case SymbolicLink(path, target) => [SYMLINK_TAG, path, target]
  }

  ghost predicate AllWellFormed(es: seq<TreeEntry>) { forall e :: e in es ==> WellFormed(e) }

  /** What `field` writes for each of the given fields. */
  function Terminated(fields: seq<string>): string {
    if fields == [] then [] else fields[0] + [NUL] + Terminated(fields[1..])
  }

  function AllFields(es: seq<TreeEntry>): seq<string>
    requires AllWellFormed(es)
  {
    if es == [] then [] else Fields(es[0]) + AllFields(es[1..])
  }

  function PathKey(e: TreeEntry): Key { [e.path] }

  lemma {:induction false} TerminatedConcat(a: seq<string>, b: seq<string>)
    ensures Terminated(a + b) == Terminated(a) + Terminated(b)
    decreases |a|
  {
    if a == [] {
      assert a + b == b;
    } else {
      assert (a + b)[1..] == a[1..] + b;
      TerminatedConcat(a[1..], b);
    }
  }

  lemma {:induction false} AllFieldsSnoc(es: seq<TreeEntry>, e: TreeEntry)
    requires AllWellFormed(es) && WellFormed(e)
    ensures AllWellFormed(es + [e]) && AllFields(es + [e]) == AllFields(es) + Fields(e)
    decreases |es|
  {
    if es == [] {
      assert es + [e] == [e] && [e][1..] == [];
    } else {
      assert (es + [e])[1..] == es[1..] + [e];
      AllFieldsSnoc(es[1..], e);
    }
  }

  lemma SortedWellFormed(es: seq<TreeEntry>)
    requires AllWellFormed(es)
    ensures AllWellFormed(Sort(es, PathKey))
  {
    SortSorts(es, PathKey);
    PermutationMembers(Sort(es, PathKey), es);
  }

  /** The stream that is hashed for the entries of a walk; a tree without entries has no identity. */
  method HashedStream(es: seq<TreeEntry>) returns (r: Option<string>)
    requires AllWellFormed(es)
    ensures AllWellFormed(Sort(es, PathKey))
    ensures r == if es == [] then None else Some(Terminated(AllFields(Sort(es, PathKey))))
  {
    SortedWellFormed(es);
    if es == [] {
      return None;
    }
    var sorted := Sort(es, PathKey);
    var out := "";
    for i := 0 to |sorted|
      invariant AllWellFormed(sorted[..i]) && out == Terminated(AllFields(sorted[..i]))
    {
      var e := sorted[i];
      assert e in sorted;
      AllFieldsSnoc(sorted[..i], e);
      assert sorted[..i] + [e] == sorted[..i + 1];
      TerminatedConcat(AllFields(sorted[..i]), Fields(e));
      out := out + Terminated(Fields(e));
    }
    assert sorted[..|sorted|] == sorted;
    return Some(out);
  }

  // ---------- Unique decodability ----------

  ghost predicate NulFree(fields: seq<string>) { forall f :: f in fields ==> NUL !in f }

  /** Terminated fields can be told apart. */
  lemma {:induction false} FieldsUnique(a: seq<string>, b: seq<string>)
    requires NulFree(a) && NulFree(b) && Terminated(a) == Terminated(b)
    ensures a == b
    decreases |a|
  {
    if a != [] && b != [] {
      SplitUnique(a[0], Terminated(a[1..]), b[0], Terminated(b[1..]), NUL);
      FieldsUnique(a[1..], b[1..]);
      assert a == [a[0]] + a[1..] && b == [b[0]] + b[1..];
    }
  }

  lemma OctalValue(m: nat)
    ensures m == 64 * (m / 64) + 8 * (m / 8 % 8) + m % 8
  {
    var e := m / 8;
    assert m == 8 * e + m % 8;
    assert e == 8 * (e / 8) + e % 8;
    assert e / 8 == m / 64;
  }

  lemma OctalInjective(m: nat, n: nat)
    requires m < 0x200 && n < 0x200 && OctalMode(m) == OctalMode(n)
    ensures m == n
  {
    var s, t := OctalMode(m), OctalMode(n);
    var a, b, c := m / 64, m / 8 % 8, m % 8;
    var d, e, f := n / 64, n / 8 % 8, n % 8;
    assert s[1] == Digit(a) && s[2] == Digit(b) && s[3] == Digit(c);
    assert t[1] == Digit(d) && t[2] == Digit(e) && t[3] == Digit(f);
    ThreeDigits(a, b, c, d, e, f);
    OctalValue(m);
    OctalValue(n);
  }

  lemma ThreeDigits(a: nat, b: nat, c: nat, d: nat, e: nat, f: nat)
    requires a < 16 && b < 16 && c < 16 && d < 16 && e < 16 && f < 16
    requires Digit(a) == Digit(d) && Digit(b) == Digit(e) && Digit(c) == Digit(f)
    ensures a == d && b == e && c == f
  {
    DigitInjective(a, d);
    DigitInjective(b, e);
    DigitInjective(c, f);
  }

  lemma TagsDiffer()
    ensures FILE_TAG != SYMLINK_TAG && NUL !in FILE_TAG && NUL !in SYMLINK_TAG
  {
    assert FILE_TAG[0] == 'f' && SYMLINK_TAG[0] == 's';
  }

  lemma EntryNulFree(e: TreeEntry)
    requires WellFormed(e)
    ensures NulFree(Fields(e))
  {
    TagsDiffer();
    if e.RegularFile? {
      assert forall i :: 0 <= i < |Decimal(e.size)| ==> Decimal(e.size)[i] != NUL;
      assert NUL !in OctalMode(e.mode);
    }
  }

  lemma {:induction false} EntriesNulFree(es: seq<TreeEntry>)
    requires AllWellFormed(es)
    ensures NulFree(AllFields(es))
    decreases |es|
  {
    if es != [] {
      EntryNulFree(es[0]);
      EntriesNulFree(es[1..]);
    }
  }

  lemma SameFileFields(x: TreeEntry, y: TreeEntry)
    requires WellFormed(x) && WellFormed(y) && x.RegularFile? && y.RegularFile? && Fields(x) == Fields(y)
    ensures x == y
  {
    var f, g := Fields(x), Fields(y);
    assert f[1] == g[1] && f[2] == g[2] && f[3] == g[3] && f[4] == g[4];
    OctalInjective(x.mode, y.mode);
    DecimalInjective(x.size, y.size);
  }

  /** The first field says how many fields belong to the first entry. */
  lemma FirstEntryUnique(x: TreeEntry, a: seq<string>, y: TreeEntry, b: seq<string>)
    requires WellFormed(x) && WellFormed(y) && Fields(x) + a == Fields(y) + b
    ensures x == y && a == b
  {
    TagsDiffer();
    var all := Fields(x) + a;
    assert all[0] == Fields(x)[0] && all[0] == Fields(y)[0];
    var n := |Fields(x)|;
    assert all[..n] == Fields(x) && all[n..] == a && all[..n] == Fields(y) && all[n..] == b;
    if x.RegularFile? {
      SameFileFields(x, y);
    } else {
      assert Fields(x)[1] == Fields(y)[1] && Fields(x)[2] == Fields(y)[2];
    }
  }

  lemma {:induction false} EntriesUnique(a: seq<TreeEntry>, b: seq<TreeEntry>)
    requires AllWellFormed(a) && AllWellFormed(b) && AllFields(a) == AllFields(b)
    ensures a == b
    decreases |a|
  {
    if a != [] && b != [] {
      FirstEntryUnique(a[0], AllFields(a[1..]), b[0], AllFields(b[1..]));
      EntriesUnique(a[1..], b[1..]);
      assert a == [a[0]] + a[1..] && b == [b[0]] + b[1..];
    }
  }

  /** Only equal lists of entries have equal streams, although records of three and of five fields are
      mixed without any count. */
  lemma StreamUnique(a: seq<TreeEntry>, b: seq<TreeEntry>)
    requires AllWellFormed(a) && AllWellFormed(b) && Terminated(AllFields(a)) == Terminated(AllFields(b))
    ensures a == b
  {
    EntriesNulFree(a);
    EntriesNulFree(b);
    FieldsUnique(AllFields(a), AllFields(b));
    EntriesUnique(a, b);
  }

  ghost predicate DistinctEntryPaths(es: seq<TreeEntry>) {
    forall i, j :: 0 <= i < j < |es| ==> es[i].path != es[j].path
  }

  /** Two walks hash the same stream exactly when they met the same entries, in whatever order. */
  lemma SameStreamExactly(a: seq<TreeEntry>, b: seq<TreeEntry>)
    requires AllWellFormed(a) && AllWellFormed(b) && DistinctEntryPaths(a)
    requires AllWellFormed(Sort(a, PathKey)) && AllWellFormed(Sort(b, PathKey))
    ensures Terminated(AllFields(Sort(a, PathKey))) == Terminated(AllFields(Sort(b, PathKey))) <==> IsPermutation(a, b)
  {
    SortSorts(a, PathKey);
    SortSorts(b, PathKey);
    if IsPermutation(a, b) {
      forall x, y | x in a && y in a && PathKey(x) == PathKey(y) ensures x == y {
        var i :| 0 <= i < |a| && a[i] == x;
        var j :| 0 <= j < |a| && a[j] == y;
        assert PathKey(x)[0] == PathKey(y)[0];
        assert i < j || i == j || j < i;
      }
      SortOfPermutation(a, b, PathKey);
    }
    if Terminated(AllFields(Sort(a, PathKey))) == Terminated(AllFields(Sort(b, PathKey))) {
      StreamUnique(Sort(a, PathKey), Sort(b, PathKey));
    }
  }
}
