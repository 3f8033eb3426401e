/** The members of a bundle archive by path, and which paths an archive may use. */
module Members {
  import opened Prelude
  import opened Text

  type Member = (string, string)

  /** No two members share a path. */
  predicate DistinctMembers(ms: seq<Member>) {
    forall i, j :: 0 <= i < j < |ms| ==> ms[i].0 != ms[j].0
  }

  function FileMap(ms: seq<Member>): map<string, string> {
    if ms == [] then map[] else FileMap(ms[..|ms|-1])[ms[|ms|-1].0 := ms[|ms|-1].1]
  }

  lemma {:induction false} FileMapHas(ms: seq<Member>, i: nat)
    requires DistinctMembers(ms) && i < |ms|
    ensures ms[i].0 in FileMap(ms) && FileMap(ms)[ms[i].0] == ms[i].1
    decreases |ms|
  {
    if i < |ms| - 1 {
      FileMapHas(ms[..|ms|-1], i);
    }
  }

  ghost predicate PathIn(ms: seq<Member>, p: string) { exists i :: 0 <= i < |ms| && ms[i].0 == p }

  lemma {:induction false} FileMapKeys(ms: seq<Member>)
    ensures forall p :: p in FileMap(ms) <==> PathIn(ms, p)
    decreases |ms|
  {
    if ms != [] {
      var last := |ms| - 1;
      FileMapKeys(ms[..last]);
      forall p ensures p in FileMap(ms) <==> PathIn(ms, p) {
        if PathIn(ms[..last], p) {
          var i :| 0 <= i < last && ms[..last][i].0 == p;
          assert ms[i].0 == p;
        }
        if i :| 0 <= i < |ms| && ms[i].0 == p {
          assert i < last ==> ms[..last][i].0 == p;
        }
      }
    }
  }

  lemma SamePaths(xs: seq<Member>, ys: seq<Member>, p: string)
    requires IsPermutation(xs, ys) && PathIn(xs, p)
    ensures PathIn(ys, p)
  {
    PermutationMembers(xs, ys);
    var i :| 0 <= i < |xs| && xs[i].0 == p;
    assert xs[i] in ys;
    var j :| 0 <= j < |ys| && ys[j] == xs[i];
  }

  lemma MembersReordered(ms: seq<Member>, ns: seq<Member>)
    requires DistinctMembers(ms) && IsPermutation(ms, ns)
    ensures DistinctMembers(ns)
  {
    PairwiseReordered(ms, ns, (a: Member, b: Member) => a.0 != b.0);
  }

  // ---------- Paths ----------

  /** `path.Clean(p) == p`: "/" and "." are clean; otherwise no component is empty or ".", and ".."
      only leads a relative path. */
  predicate Clean(p: string) {
    p != "" && (p == "/" || p == "." ||
                (if p[0] == '/' then CleanParts(Split(p[1..], '/'), false) else CleanParts(Split(p, '/'), true)))
  }

  predicate CleanParts(parts: seq<string>, relative: bool) {
    forall i :: 0 <= i < |parts| ==>
      && parts[i] != "" && parts[i] != "."
      && (parts[i] == ".." ==> relative && forall j :: 0 <= j < i ==> parts[j] == "..")
  }

  predicate Lacks(s: string, chars: string) { forall i :: 0 <= i < |s| ==> s[i] !in chars }

  const LINE_OR_NUL := "\r\n\0"

  /** A bundle path that normalisation accepts. */
  predicate BundlePath(p: string) {
    p != "" && Clean(p) && !("/" <= p) && !("../" <= p) && Lacks(p, LINE_OR_NUL)
  }

  /** `safeArchivePath` */
  predicate SafeArchivePath(p: string) {
    p != "" && Clean(p) && !("/" <= p) && !("../" <= p) && Lacks(p, "\\" + LINE_OR_NUL)
  }

  lemma SafeIsBundlePath(p: string)
    ensures SafeArchivePath(p) <==> BundlePath(p) && '\\' !in p
  {
    var all := "\\" + LINE_OR_NUL;
    assert forall c :: c in all <==> c == '\\' || c in LINE_OR_NUL;
  }
}
