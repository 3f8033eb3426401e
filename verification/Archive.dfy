/** Archives of a directory tree: creation, inspection and extraction with hard links written last
    (`internal/backuprestore/archive.go`). */
module Archive {
  import opened Prelude
  import opened Ordering
  import opened Text
  import opened Members

  // ---------- Trees ----------

  /** Contents and restored metadata of a regular file. */
  datatype Data = Data(bytes: string, meta: string)

  /** What a path names; hard links to one file share its inode. A directory created on the way has no
      restored metadata yet. */
  datatype Node = Dir(meta: Option<string>) | File(inode: nat) | SymLink(target: string, linkMeta: string)

  datatype Tree = Tree(nodes: map<string, Node>, data: map<nat, Data>)

  /** The paths of the directories above a path: the parts before each '/'. */
  function Above(p: string): (qs: set<string>)
    ensures forall q :: q in qs <==> exists i :: 0 < i < |p| && p[i] == '/' && q == p[..i]
  {
    set i | 0 < i < |p| && p[i] == '/' :: p[..i]
  }

  /** Everything lies in directories, all the way up: nothing was ever created through a symbolic link
      or below a file. */
  ghost predicate InDirectories(nodes: map<string, Node>) {
    forall p, q :: p in nodes && q in Above(p) ==> q in nodes && nodes[q].Dir?
  }

  /** A directory tree as the file system holds it. */
  ghost predicate IsTree(t: Tree) {
    && InDirectories(t.nodes)
    && (forall p :: p in t.nodes ==> p != "" && p[|p|-1] != '/')
    && (forall p :: p in t.nodes && t.nodes[p].File? ==> t.nodes[p].inode in t.data)
    && (forall p :: p in t.nodes && t.nodes[p].Dir? ==> t.nodes[p].meta.Some?)
  }

  predicate SameFile(nodes: map<string, Node>, p: string, q: string) {
    p in nodes && q in nodes && nodes[p].File? && nodes[q].File? && nodes[p].inode == nodes[q].inode
  }

  // ---------- Headers ----------

  datatype Header = DirHeader(name: string, meta: string)
                  | RegularHeader(name: string, data: Data)
                  | SymLinkHeader(name: string, target: string, meta: string)
                  | HardLinkHeader(name: string, first: string)

  function TrimSlashes(p: string): string {
    if p != "" && p[|p|-1] == '/' then TrimSlashes(p[..|p|-1]) else p
  }

  predicate Local(p: string) { p != "" && Clean(p) && p != "." && !("/" <= p) && p != ".." && !("../" <= p) }

  /** The lexical walk of `path.Clean` from a list of components along further ones. */
  function Walk(from: seq<string>, parts: seq<string>): seq<string>
    decreases |parts|
  {
    if parts == [] then from
    else
      var next :=
        if parts[0] == "" || parts[0] == "." then from
        else if parts[0] == ".." && from != [] && from[|from|-1] != ".." then from[..|from|-1]
        else from + [parts[0]];
      Walk(next, parts[1..])
  }

  /** A link target, taken from the directory of the link, stays below the root. */
  predicate StaysInside(name: string, target: string) {
    var parts := Split(name, '/');
    var resolved := Walk(parts[..|parts|-1], Split(target, '/'));
    resolved != [] && resolved[0] != ".."
  }

  predicate NoNulOrBackslash(p: string) { '\0' !in p && '\\' !in p }

  /** `validateArchiveHeader`: the checked header, with the name of a directory trimmed. */
  function Checked(h: Header): Option<Header> {
    if h.name == "" || !NoNulOrBackslash(h.name) then None
    else
      var name := if h.DirHeader? then TrimSlashes(h.name) else h.name;
      if !Local(name) then None
      else match h
        case DirHeader(_, meta) => Some(DirHeader(name, meta))
        case RegularHeader(_, _) => Some(h)
        case SymLinkHeader(_, target, _) =>
          if target == "" || "/" <= target || !NoNulOrBackslash(target) || !StaysInside(name, target) then None else Some(h)
        case HardLinkHeader(_, first) => if Local(first) || first == "." then Some(h) else None
  }

  // ---------- Creation ----------

  function PathKey(p: string): Key { [p] }

  /** The first of the paths, up to position i, that names the same file. */
  function First(t: Tree, ps: seq<string>, i: nat): (j: nat)
    requires i < |ps|
    ensures j <= i && (forall k :: 0 <= k < j ==> !SameFile(t.nodes, ps[k], ps[i]))
    ensures j < i ==> SameFile(t.nodes, ps[j], ps[i])
  {
    FirstFrom(t, ps, i, 0)
  }

  function FirstFrom(t: Tree, ps: seq<string>, i: nat, k: nat): (j: nat)
    requires k <= i < |ps|
    ensures k <= j <= i && (forall x :: k <= x < j ==> !SameFile(t.nodes, ps[x], ps[i]))
    ensures j < i ==> SameFile(t.nodes, ps[j], ps[i])
    decreases i - k
  {
    if k == i || SameFile(t.nodes, ps[k], ps[i]) then k else FirstFrom(t, ps, i, k + 1)
  }

  function HeaderAt(t: Tree, ps: seq<string>, i: nat): Header
    requires i < |ps| && ps[i] in t.nodes
    requires t.nodes[ps[i]].File? ==> t.nodes[ps[i]].inode in t.data
    requires t.nodes[ps[i]].Dir? ==> t.nodes[ps[i]].meta.Some?
  {
    match t.nodes[ps[i]]
    case Dir(meta) => DirHeader(ps[i], meta.value)
    case SymLink(target, meta) => SymLinkHeader(ps[i], target, meta)
    case File(inode) =>
      var j := First(t, ps, i);
      if j < i then HardLinkHeader(ps[i], ps[j]) else RegularHeader(ps[i], t.data[inode])
  }

  /** The paths of the tree, in walk order and sorted. */
  ghost predicate Lists(t: Tree, ps: seq<string>) {
    Distinct(ps) && forall p :: p in ps <==> p in t.nodes
  }

  lemma SortedLists(t: Tree, paths: seq<string>)
    requires Lists(t, paths)
    ensures Lists(t, Sort(paths, PathKey)) && SortedBy(Sort(paths, PathKey), PathKey)
  {
    SortSorts(paths, PathKey);
    PermutationMembers(Sort(paths, PathKey), paths);
    PermutationDistinct(paths, Sort(paths, PathKey));
  }

  ghost predicate IsArchiveOf(t: Tree, ps: seq<string>, hs: seq<Header>)
    requires IsTree(t) && forall p :: p in ps ==> p in t.nodes
  {
    |hs| == |ps| && HeadersSoFar(t, ps, hs)
  }

  ghost predicate HeadersSoFar(t: Tree, ps: seq<string>, hs: seq<Header>)
    requires IsTree(t) && forall p :: p in ps ==> p in t.nodes
  {
    |hs| <= |ps| && forall i :: 0 <= i < |hs| ==> hs[i] == HeaderAt(t, ps, i)
  }

  lemma OneMoreHeader(t: Tree, ps: seq<string>, hs: seq<Header>, h: Header)
    requires IsTree(t) && (forall p :: p in ps ==> p in t.nodes) && HeadersSoFar(t, ps, hs)
    requires |hs| < |ps| && ps[|hs|] in t.nodes && h == HeaderAt(t, ps, |hs|)
    ensures HeadersSoFar(t, ps, hs + [h])
  {
  }

  /** The inode map: for each file with several links met so far, the first path. */
  ghost predicate InodesMet(t: Tree, ps: seq<string>, i: nat, inodes: map<nat, string>, several: nat -> bool) {
    && i <= |ps|
    && (forall n :: n in inodes ==> exists k :: 0 <= k < i && IsFirst(t, ps, k, n) && inodes[n] == ps[k])
    && (forall k :: 0 <= k < i && ps[k] in t.nodes && t.nodes[ps[k]].File? && several(t.nodes[ps[k]].inode) ==>
          t.nodes[ps[k]].inode in inodes)
  }

  ghost predicate IsFirst(t: Tree, ps: seq<string>, k: nat, n: nat)
    requires k < |ps|
  {
    ps[k] in t.nodes && t.nodes[ps[k]] == File(n) && forall x :: 0 <= x < k ==> !SameFile(t.nodes, ps[x], ps[k])
  }

  /** The link count of a file says whether it has several names; names outside the tree count too. */
  ghost predicate CountsLinks(t: Tree, several: nat -> bool) {
    forall p, q :: SameFile(t.nodes, p, q) && p != q ==> several(t.nodes[p].inode)
  }

  lemma FirstIsMet(t: Tree, ps: seq<string>, i: nat, inodes: map<nat, string>, several: nat -> bool)
    requires i < |ps| && InodesMet(t, ps, i, inodes, several) && CountsLinks(t, several) && Distinct(ps)
    requires ps[i] in t.nodes && t.nodes[ps[i]].File?
    ensures var n := t.nodes[ps[i]].inode;
      if several(n) && n in inodes then First(t, ps, i) < i && inodes[n] == ps[First(t, ps, i)] else First(t, ps, i) == i
  {
    var n, j := t.nodes[ps[i]].inode, First(t, ps, i);
    if several(n) && n in inodes {
      var k :| 0 <= k < i && IsFirst(t, ps, k, n) && inodes[n] == ps[k];
      assert SameFile(t.nodes, ps[k], ps[i]);
      assert j <= k;
      assert k <= j;
    }
  }

  lemma InodeMet(t: Tree, ps: seq<string>, i: nat, inodes: map<nat, string>, several: nat -> bool, inodes': map<nat, string>)
    requires i < |ps| && InodesMet(t, ps, i, inodes, several) && ps[i] in t.nodes
    requires if t.nodes[ps[i]].File? && several(t.nodes[ps[i]].inode) && t.nodes[ps[i]].inode !in inodes
             then inodes' == inodes[t.nodes[ps[i]].inode := ps[i]] && IsFirst(t, ps, i, t.nodes[ps[i]].inode)
             else inodes' == inodes
    ensures InodesMet(t, ps, i + 1, inodes', several)
  {
    forall n | n in inodes' ensures exists k :: 0 <= k < i + 1 && IsFirst(t, ps, k, n) && inodes'[n] == ps[k] {
      if n in inodes && inodes'[n] == inodes[n] {
        var k :| 0 <= k < i && IsFirst(t, ps, k, n) && inodes[n] == ps[k];
      } else {
        assert IsFirst(t, ps, i, n) && inodes'[n] == ps[i];
      }
    }
  }

  method MakeHeader(t: Tree, ps: seq<string>, i: nat, inodes: map<nat, string>, several: nat -> bool)
    returns (h: Header, inodes': map<nat, string>)
    requires IsTree(t) && i < |ps| && ps[i] in t.nodes && Distinct(ps) && CountsLinks(t, several)
    requires InodesMet(t, ps, i, inodes, several)
    ensures h == HeaderAt(t, ps, i) && InodesMet(t, ps, i + 1, inodes', several)
  {
    var p := ps[i];
    inodes' := inodes;
    match t.nodes[p] {
      case Dir(meta) => h := DirHeader(p, meta.value);
      case SymLink(target, meta) => h := SymLinkHeader(p, target, meta);
      case File(inode) =>
        FirstIsMet(t, ps, i, inodes, several);
        h := RegularHeader(p, t.data[inode]);
        if several(inode) {
          if inode in inodes {
            h := HardLinkHeader(p, inodes[inode]);
          } else {
            inodes' := inodes[inode := p];
          }
        }
    }
    InodeMet(t, ps, i, inodes, several, inodes');
  }

  /** The headers for the sorted paths: the first path of a file is archived with its contents, every
      further one as a hard link to the first. */
  method CreateHeaders(t: Tree, paths: seq<string>, several: nat -> bool) returns (hs: seq<Header>)
    requires IsTree(t) && Lists(t, paths) && CountsLinks(t, several)
    ensures Lists(t, Sort(paths, PathKey)) && IsArchiveOf(t, Sort(paths, PathKey), hs)
  {
    SortedLists(t, paths);
    var ps := Sort(paths, PathKey);
    var inodes: map<nat, string> := map[];
    hs := [];
    for i := 0 to |ps|
      invariant InodesMet(t, ps, i, inodes, several)
      invariant |hs| == i && HeadersSoFar(t, ps, hs)
    {
      assert ps[i] in ps;
      var h;
      h, inodes := MakeHeader(t, ps, i, inodes, several);
      OneMoreHeader(t, ps, hs, h);
      hs := hs + [h];
    }
  }

  // ---------- Extraction ----------

  datatype Extracted = Extracted(nodes: map<string, Node>, data: map<nat, Data>, next: nat)

  const EMPTY := Extracted(map[], map[], 0)

  predicate NoSymLinkParent(nodes: map<string, Node>, p: string) {
    forall q :: q in Above(p) && q in nodes ==> nodes[q].Dir?
  }

  /** `os.MkdirAll` of the directory of a path, where nothing but directories is in the way. */
  function MkdirAll(nodes: map<string, Node>, p: string): (r: map<string, Node>)
    ensures r.Keys == nodes.Keys + Above(p)
    ensures forall q :: q in r ==> r[q] == if q in nodes then nodes[q] else Dir(None)
  {
    map q | q in nodes.Keys + Above(p) :: if q in nodes then nodes[q] else Dir(None)
  }

  /** One header of the first pass; hard links are put off. */
  function Place(x: Extracted, h: Header): Option<Extracted> {
    if !NoSymLinkParent(x.nodes, h.name) then None
    else
      var nodes := MkdirAll(x.nodes, h.name);
      match h
      case DirHeader(name, _) => Some(x.(nodes := if name in nodes then nodes else nodes[name := Dir(None)]))
      case RegularHeader(name, data) =>
        if name in nodes then None
        else Some(Extracted(nodes[name := File(x.next)], x.data[x.next := data], x.next + 1))
      case SymLinkHeader(name, target, meta) =>
        if name in nodes then None else Some(x.(nodes := nodes[name := SymLink(target, meta)]))
      case HardLinkHeader(_, _) => Some(x)
  }

  function PlaceAll(x: Extracted, hs: seq<Header>): Option<Extracted> {
    if hs == [] then Some(x)
    else match PlaceAll(x, hs[..|hs|-1])
      case None => None
      case Some(y) => Place(y, hs[|hs|-1])
  }

  function LinkOne(x: Extracted, h: Header): Option<Extracted>
    requires h.HardLinkHeader?
  {
    if !NoSymLinkParent(x.nodes, h.name) || !NoSymLinkParent(x.nodes, h.first) then None
    else if h.first !in x.nodes || !x.nodes[h.first].File? then None
    else
      var nodes := MkdirAll(x.nodes, h.name);
      if h.name in nodes then None else Some(x.(nodes := nodes[h.name := x.nodes[h.first]]))
  }

  /** The second pass over the headers makes the hard links. */
  function LinkAll(x: Extracted, hs: seq<Header>): Option<Extracted> {
    if hs == [] then Some(x)
    else match LinkAll(x, hs[..|hs|-1])
      case None => None
      case Some(y) => if hs[|hs|-1].HardLinkHeader? then LinkOne(y, hs[|hs|-1]) else Some(y)
  }

  function RestoreDir(nodes: map<string, Node>, h: Header): map<string, Node> {
    if h.DirHeader? && h.name in nodes && nodes[h.name].Dir? then nodes[h.name := Dir(Some(h.meta))] else nodes
  }

  /** The third pass restores the metadata of directories, last one first. */
  function RestoreAll(nodes: map<string, Node>, hs: seq<Header>): map<string, Node> {
    if hs == [] then nodes else RestoreAll(RestoreDir(nodes, hs[|hs|-1]), hs[..|hs|-1])
  }

  predicate DistinctNames(hs: seq<Header>) { forall i, j :: 0 <= i < j < |hs| ==> hs[i].name != hs[j].name }

  function CheckedAll(hs: seq<Header>): Option<seq<Header>> {
    if hs == [] then Some([])
    else match CheckedAll(hs[..|hs|-1])
      case None => None
      case Some(before) => match Checked(hs[|hs|-1])
        case None => None
        case Some(h) => Some(before + [h])
  }

  function Extract(hs: seq<Header>): Option<Extracted> {
    match CheckedAll(hs)
    case None => None
    case Some(checked) =>
      if !DistinctNames(checked) then None
      else match PlaceAll(EMPTY, checked)
        case None => None
        case Some(x) => match LinkAll(x, checked)
          case None => None
          case Some(y) => Some(y.(nodes := RestoreAll(y.nodes, checked)))
  }

  lemma {:induction false} PlaceNone(x: Extracted, hs: seq<Header>, k: nat)
    requires k <= |hs| && PlaceAll(x, hs[..k]) == None
    ensures PlaceAll(x, hs) == None
    decreases |hs|
  {
    if k == |hs| {
      assert hs[..k] == hs;
    } else {
      assert hs[..|hs|-1][..k] == hs[..k];
      PlaceNone(x, hs[..|hs|-1], k);
    }
  }

  lemma {:induction false} LinkNone(x: Extracted, hs: seq<Header>, k: nat)
    requires k <= |hs| && LinkAll(x, hs[..k]) == None
    ensures LinkAll(x, hs) == None
    decreases |hs|
  {
    if k == |hs| {
      assert hs[..k] == hs;
    } else {
      assert hs[..|hs|-1][..k] == hs[..k];
      LinkNone(x, hs[..|hs|-1], k);
    }
  }

  lemma {:induction false} CheckedNone(hs: seq<Header>, k: nat)
    requires k <= |hs| && CheckedAll(hs[..k]) == None
    ensures CheckedAll(hs) == None
    decreases |hs|
  {
    if k == |hs| {
      assert hs[..k] == hs;
    } else {
      assert hs[..|hs|-1][..k] == hs[..k];
      CheckedNone(hs[..|hs|-1], k);
    }
  }

  function HardLinks(hs: seq<Header>): (r: seq<Header>)
    ensures forall h :: h in r ==> h.HardLinkHeader?
  {
    if hs == [] then [] else HardLinks(hs[..|hs|-1]) + (if hs[|hs|-1].HardLinkHeader? then [hs[|hs|-1]] else [])
  }

  function Directories(hs: seq<Header>): seq<Header> {
    if hs == [] then [] else Directories(hs[..|hs|-1]) + (if hs[|hs|-1].DirHeader? then [hs[|hs|-1]] else [])
  }

  /** Passing over the collected hard links, or over all headers, is the same. */
  lemma {:induction false} OnlyHardLinks(x: Extracted, hs: seq<Header>)
    ensures LinkAll(x, HardLinks(hs)) == LinkAll(x, hs)
    decreases |hs|
  {
    if hs != [] {
      var before, last, all := HardLinks(hs[..|hs|-1]), hs[|hs|-1], HardLinks(hs);
      OnlyHardLinks(x, hs[..|hs|-1]);
      if last.HardLinkHeader? {
        assert all[|all|-1] == last && all[..|all|-1] == before;
      } else {
        assert all == before;
      }
    }
  }

  lemma {:induction false} OnlyDirectories(nodes: map<string, Node>, hs: seq<Header>)
    ensures RestoreAll(nodes, Directories(hs)) == RestoreAll(nodes, hs)
    decreases |hs|
  {
    if hs != [] {
      var last, before := hs[|hs|-1], Directories(hs[..|hs|-1]);
      OnlyDirectories(RestoreDir(nodes, last), hs[..|hs|-1]);
      if last.DirHeader? {
        assert Directories(hs)[..|Directories(hs)|-1] == before;
      } else {
        assert Directories(hs) == before;
      }
    }
  }

  ghost predicate NamesSeen(checked: seq<Header>, seen: set<string>) {
    (forall n :: n in seen <==> exists k :: 0 <= k < |checked| && checked[k].name == n) && DistinctNames(checked)
  }

  lemma NameSeen(checked: seq<Header>, seen: set<string>, h: Header)
    requires NamesSeen(checked, seen) && h.name !in seen
    ensures NamesSeen(checked + [h], seen + {h.name})
  {
    var now := checked + [h];
    forall n ensures n in seen + {h.name} <==> exists k :: 0 <= k < |now| && now[k].name == n {
      if n in seen {
        var k :| 0 <= k < |checked| && checked[k].name == n;
        assert now[k].name == n;
      }
      if n == h.name { assert now[|checked|].name == n; }
      if k :| 0 <= k < |now| && now[k].name == n {
        assert k < |checked| ==> checked[k].name == n;
      }
    }
    forall i, j | 0 <= i < j < |now| ensures now[i].name != now[j].name {
      if j == |checked| { assert checked[i].name in seen; }
    }
  }

  lemma {:induction false} CheckedGrows(hs: seq<Header>, k: nat)
    requires k <= |hs| && CheckedAll(hs).Some?
    ensures CheckedAll(hs[..k]).Some? && CheckedAll(hs[..k]).value <= CheckedAll(hs).value && |CheckedAll(hs).value| == |hs|
    decreases |hs|
  {
    if k == |hs| {
      assert hs[..k] == hs;
      if hs != [] { CheckedGrows(hs[..|hs|-1], |hs| - 1); }
    } else {
      assert hs[..|hs|-1][..k] == hs[..k];
      CheckedGrows(hs[..|hs|-1], k);
    }
  }

  lemma Repeated(hs: seq<Header>, i: nat, seen: set<string>, h: Header)
    requires i < |hs| && CheckedAll(hs[..i]).Some? && CheckedAll(hs[..i + 1]) == Some(CheckedAll(hs[..i]).value + [h])
    requires NamesSeen(CheckedAll(hs[..i]).value, seen) && h.name in seen
    ensures CheckedAll(hs).Some? ==> !DistinctNames(CheckedAll(hs).value)
  {
    var before := CheckedAll(hs[..i]).value;
    if CheckedAll(hs).Some? {
      CheckedGrows(hs, i + 1);
      var all := CheckedAll(hs).value;
      var k :| 0 <= k < |before| && before[k].name == h.name;
      assert before + [h] <= all && (before + [h])[|before|] == h;
      assert all[k] == before[k] && all[|before|] == h;
    }
  }

  /** `InspectTarZst`: all headers are valid and no path repeats. */
  method InspectHeaders(hs: seq<Header>) returns (r: Option<seq<Header>>)
    ensures r.Some? <==> CheckedAll(hs).Some? && DistinctNames(CheckedAll(hs).value)
    ensures r.Some? ==> r == CheckedAll(hs)
  {
    var checked: seq<Header> := [];
    var seen: set<string> := {};
    for i := 0 to |hs|
      invariant CheckedAll(hs[..i]) == Some(checked) && NamesSeen(checked, seen)
    {
      assert hs[..i + 1][..i] == hs[..i];
      var h := Checked(hs[i]);
      if h.None? {
        CheckedNone(hs, i + 1);
        return None;
      }
      if h.value.name in seen {
        Repeated(hs, i, seen, h.value);
        return None;
      }
      NameSeen(checked, seen, h.value);
      checked := checked + [h.value];
      seen := seen + {h.value.name};
    }
    assert hs[..|hs|] == hs;
    return Some(checked);
  }

  method PlaceHeaders(hs: seq<Header>) returns (r: Option<Extracted>, hardlinks: seq<Header>, directories: seq<Header>)
    ensures r == PlaceAll(EMPTY, hs)
    ensures r.Some? ==> hardlinks == HardLinks(hs) && directories == Directories(hs)
  {
    var x := EMPTY;
    hardlinks, directories := [], [];
    for i := 0 to |hs|
      invariant PlaceAll(EMPTY, hs[..i]) == Some(x)
      invariant hardlinks == HardLinks(hs[..i]) && directories == Directories(hs[..i])
    {
      assert hs[..i + 1][..i] == hs[..i];
      var next := Place(x, hs[i]);
      if next.None? {
        PlaceNone(EMPTY, hs, i + 1);
        r := None;
        return;
      }
      x := next.value;
      if hs[i].HardLinkHeader? {
        hardlinks := hardlinks + [hs[i]];
      }
      if hs[i].DirHeader? {
        directories := directories + [hs[i]];
      }
    }
    assert hs[..|hs|] == hs;
    r := Some(x);
  }

  method LinkHeaders(start: Extracted, ls: seq<Header>) returns (r: Option<Extracted>)
    requires forall h :: h in ls ==> h.HardLinkHeader?
    ensures r == LinkAll(start, ls)
  {
    var x := start;
    for i := 0 to |ls|
      invariant LinkAll(start, ls[..i]) == Some(x)
    {
      assert ls[..i + 1][..i] == ls[..i];
      assert ls[i] in ls;
      var next := LinkOne(x, ls[i]);
      if next.None? {
        LinkNone(start, ls, i + 1);
        return None;
      }
      x := next.value;
    }
    assert ls[..|ls|] == ls;
    return Some(x);
  }

  method ExtractArchive(hs: seq<Header>) returns (r: Option<Extracted>)
    ensures r == Extract(hs)
  {
    var checked := InspectHeaders(hs);
    if checked.None? {
      return None;
    }
    var placed, hardlinks, directories := PlaceHeaders(checked.value);
    if placed.None? {
      return None;
    }
    OnlyHardLinks(placed.value, checked.value);
    var linked := LinkHeaders(placed.value, hardlinks);
    if linked.None? {
      return None;
    }
    var nodes := linked.value.nodes;
    OnlyDirectories(nodes, checked.value);
    var i := |directories|;
    assert directories[..i] == directories;
    while i > 0
      invariant 0 <= i <= |directories|
      invariant RestoreAll(nodes, directories[..i]) == RestoreAll(linked.value.nodes, checked.value)
    {
      assert directories[..i][..i - 1] == directories[..i - 1];
      nodes := RestoreDir(nodes, directories[i - 1]);
      i := i - 1;
    }
    return Some(linked.value.(nodes := nodes));
  }

  // ---------- Any archive: nothing is written through a symbolic link ----------

  lemma AboveAbove(p: string, q: string, r: string)
    requires q in Above(p) && r in Above(q)
    ensures r in Above(p)
  {
    var i :| 0 < i < |p| && p[i] == '/' && q == p[..i];
    var j :| 0 < j < |q| && q[j] == '/' && r == q[..j];
    assert p[..j] == r && p[j] == '/';
  }

  lemma MkdirAllKeeps(nodes: map<string, Node>, p: string)
    requires InDirectories(nodes) && NoSymLinkParent(nodes, p)
    ensures InDirectories(MkdirAll(nodes, p))
    ensures forall q :: q in Above(p) ==> q in MkdirAll(nodes, p) && MkdirAll(nodes, p)[q].Dir?
  {
    var after := MkdirAll(nodes, p);
    forall a, b | a in after && b in Above(a) ensures b in after && after[b].Dir? {
      if a !in nodes {
        AboveAbove(p, a, b);
      }
    }
  }

  /** A new name in an existing directory. */
  lemma AddKeeps(nodes: map<string, Node>, p: string, n: Node)
    requires InDirectories(nodes) && p !in nodes && forall q :: q in Above(p) ==> q in nodes && nodes[q].Dir?
    ensures InDirectories(nodes[p := n])
  {
    forall a, b | a in nodes[p := n] && b in Above(a) ensures b in nodes[p := n] && nodes[p := n][b].Dir? {
      if a != p { assert b in nodes; }
    }
  }

  lemma PlaceKeeps(x: Extracted, h: Header)
    requires InDirectories(x.nodes) && Place(x, h).Some?
    ensures InDirectories(Place(x, h).value.nodes)
  {
    MkdirAllKeeps(x.nodes, h.name);
    var nodes := MkdirAll(x.nodes, h.name);
    if h.name !in nodes {
      match h
      case DirHeader(_, _) => AddKeeps(nodes, h.name, Dir(None));
      case RegularHeader(_, _) => AddKeeps(nodes, h.name, File(x.next));
      case SymLinkHeader(_, target, meta) => AddKeeps(nodes, h.name, SymLink(target, meta));
      case HardLinkHeader(_, _) =>
    }
  }

  lemma LinkKeeps(x: Extracted, h: Header)
    requires h.HardLinkHeader? && InDirectories(x.nodes) && LinkOne(x, h).Some?
    ensures InDirectories(LinkOne(x, h).value.nodes)
  {
    MkdirAllKeeps(x.nodes, h.name);
    AddKeeps(MkdirAll(x.nodes, h.name), h.name, x.nodes[h.first]);
  }

  lemma {:induction false} PlaceAllKeeps(hs: seq<Header>)
    requires PlaceAll(EMPTY, hs).Some?
    ensures InDirectories(PlaceAll(EMPTY, hs).value.nodes)
    decreases |hs|
  {
    if hs != [] {
      PlaceAllKeeps(hs[..|hs|-1]);
      PlaceKeeps(PlaceAll(EMPTY, hs[..|hs|-1]).value, hs[|hs|-1]);
    }
  }

  lemma {:induction false} LinkAllKeeps(x: Extracted, hs: seq<Header>)
    requires InDirectories(x.nodes) && LinkAll(x, hs).Some?
    ensures InDirectories(LinkAll(x, hs).value.nodes)
    decreases |hs|
  {
    if hs != [] {
      LinkAllKeeps(x, hs[..|hs|-1]);
      if hs[|hs|-1].HardLinkHeader? {
        LinkKeeps(LinkAll(x, hs[..|hs|-1]).value, hs[|hs|-1]);
      }
    }
  }

  lemma {:induction false} RestoreKeeps(nodes: map<string, Node>, hs: seq<Header>)
    requires InDirectories(nodes)
    ensures InDirectories(RestoreAll(nodes, hs))
    decreases |hs|
  {
    if hs != [] {
      RestoreKeeps(RestoreDir(nodes, hs[|hs|-1]), hs[..|hs|-1]);
    }
  }

  /** Not absolute and not above the root. */
  predicate Inside(p: string) { !("/" <= p) && p != ".." && !("../" <= p) }

  lemma AboveInside(p: string, q: string)
    requires Inside(p) && q in Above(p)
    ensures Inside(q)
  {
    var i :| 0 < i < |p| && p[i] == '/' && q == p[..i];
    assert p[..i + 1] == q + "/";
  }

  ghost predicate AllInside(nodes: map<string, Node>) { forall p :: p in nodes ==> Inside(p) }

  lemma MkdirInside(nodes: map<string, Node>, p: string)
    requires AllInside(nodes) && Inside(p)
    ensures AllInside(MkdirAll(nodes, p))
  {
    forall q | q in Above(p) ensures Inside(q) {
      AboveInside(p, q);
    }
  }

  lemma {:induction false} PlacedInside(hs: seq<Header>)
    requires PlaceAll(EMPTY, hs).Some? && forall h :: h in hs ==> Inside(h.name)
    ensures AllInside(PlaceAll(EMPTY, hs).value.nodes)
    decreases |hs|
  {
    if hs != [] {
      PlacedInside(hs[..|hs|-1]);
      MkdirInside(PlaceAll(EMPTY, hs[..|hs|-1]).value.nodes, hs[|hs|-1].name);
    }
  }

  lemma {:induction false} LinkedInside(x: Extracted, hs: seq<Header>)
    requires AllInside(x.nodes) && LinkAll(x, hs).Some? && forall h :: h in hs ==> Inside(h.name)
    ensures AllInside(LinkAll(x, hs).value.nodes)
    decreases |hs|
  {
    if hs != [] {
      LinkedInside(x, hs[..|hs|-1]);
      MkdirInside(LinkAll(x, hs[..|hs|-1]).value.nodes, hs[|hs|-1].name);
    }
  }

  lemma {:induction false} RestoreNames(nodes: map<string, Node>, hs: seq<Header>)
    ensures RestoreAll(nodes, hs).Keys == nodes.Keys
    decreases |hs|
  {
    if hs != [] {
      RestoreNames(RestoreDir(nodes, hs[|hs|-1]), hs[..|hs|-1]);
    }
  }

  lemma {:induction false} CheckedInside(hs: seq<Header>)
    requires CheckedAll(hs).Some?
    ensures forall h :: h in CheckedAll(hs).value ==> Inside(h.name)
    decreases |hs|
  {
    if hs != [] {
      CheckedInside(hs[..|hs|-1]);
      assert Local(Checked(hs[|hs|-1]).value.name);
    }
  }

  /** Whatever an archive contains, all that its extraction creates lies below the root and in real
      directories: no name was ever created through a symbolic link or below a file. */
  lemma ExtractionStaysInside(hs: seq<Header>)
    requires Extract(hs).Some?
    ensures InDirectories(Extract(hs).value.nodes) && AllInside(Extract(hs).value.nodes)
  {
    var checked := CheckedAll(hs).value;
    var placed := PlaceAll(EMPTY, checked).value;
    PlaceAllKeeps(checked);
    LinkAllKeeps(placed, checked);
    RestoreKeeps(LinkAll(placed, checked).value.nodes, checked);
    CheckedInside(hs);
    PlacedInside(checked);
    LinkedInside(placed, checked);
    RestoreNames(LinkAll(placed, checked).value.nodes, checked);
  }

  // ---------- Round trip ----------

  lemma {:induction false} PrefixLess(q: string, p: string)
    requires q < p
    ensures StrLess(q, p)
    decreases |q|
  {
    if q != [] {
      PrefixLess(q[1..], p[1..]);
    }
  }

  /** In sorted order a directory comes before everything in it. */
  lemma ParentFirst(ps: seq<string>, i: nat, j: nat)
    requires SortedBy(ps, PathKey) && i < |ps| && j < |ps| && ps[j] in Above(ps[i])
    ensures j < i
  {
    var p, q := ps[i], ps[j];
    assert q < p;
    PrefixLess(q, p);
    assert KeyLess(PathKey(q), PathKey(p));
    KeyTrichotomy(PathKey(p), PathKey(p));
  }

  /** What extraction has made of a path before the metadata of directories is restored. */
  ghost predicate Like(t: Tree, x: Extracted, p: string)
    requires p in t.nodes && p in x.nodes
  {
    match t.nodes[p]
    case Dir(_) => x.nodes[p] == Dir(None)
    case SymLink(_, _) => x.nodes[p] == t.nodes[p]
    case File(n) =>
      x.nodes[p].File? && n in t.data && x.nodes[p].inode in x.data && x.data[x.nodes[p].inode] == t.data[n]
  }

  /** Exactly the given paths of the tree exist, like those of the tree and linked like them. */
  ghost predicate Copied(t: Tree, x: Extracted, done: set<string>) {
    && x.nodes.Keys == done <= t.nodes.Keys
    && (forall p :: p in done ==> Like(t, x, p))
    && (forall p, q :: p in done && q in done ==> (SameFile(x.nodes, p, q) <==> SameFile(t.nodes, p, q)))
    && (forall n :: n in x.data ==> n < x.next)
  }

  /** A path left out so far, whose directories are all there. */
  ghost predicate Ready(t: Tree, x: Extracted, done: set<string>, p: string) {
    p in t.nodes && p !in done && Above(p) <= done && forall q :: q in Above(p) ==> q in t.nodes && t.nodes[q].Dir?
  }

  lemma NothingInTheWay(t: Tree, x: Extracted, done: set<string>, p: string)
    requires Copied(t, x, done) && Ready(t, x, done, p)
    ensures NoSymLinkParent(x.nodes, p) && MkdirAll(x.nodes, p) == x.nodes
  {
    forall q | q in Above(p) ensures q in x.nodes && x.nodes[q] == Dir(None) {
      assert Like(t, x, q);
    }
    assert MkdirAll(x.nodes, p).Keys == x.nodes.Keys;
  }

  lemma CopyPlain(t: Tree, x: Extracted, done: set<string>, p: string, h: Header)
    requires Copied(t, x, done) && Ready(t, x, done, p) && !t.nodes[p].File?
    requires match t.nodes[p] case Dir(m) => m.Some? && h == DirHeader(p, m.value) case SymLink(to_, m) => h == SymLinkHeader(p, to_, m) case File(_) => false
    ensures Place(x, h).Some? && Copied(t, Place(x, h).value, done + {p})
  {
    NothingInTheWay(t, x, done, p);
    var y := Place(x, h).value;
    forall q | q in done + {p} ensures Like(t, y, q) {
      assert q != p ==> Like(t, x, q);
    }
  }

  lemma CopyFile(t: Tree, x: Extracted, done: set<string>, p: string)
    requires Copied(t, x, done) && Ready(t, x, done, p) && t.nodes[p].File? && t.nodes[p].inode in t.data
    requires forall q :: q in done ==> !SameFile(t.nodes, q, p)
    ensures var h := RegularHeader(p, t.data[t.nodes[p].inode]);
      Place(x, h).Some? && Copied(t, Place(x, h).value, done + {p})
  {
    NothingInTheWay(t, x, done, p);
    var y := Place(x, RegularHeader(p, t.data[t.nodes[p].inode])).value;
    forall q | q in done ensures Like(t, y, q) && !SameFile(y.nodes, q, p) && !SameFile(y.nodes, p, q) {
      assert Like(t, x, q);
    }
    assert Like(t, y, p);
    forall a, b | a in done + {p} && b in done + {p} ensures SameFile(y.nodes, a, b) <==> SameFile(t.nodes, a, b) {
      assert a in done && b in done ==> (SameFile(y.nodes, a, b) <==> SameFile(x.nodes, a, b));
    }
  }

  lemma CopyLink(t: Tree, x: Extracted, done: set<string>, first: string, p: string)
    requires Copied(t, x, done) && Ready(t, x, done, p) && first in done && SameFile(t.nodes, first, p)
    requires forall q :: q in Above(first) && q in t.nodes ==> t.nodes[q].Dir?
    ensures LinkOne(x, HardLinkHeader(p, first)).Some?
    ensures Copied(t, LinkOne(x, HardLinkHeader(p, first)).value, done + {p})
  {
    NothingInTheWay(t, x, done, p);
    assert Like(t, x, first);
    forall q | q in Above(first) && q in x.nodes ensures x.nodes[q].Dir? {
      assert Like(t, x, q);
    }
    var y := LinkOne(x, HardLinkHeader(p, first)).value;
    forall q | q in done + {p} ensures Like(t, y, q) {
      assert q != p ==> Like(t, x, q);
    }
    forall a, b | a in done + {p} && b in done + {p} ensures SameFile(y.nodes, a, b) <==> SameFile(t.nodes, a, b) {
      var a', b' := if a == p then first else a, if b == p then first else b;
      assert SameFile(x.nodes, a', b') <==> SameFile(t.nodes, a', b');
    }
  }

  /** A further path of a file that came earlier. */
  ghost predicate Deferred(t: Tree, ps: seq<string>, i: nat)
    requires i < |ps|
  {
    ps[i] in t.nodes && t.nodes[ps[i]].File? && First(t, ps, i) < i
  }

  ghost function Immediate(t: Tree, ps: seq<string>, k: nat): set<string>
    requires k <= |ps|
  {
    set i | 0 <= i < k && !Deferred(t, ps, i) :: ps[i]
  }

  ghost function UpTo(ps: seq<string>, k: nat): set<string>
    requires k <= |ps|
  {
    set i | 0 <= i < k :: ps[i]
  }

  /** A sorted listing of a tree. */
  ghost predicate Listed(t: Tree, ps: seq<string>) { IsTree(t) && Lists(t, ps) && SortedBy(ps, PathKey) }

  /** The directories above a path come before it and are never deferred. */
  lemma ParentsImmediate(t: Tree, ps: seq<string>, i: nat, k: nat)
    requires Listed(t, ps) && i < |ps| && i <= k <= |ps|
    ensures ps[i] in t.nodes && Above(ps[i]) <= Immediate(t, ps, k)
    ensures forall q :: q in Above(ps[i]) ==> q in t.nodes && t.nodes[q].Dir?
  {
    assert ps[i] in ps;
    forall q | q in Above(ps[i]) ensures q in Immediate(t, ps, k) {
      assert q in t.nodes && t.nodes[q].Dir?;
      assert q in ps;
      var j :| 0 <= j < |ps| && ps[j] == q;
      ParentFirst(ps, i, j);
      assert !Deferred(t, ps, j);
    }
  }

  lemma OneMoreImmediate(t: Tree, ps: seq<string>, k: nat)
    requires k < |ps| && Distinct(ps)
    ensures Immediate(t, ps, k + 1) == Immediate(t, ps, k) + if Deferred(t, ps, k) then {} else {ps[k]}
    ensures ps[k] !in Immediate(t, ps, k)
  {
  }

  lemma FirstIsNew(t: Tree, ps: seq<string>, k: nat)
    requires k < |ps| && ps[k] in t.nodes && t.nodes[ps[k]].File? && !Deferred(t, ps, k)
    ensures forall q :: q in Immediate(t, ps, k) ==> !SameFile(t.nodes, q, ps[k])
  {
  }

  lemma NextIsReady(t: Tree, ps: seq<string>, k: nat, x: Extracted)
    requires Listed(t, ps) && k < |ps| && ps[k] in t.nodes
    ensures Ready(t, x, Immediate(t, ps, k), ps[k])
    ensures Immediate(t, ps, k + 1) == Immediate(t, ps, k) + if Deferred(t, ps, k) then {} else {ps[k]}
  {
    OneMoreImmediate(t, ps, k);
    ParentsImmediate(t, ps, k, k);
  }

  /** A further path of a file waits for the second pass. */
  lemma PlaceDeferred(t: Tree, x: Extracted, done: set<string>, p: string, first: string)
    requires Copied(t, x, done) && Ready(t, x, done, p)
    ensures Place(x, HardLinkHeader(p, first)) == Some(x)
  {
    NothingInTheWay(t, x, done, p);
  }

  lemma PlaceFirst(t: Tree, ps: seq<string>, k: nat, x: Extracted)
    requires Listed(t, ps) && k < |ps| && ps[k] in t.nodes && Copied(t, x, Immediate(t, ps, k))
    requires t.nodes[ps[k]].File? && !Deferred(t, ps, k)
    ensures Place(x, HeaderAt(t, ps, k)).Some?
    ensures Copied(t, Place(x, HeaderAt(t, ps, k)).value, Immediate(t, ps, k) + {ps[k]})
  {
    NextIsReady(t, ps, k, x);
    FirstIsNew(t, ps, k);
    hide Copied, Ready, Immediate, Place, SameFile;
    CopyFile(t, x, Immediate(t, ps, k), ps[k]);
  }

  lemma PlaceOther(t: Tree, ps: seq<string>, k: nat, x: Extracted)
    requires Listed(t, ps) && k < |ps| && ps[k] in t.nodes && Copied(t, x, Immediate(t, ps, k))
    requires !t.nodes[ps[k]].File?
    ensures Place(x, HeaderAt(t, ps, k)).Some?
    ensures Copied(t, Place(x, HeaderAt(t, ps, k)).value, Immediate(t, ps, k) + {ps[k]})
  {
    NextIsReady(t, ps, k, x);
    hide Copied, Ready, Immediate, Place, SameFile;
    CopyPlain(t, x, Immediate(t, ps, k), ps[k], HeaderAt(t, ps, k));
  }

  lemma PlaceWaiting(t: Tree, ps: seq<string>, k: nat, x: Extracted)
    requires Listed(t, ps) && k < |ps| && ps[k] in t.nodes && Copied(t, x, Immediate(t, ps, k)) && Deferred(t, ps, k)
    ensures Place(x, HeaderAt(t, ps, k)) == Some(x)
  {
    NextIsReady(t, ps, k, x);
    hide Copied, Ready, Immediate, Place, SameFile;
    PlaceDeferred(t, x, Immediate(t, ps, k), ps[k], ps[First(t, ps, k)]);
  }

  lemma PlaceNext(t: Tree, ps: seq<string>, k: nat, x: Extracted)
    requires Listed(t, ps) && k < |ps| && ps[k] in t.nodes && Copied(t, x, Immediate(t, ps, k))
    ensures Place(x, HeaderAt(t, ps, k)).Some?
    ensures Copied(t, Place(x, HeaderAt(t, ps, k)).value, Immediate(t, ps, k + 1))
  {
    NextIsReady(t, ps, k, x);
    hide Copied, Ready, Immediate, Place, SameFile, Lists, First, Deferred, HeaderAt;
    if Deferred(t, ps, k) {
      assert Immediate(t, ps, k + 1) == Immediate(t, ps, k);
      PlaceWaiting(t, ps, k, x);
    } else if t.nodes[ps[k]].File? {
      PlaceFirst(t, ps, k, x);
    } else {
      PlaceOther(t, ps, k, x);
    }
  }

  /** After the first pass every path is there that is not a further path of a file. */
  lemma {:induction false} PlaceListed(t: Tree, ps: seq<string>, hs: seq<Header>, k: nat)
    requires Listed(t, ps) && IsArchiveOf(t, ps, hs) && k <= |hs|
    ensures PlaceAll(EMPTY, hs[..k]).Some? && Copied(t, PlaceAll(EMPTY, hs[..k]).value, Immediate(t, ps, k))
    decreases k
  {
    if k > 0 {
      PlaceListed(t, ps, hs, k - 1);
      assert hs[..k][..k - 1] == hs[..k - 1];
      assert ps[k - 1] in ps && hs[k - 1] == HeaderAt(t, ps, k - 1);
      hide Listed, IsArchiveOf, Copied;
      PlaceNext(t, ps, k - 1, PlaceAll(EMPTY, hs[..k - 1]).value);
    }
  }

  ghost function Linked(t: Tree, ps: seq<string>, k: nat): set<string>
    requires k <= |ps|
  {
    Immediate(t, ps, |ps|) + UpTo(ps, k)
  }

  lemma LinkNext(t: Tree, ps: seq<string>, k: nat, x: Extracted)
    requires Listed(t, ps) && k < |ps| && Deferred(t, ps, k) && Copied(t, x, Linked(t, ps, k))
    ensures var h := HardLinkHeader(ps[k], ps[First(t, ps, k)]);
      LinkOne(x, h).Some? && Copied(t, LinkOne(x, h).value, Linked(t, ps, k) + {ps[k]})
  {
    var j := First(t, ps, k);
    ParentsImmediate(t, ps, k, |ps|);
    ParentsImmediate(t, ps, j, |ps|);
    assert ps[j] in UpTo(ps, k);
    assert Ready(t, x, Linked(t, ps, k), ps[k]);
    CopyLink(t, x, Linked(t, ps, k), ps[j], ps[k]);
  }

  lemma OneMoreLinked(t: Tree, ps: seq<string>, k: nat)
    requires k < |ps|
    ensures Linked(t, ps, k + 1) == Linked(t, ps, k) + {ps[k]}
    ensures !Deferred(t, ps, k) ==> Linked(t, ps, k + 1) == Linked(t, ps, k)
  {
    assert UpTo(ps, k + 1) == UpTo(ps, k) + {ps[k]};
    assert !Deferred(t, ps, k) ==> ps[k] in Immediate(t, ps, |ps|);
  }

  lemma {:induction false} LinkListed(t: Tree, ps: seq<string>, hs: seq<Header>, x: Extracted, k: nat)
    requires Listed(t, ps) && IsArchiveOf(t, ps, hs) && k <= |hs| && Copied(t, x, Immediate(t, ps, |ps|))
    ensures LinkAll(x, hs[..k]).Some? && Copied(t, LinkAll(x, hs[..k]).value, Linked(t, ps, k))
    decreases k
  {
    hide Listed, IsArchiveOf, Copied;
    if k == 0 {
      assert Linked(t, ps, 0) == Immediate(t, ps, |ps|);
    } else {
      LinkListed(t, ps, hs, x, k - 1);
      assert hs[..k][..k - 1] == hs[..k - 1];
      LinkStep(t, ps, hs, LinkAll(x, hs[..k - 1]).value, k - 1);
    }
  }

  lemma LinkStep(t: Tree, ps: seq<string>, hs: seq<Header>, x: Extracted, k: nat)
    requires Listed(t, ps) && IsArchiveOf(t, ps, hs) && k < |hs| && Copied(t, x, Linked(t, ps, k))
    ensures hs[k].HardLinkHeader? ==> LinkOne(x, hs[k]).Some? && Copied(t, LinkOne(x, hs[k]).value, Linked(t, ps, k + 1))
    ensures !hs[k].HardLinkHeader? ==> Copied(t, x, Linked(t, ps, k + 1))
  {
    assert ps[k] in ps && hs[k] == HeaderAt(t, ps, k);
    assert hs[k].HardLinkHeader? <==> Deferred(t, ps, k);
    OneMoreLinked(t, ps, k);
    if Deferred(t, ps, k) {
      LinkNext(t, ps, k, x);
    }
  }

  // ---------- Metadata of directories ----------

  lemma {:induction false} RestoreOthers(nodes: map<string, Node>, hs: seq<Header>, p: string)
    requires p in nodes && forall h :: h in hs && h.DirHeader? ==> h.name != p
    ensures p in RestoreAll(nodes, hs) && RestoreAll(nodes, hs)[p] == nodes[p]
    decreases |hs|
  {
    if hs != [] {
      assert hs[|hs|-1] in hs;
      RestoreOthers(RestoreDir(nodes, hs[|hs|-1]), hs[..|hs|-1], p);
    }
  }

  lemma {:induction false} RestoreOwn(nodes: map<string, Node>, hs: seq<Header>, i: nat)
    requires i < |hs| && hs[i].DirHeader? && DistinctNames(hs) && hs[i].name in nodes && nodes[hs[i].name].Dir?
    ensures hs[i].name in RestoreAll(nodes, hs) && RestoreAll(nodes, hs)[hs[i].name] == Dir(Some(hs[i].meta))
    decreases |hs|
  {
    var before, after := hs[..|hs|-1], RestoreDir(nodes, hs[|hs|-1]);
    if i < |hs| - 1 {
      assert before[i] == hs[i];
      RestoreOwn(after, before, i);
    } else {
      RestoreOthers(after, before, hs[i].name);
    }
  }

  /** The extracted tree: same paths, same kinds, contents, link targets and metadata, and the same
      paths are hard links of each other. */
  ghost predicate SameTree(t: Tree, x: Extracted) {
    && x.nodes.Keys == t.nodes.Keys
    && (forall p :: p in t.nodes && !t.nodes[p].File? ==> x.nodes[p] == t.nodes[p])
    && (forall p :: p in t.nodes && t.nodes[p].File? ==>
          x.nodes[p].File? && t.nodes[p].inode in t.data && x.nodes[p].inode in x.data &&
          x.data[x.nodes[p].inode] == t.data[t.nodes[p].inode])
    && (forall p, q :: SameFile(x.nodes, p, q) <==> SameFile(t.nodes, p, q))
  }

  lemma HeaderNames(t: Tree, ps: seq<string>, hs: seq<Header>)
    requires IsTree(t) && Lists(t, ps) && IsArchiveOf(t, ps, hs)
    ensures DistinctNames(hs) && forall i :: 0 <= i < |hs| ==> hs[i].name == ps[i] && (hs[i].DirHeader? <==> t.nodes[ps[i]].Dir?)
  {
    forall i | 0 <= i < |hs| ensures hs[i].name == ps[i] && (hs[i].DirHeader? <==> t.nodes[ps[i]].Dir?) {
      assert ps[i] in ps && hs[i] == HeaderAt(t, ps, i);
    }
  }

  lemma RestoredPath(t: Tree, ps: seq<string>, hs: seq<Header>, x: Extracted, i: nat)
    requires IsTree(t) && Lists(t, ps) && IsArchiveOf(t, ps, hs) && i < |ps| && Copied(t, x, t.nodes.Keys)
    ensures ps[i] in t.nodes && ps[i] in RestoreAll(x.nodes, hs)
    ensures RestoreAll(x.nodes, hs)[ps[i]] == if t.nodes[ps[i]].Dir? then t.nodes[ps[i]] else x.nodes[ps[i]]
  {
    assert ps[i] in ps && Like(t, x, ps[i]) && hs[i] == HeaderAt(t, ps, i);
    HeaderNames(t, ps, hs);
    if t.nodes[ps[i]].Dir? {
      RestoreOwn(x.nodes, hs, i);
    } else {
      forall h | h in hs && h.DirHeader? ensures h.name != ps[i] {
        var j :| 0 <= j < |hs| && hs[j] == h;
      }
      RestoreOthers(x.nodes, hs, ps[i]);
    }
  }

  lemma RestoreListed(t: Tree, ps: seq<string>, hs: seq<Header>, x: Extracted)
    requires IsTree(t) && Lists(t, ps) && IsArchiveOf(t, ps, hs) && Copied(t, x, t.nodes.Keys)
    ensures SameTree(t, x.(nodes := RestoreAll(x.nodes, hs)))
  {
    var nodes := RestoreAll(x.nodes, hs);
    RestoreNames(x.nodes, hs);
    forall p | p in t.nodes ensures nodes[p] == if t.nodes[p].Dir? then t.nodes[p] else x.nodes[p] {
      assert p in ps;
      var i :| 0 <= i < |ps| && ps[i] == p;
      RestoredPath(t, ps, hs, x, i);
    }
    forall p | p in t.nodes ensures Like(t, x, p) {
    }
    forall p, q ensures SameFile(nodes, p, q) <==> SameFile(t.nodes, p, q) {
      if p in t.nodes && q in t.nodes {
        assert SameFile(x.nodes, p, q) <==> SameFile(t.nodes, p, q);
      }
    }
  }

  // ---------- Which trees survive ----------

  /** What the header check asks of the names and link targets of a tree. */
  ghost predicate Archivable(t: Tree) { forall p :: p in t.nodes ==> ArchivablePath(p, t.nodes[p]) }

  predicate ArchivablePath(p: string, n: Node) {
    && Local(p) && NoNulOrBackslash(p)
    && (n.SymLink? ==>
          n.target != "" && !("/" <= n.target) && NoNulOrBackslash(n.target) && StaysInside(p, n.target))
  }

  lemma {:induction false} AllChecked(hs: seq<Header>)
    requires forall h :: h in hs ==> Checked(h) == Some(h)
    ensures CheckedAll(hs) == Some(hs)
    decreases |hs|
  {
    if hs != [] {
      assert hs[|hs|-1] in hs && hs[..|hs|-1] + [hs[|hs|-1]] == hs;
      AllChecked(hs[..|hs|-1]);
    }
  }

  lemma {:induction false} EachChecked(hs: seq<Header>, i: nat)
    requires i < |hs| && CheckedAll(hs).Some?
    ensures Checked(hs[i]).Some?
    decreases |hs|
  {
    if i < |hs| - 1 {
      EachChecked(hs[..|hs|-1], i);
    }
  }

  lemma HeaderChecked(t: Tree, ps: seq<string>, i: nat)
    requires IsTree(t) && Lists(t, ps) && i < |ps| && ps[i] in t.nodes && Archivable(t)
    ensures Checked(HeaderAt(t, ps, i)) == Some(HeaderAt(t, ps, i))
  {
    assert ps[First(t, ps, i)] in ps;
  }

  lemma UncheckedPath(t: Tree, ps: seq<string>, i: nat)
    requires IsTree(t) && i < |ps| && ps[i] in t.nodes && Checked(HeaderAt(t, ps, i)).Some?
    ensures ArchivablePath(ps[i], t.nodes[ps[i]])
  {
  }

  lemma ArchivableExactly(t: Tree, ps: seq<string>, hs: seq<Header>)
    requires IsTree(t) && Lists(t, ps) && IsArchiveOf(t, ps, hs)
    ensures Archivable(t) ==> CheckedAll(hs) == Some(hs)
    ensures CheckedAll(hs).Some? ==> Archivable(t)
  {
    if Archivable(t) {
      forall h | h in hs ensures Checked(h) == Some(h) {
        var i :| 0 <= i < |hs| && hs[i] == h;
        assert ps[i] in ps && hs[i] == HeaderAt(t, ps, i);
        HeaderChecked(t, ps, i);
      }
      AllChecked(hs);
    } else if CheckedAll(hs).Some? {
      forall p | p in t.nodes ensures ArchivablePath(p, t.nodes[p]) {
        assert p in ps;
        var i :| 0 <= i < |ps| && ps[i] == p;
        assert hs[i] == HeaderAt(t, ps, i);
        EachChecked(hs, i);
        UncheckedPath(t, ps, i);
      }
    }
  }

  /** The archive of a tree can be extracted exactly if its names and link targets pass the header
      check, and extraction then gives the same tree, hard links included, although those are made
      after everything else. */
  lemma RoundTrip(t: Tree, ps: seq<string>, hs: seq<Header>)
    requires Listed(t, ps) && IsArchiveOf(t, ps, hs)
    ensures Extract(hs).Some? <==> Archivable(t)
    ensures Extract(hs).Some? ==> SameTree(t, Extract(hs).value)
  {
    hide IsTree, Lists, SortedBy, IsArchiveOf, Archivable, Copied, SameTree, PlaceAll, LinkAll;
    ArchivableExactly(t, ps, hs);
    if Archivable(t) {
      HeaderNames(t, ps, hs);
      var x := BothPasses(t, ps, hs);
      RestoreListed(t, ps, hs, x);
    }
  }

  lemma BothPasses(t: Tree, ps: seq<string>, hs: seq<Header>) returns (x: Extracted)
    requires Listed(t, ps) && IsArchiveOf(t, ps, hs)
    ensures PlaceAll(EMPTY, hs).Some? && LinkAll(PlaceAll(EMPTY, hs).value, hs) == Some(x)
    ensures Copied(t, x, t.nodes.Keys)
  {
    PlaceListed(t, ps, hs, |hs|);
    assert hs[..|hs|] == hs;
    LinkListed(t, ps, hs, PlaceAll(EMPTY, hs).value, |hs|);
    AllLinked(t, ps);
    x := LinkAll(PlaceAll(EMPTY, hs).value, hs).value;
  }

  lemma AllLinked(t: Tree, ps: seq<string>)
    requires Lists(t, ps)
    ensures Linked(t, ps, |ps|) == t.nodes.Keys
  {
    forall p | p in t.nodes ensures p in UpTo(ps, |ps|) {
      assert p in ps;
    }
    forall p | p in Linked(t, ps, |ps|) ensures p in t.nodes {
      assert p in ps;
    }
  }

  /** Creating an archive of a tree and extracting it into an empty directory. */
  method CreateAndExtract(t: Tree, paths: seq<string>, several: nat -> bool) returns (r: Option<Extracted>)
    requires IsTree(t) && Lists(t, paths) && CountsLinks(t, several)
    ensures r.Some? <==> Archivable(t)
    ensures r.Some? ==> SameTree(t, r.value)
  {
    var hs := CreateHeaders(t, paths, several);
    SortedLists(t, paths);
    RoundTrip(t, Sort(paths, PathKey), hs);
    r := ExtractArchive(hs);
  }
}
