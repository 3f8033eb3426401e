/** The string order of Go's `<` operator and sorting by a list of string keys, which is how
    every `sort.Slice` comparator in the modelled files compares. */
module Ordering {
  import opened Prelude

  predicate StrLess(a: string, b: string) {
    |b| > 0 && (|a| == 0 || a[0] < b[0] || (a[0] == b[0] && StrLess(a[1..], b[1..])))
  }

  lemma {:induction false} StrTrichotomy(a: string, b: string)
    ensures !StrLess(a, a)
    ensures StrLess(a, b) ==> !StrLess(b, a) && a != b
    ensures a == b || StrLess(a, b) || StrLess(b, a)
    decreases |a|
  {
    if a != [] {
      StrTrichotomy(a[1..], a[1..]);
      if b != [] && a[0] == b[0] {
        StrTrichotomy(a[1..], b[1..]);
        assert a == [a[0]] + a[1..] && b == [b[0]] + b[1..];
      }
    }
  }

  lemma {:induction false} StrTransitive(a: string, b: string, c: string)
    requires StrLess(a, b) && StrLess(b, c)
    ensures StrLess(a, c)
    decreases |b|
  {
    if a != [] && a[0] == b[0] == c[0] {
      StrTransitive(a[1..], b[1..], c[1..]);
    }
  }

  type Key = seq<string>

  /** Compare the first differing component, as the chained comparators do. */
  predicate KeyLess(a: Key, b: Key) {
    |b| > 0 && (|a| == 0 || StrLess(a[0], b[0]) || (a[0] == b[0] && KeyLess(a[1..], b[1..])))
  }

  lemma {:induction false} KeyTrichotomy(a: Key, b: Key)
    ensures !KeyLess(a, a)
    ensures KeyLess(a, b) ==> !KeyLess(b, a) && a != b
    ensures a == b || KeyLess(a, b) || KeyLess(b, a)
    decreases |a|
  {
    if a != [] {
      StrTrichotomy(a[0], a[0]);
      KeyTrichotomy(a[1..], a[1..]);
      if b != [] {
        StrTrichotomy(a[0], b[0]);
        if a[0] == b[0] {
          KeyTrichotomy(a[1..], b[1..]);
          assert a == [a[0]] + a[1..] && b == [b[0]] + b[1..];
        }
      }
    }
  }

  lemma {:induction false} KeyTransitive(a: Key, b: Key, c: Key)
    requires KeyLess(a, b) && KeyLess(b, c)
    ensures KeyLess(a, c)
    decreases |b|
  {
    if a != [] {
      StrTrichotomy(a[0], a[0]);
      if a[0] == b[0] == c[0] {
        KeyTransitive(a[1..], b[1..], c[1..]);
      } else if StrLess(a[0], b[0]) && StrLess(b[0], c[0]) {
        StrTransitive(a[0], b[0], c[0]);
      }
    }
  }

  predicate AtMost(a: Key, b: Key) { !KeyLess(b, a) }

  lemma AtMostTransitive(a: Key, b: Key, c: Key)
    requires AtMost(a, b) && AtMost(b, c)
    ensures AtMost(a, c)
  {
    KeyTrichotomy(a, b);
    KeyTrichotomy(b, c);
    KeyTrichotomy(a, c);
    if KeyLess(c, a) && KeyLess(a, b) {
      KeyTransitive(c, a, b);
    }
  }

  // ---------- Sorting ----------

  ghost predicate SortedBy<T>(xs: seq<T>, key: T -> Key) {
    forall i, j :: 0 <= i < j < |xs| ==> AtMost(key(xs[i]), key(xs[j]))
  }

  /** No two different elements compare equal, although the key may ignore fields. */
  ghost predicate KeyDetermines<T>(xs: seq<T>, key: T -> Key) {
    forall x, y :: x in xs && y in xs && key(x) == key(y) ==> x == y
  }

  function Insert<T>(x: T, ys: seq<T>, key: T -> Key): seq<T> {
    if ys == [] then [x]
    else if KeyLess(key(ys[0]), key(x)) then [ys[0]] + Insert(x, ys[1..], key)
    else [x] + ys
  }

  function Sort<T>(xs: seq<T>, key: T -> Key): seq<T> {
    if xs == [] then [] else Insert(xs[0], Sort(xs[1..], key), key)
  }

  lemma {:induction false} InsertSorted<T>(x: T, ys: seq<T>, key: T -> Key)
    requires SortedBy(ys, key)
    ensures multiset(Insert(x, ys, key)) == multiset([x]) + multiset(ys)
    ensures SortedBy(Insert(x, ys, key), key)
    decreases |ys|
  {
    var zs := Insert(x, ys, key);
    if ys == [] {
    } else if KeyLess(key(ys[0]), key(x)) {
      assert ys == [ys[0]] + ys[1..];
      InsertSorted(x, ys[1..], key);
      var rest := Insert(x, ys[1..], key);
      forall z | z in rest ensures AtMost(key(ys[0]), key(z)) {
        assert z in multiset(rest);
        KeyTrichotomy(key(ys[0]), key(x));
        if z != x {
          assert z in multiset(ys[1..]);
        }
      }
    } else {
      forall j | 0 < j < |zs| ensures AtMost(key(x), key(zs[j])) {
        AtMostTransitive(key(x), key(ys[0]), key(ys[j-1])) by {
          KeyTrichotomy(key(ys[0]), key(ys[0]));
        }
      }
    }
  }

  lemma {:induction false} SortSorts<T>(xs: seq<T>, key: T -> Key)
    ensures IsPermutation(Sort(xs, key), xs)
    ensures SortedBy(Sort(xs, key), key)
    decreases |xs|
  {
    if xs != [] {
      assert xs == [xs[0]] + xs[1..];
      SortSorts(xs[1..], key);
      InsertSorted(xs[0], Sort(xs[1..], key), key);
    }
  }

  lemma SortedHead<T>(xs: seq<T>, x: T, key: T -> Key)
    requires SortedBy(xs, key) && x in xs
    ensures AtMost(key(xs[0]), key(x))
  {
    KeyTrichotomy(key(x), key(x));
  }

  lemma PermutationTail<T>(xs: seq<T>, ys: seq<T>)
    requires IsPermutation(xs, ys) && xs != [] && ys != [] && xs[0] == ys[0]
    ensures IsPermutation(xs[1..], ys[1..])
  {
    assert xs == [xs[0]] + xs[1..] && ys == [ys[0]] + ys[1..];
    assert multiset(xs[1..]) == multiset(xs) - multiset{xs[0]};
    assert multiset(ys[1..]) == multiset(ys) - multiset{ys[0]};
  }

  /** Whatever sorting algorithm produced them, two sorted arrangements of the same elements
      are equal as soon as no two different elements compare equal. */
  lemma {:induction false} SortedUnique<T>(xs: seq<T>, ys: seq<T>, key: T -> Key)
    requires IsPermutation(xs, ys) && SortedBy(xs, key) && SortedBy(ys, key)
    requires KeyDetermines(xs, key)
    ensures xs == ys
    decreases |xs|
  {
    PermutationMembers(xs, ys);
    if xs != [] {
      assert xs[0] in ys && ys[0] in xs;
      SortedHead(xs, ys[0], key);
      SortedHead(ys, xs[0], key);
      KeyTrichotomy(key(xs[0]), key(ys[0]));
      PermutationTail(xs, ys);
      SortedUnique(xs[1..], ys[1..], key);
      assert xs == [xs[0]] + xs[1..] && ys == [ys[0]] + ys[1..];
    }
  }

  /** Sorting forgets the order of its input. */
  lemma SortOfPermutation<T>(xs: seq<T>, ys: seq<T>, key: T -> Key)
    requires IsPermutation(xs, ys) && KeyDetermines(xs, key)
    ensures Sort(xs, key) == Sort(ys, key)
  {
    SortSorts(xs, key);
    SortSorts(ys, key);
    PermutationMembers(Sort(xs, key), xs);
    assert KeyDetermines(Sort(xs, key), key);
    SortedUnique(Sort(xs, key), Sort(ys, key), key);
  }

  // ---------- The keys of a map ----------

  ghost predicate Ascending(s: seq<string>) { forall i, j :: 0 <= i < j < |s| ==> StrLess(s[i], s[j]) }

  ghost predicate Lists(s: seq<string>, keys: set<string>) { Ascending(s) && forall k :: k in s <==> k in keys }

  function StringKey(s: string): Key { [s] }

  lemma SortedIsAscending(s: seq<string>)
    requires Distinct(s)
    ensures Ascending(Sort(s, StringKey)) && forall k :: k in Sort(s, StringKey) <==> k in s
  {
    var t := Sort(s, StringKey);
    SortSorts(s, StringKey);
    PermutationMembers(t, s);
    PermutationDistinct(s, t);
    forall i, j | 0 <= i < j < |t| ensures StrLess(t[i], t[j]) {
      assert AtMost(StringKey(t[i]), StringKey(t[j]));
      StrTrichotomy(t[i], t[j]);
    }
  }

  lemma AscendingIsSorted(s: seq<string>)
    requires Ascending(s)
    ensures SortedBy(s, StringKey) && Distinct(s)
  {
    forall i, j | 0 <= i < j < |s| ensures AtMost(StringKey(s[i]), StringKey(s[j])) && s[i] != s[j] {
      StrTrichotomy(s[i], s[j]);
    }
  }

  /** A set is listed in ascending order in one way only. */
  lemma {:induction false} ListsUnique(s: seq<string>, t: seq<string>, keys: set<string>)
    requires Lists(s, keys) && Lists(t, keys)
    ensures s == t
    decreases |s|
  {
    assert s != [] ==> s[0] in s && s[0] in t;
    assert t != [] ==> t[0] in t && t[0] in s;
    if s != [] && t != [] {
      AscendingIsSorted(s);
      AscendingIsSorted(t);
      SortedHead(s, t[0], StringKey);
      SortedHead(t, s[0], StringKey);
      KeyTrichotomy(StringKey(s[0]), StringKey(t[0]));
      assert StringKey(s[0])[0] == StringKey(t[0])[0];
      TailLists(s, keys);
      TailLists(t, keys);
      ListsUnique(s[1..], t[1..], keys - {s[0]});
      assert s == [s[0]] + s[1..] && t == [t[0]] + t[1..];
    }
  }

  lemma TailLists(s: seq<string>, keys: set<string>)
    requires Lists(s, keys) && s != []
    ensures Lists(s[1..], keys - {s[0]})
  {
    AscendingIsSorted(s);
    forall k ensures k in s[1..] <==> k in keys - {s[0]} {
      if k in s[1..] {
        var i :| 0 <= i < |s[1..]| && s[1..][i] == k;
        assert s[i + 1] == k;
      }
    }
  }

  lemma {:induction false} SomeListing(keys: set<string>) returns (s: seq<string>)
    ensures Distinct(s) && forall k :: k in s <==> k in keys
    decreases |keys|
  {
    if keys == {} {
      s := [];
    } else {
      var k :| k in keys;
      var rest := SomeListing(keys - {k});
      s := [k] + rest;
    }
  }

  /** The keys in ascending order. */
  ghost function SortedKeys(keys: set<string>): (s: seq<string>)
    ensures Lists(s, keys)
  {
    assert exists s :: Lists(s, keys) by {
      var t := SomeListing(keys);
      SortedIsAscending(t);
      assert Lists(Sort(t, StringKey), keys);
    }
    var s :| Lists(s, keys);
    s
  }

  method ListKeys(keys: set<string>) returns (s: seq<string>)
    ensures s == SortedKeys(keys)
  {
    var todo: set<string>;
    s, todo := [], keys;
    while todo != {}
      invariant todo <= keys && Distinct(s) && forall k :: k in s <==> k in keys - todo
      decreases |todo|
    {
      var k :| k in todo;
      assert forall i :: 0 <= i < |s| ==> s[i] in s && s[i] != k;
      s, todo := s + [k], todo - {k};
    }
    SortedIsAscending(s);
    s := Sort(s, StringKey);
    ListsUnique(s, SortedKeys(keys), keys);
  }
}
