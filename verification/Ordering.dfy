/** Python's `sorted` on a key, and grouping by a key: what `checklist/source.py` and `eval/sampling.py`
    rely on. Keys are sequences of integers compared lexicographically, which covers integers, tuples of
    integers and strings. */
module Ordering {

  function Less(a: seq<int>, b: seq<int>): bool
    decreases |a|
  {
    if b == [] then false
    else if a == [] then true
    else a[0] < b[0] || (a[0] == b[0] && Less(a[1..], b[1..]))
  }

  lemma {:induction false} LessIsIrreflexive(a: seq<int>)
    ensures !Less(a, a)
    decreases |a|
  {
    if a != [] {
      LessIsIrreflexive(a[1..]);
    }
  }

  lemma {:induction false} LessIsTotal(a: seq<int>, b: seq<int>)
    ensures !(Less(a, b) && Less(b, a)) && (Less(a, b) || Less(b, a) || a == b)
    decreases |a|
  {
    if a != [] && b != [] {
      LessIsTotal(a[1..], b[1..]);
      assert a == [a[0]] + a[1..] && b == [b[0]] + b[1..];
    }
  }

  lemma {:induction false} LessIsTransitive(a: seq<int>, b: seq<int>, c: seq<int>)
    requires Less(a, b) && Less(b, c)
    ensures Less(a, c)
    decreases |a|
  {
    if a != [] && a[0] == b[0] == c[0] {
      LessIsTransitive(a[1..], b[1..], c[1..]);
    }
  }

  /** The code points of a string: Python compares strings by them. */
  function Points(s: string): seq<int> {
    seq(|s|, i requires 0 <= i < |s| => s[i] as int)
  }

  lemma PointsAreFaithful(s: string, t: string)
    requires Points(s) == Points(t)
    ensures s == t
  {
    assert |s| == |Points(s)| == |Points(t)| == |t|;
    forall i | 0 <= i < |s| ensures s[i] == t[i] {
      assert Points(s)[i] == s[i] as int && Points(t)[i] == t[i] as int;
    }
  }

  /** Stable: `x` goes before the first element that is not smaller. */
  function Insert<T>(x: T, s: seq<T>, key: T -> seq<int>): seq<T> {
    if s == [] then [x]
    else if Less(key(s[0]), key(x)) then [s[0]] + Insert(x, s[1..], key)
    else [x] + s
  }

  function Sorted<T>(s: seq<T>, key: T -> seq<int>): seq<T> {
    if s == [] then [] else Insert(s[0], Sorted(s[1..], key), key)
  }

  ghost predicate Ascending<T>(s: seq<T>, key: T -> seq<int>) {
    forall i, j :: 0 <= i < j < |s| ==> !Less(key(s[j]), key(s[i]))
  }

  ghost predicate StrictlyAscending<T>(s: seq<T>, key: T -> seq<int>) {
    forall i, j :: 0 <= i < j < |s| ==> Less(key(s[i]), key(s[j]))
  }

  ghost predicate DistinctKeys<T>(s: seq<T>, key: T -> seq<int>) {
    forall i, j :: 0 <= i < j < |s| ==> key(s[i]) != key(s[j])
  }

  lemma {:induction false} InsertPermutes<T>(x: T, s: seq<T>, key: T -> seq<int>)
    ensures multiset(Insert(x, s, key)) == multiset(s) + multiset{x}
  {
    if s != [] && Less(key(s[0]), key(x)) {
      InsertPermutes(x, s[1..], key);
      assert s == [s[0]] + s[1..];
    }
  }

  /** Nothing in the tail of an ascending sequence is below an element its head is not below. */
  lemma HeadIsLowest<T>(x: T, s: seq<T>, key: T -> seq<int>, j: nat)
    requires Ascending(s, key) && j < |s| && !Less(key(s[0]), key(x))
    ensures !Less(key(s[j]), key(x))
  {
    if j > 0 && Less(key(s[j]), key(x)) {
      LessIsTotal(key(s[0]), key(s[j]));
      if Less(key(s[0]), key(s[j])) {
        LessIsTransitive(key(s[0]), key(s[j]), key(x));
      }
    }
  }

  lemma {:induction false} InsertKeepsOrder<T>(x: T, s: seq<T>, key: T -> seq<int>)
    requires Ascending(s, key)
    ensures Ascending(Insert(x, s, key), key)
  {
    if s == [] {
    } else if Less(key(s[0]), key(x)) {
      InsertKeepsOrder(x, s[1..], key);
      var rest := Insert(x, s[1..], key);
      InsertPermutes(x, s[1..], key);
      forall j | 0 <= j < |rest| ensures !Less(key(rest[j]), key(s[0])) {
        assert rest[j] in multiset(rest);
        assert rest[j] == x || rest[j] in s[1..];
        LessIsTotal(key(s[0]), key(x));
      }
    } else {
      forall j | 0 <= j < |s| ensures !Less(key(s[j]), key(x)) {
        HeadIsLowest(x, s, key, j);
      }
    }
  }

  /** Sorting permutes and orders. */
  lemma {:induction false} SortedSorts<T>(s: seq<T>, key: T -> seq<int>)
    ensures multiset(Sorted(s, key)) == multiset(s)
    ensures Ascending(Sorted(s, key), key)
    ensures |Sorted(s, key)| == |s|
  {
    if s != [] {
      SortedSorts(s[1..], key);
      InsertPermutes(s[0], Sorted(s[1..], key), key);
      InsertKeepsOrder(s[0], Sorted(s[1..], key), key);
      assert s == [s[0]] + s[1..];
    }
    assert |Sorted(s, key)| == |multiset(Sorted(s, key))| == |multiset(s)| == |s|;
  }

  /** The elements of one key, in the order they stand. */
  function WithKey<T>(s: seq<T>, key: T -> seq<int>, k: seq<int>): seq<T> {
    if s == [] then [] else (if key(s[0]) == k then [s[0]] else []) + WithKey(s[1..], key, k)
  }

  lemma WithKeyCons<T>(x: T, s: seq<T>, key: T -> seq<int>, k: seq<int>)
    ensures WithKey([x] + s, key, k) == (if key(x) == k then [x] else []) + WithKey(s, key, k)
  {
    assert ([x] + s)[1..] == s;
  }

  lemma {:induction false} InsertIsStable<T>(x: T, s: seq<T>, key: T -> seq<int>, k: seq<int>)
    ensures WithKey(Insert(x, s, key), key, k) == (if key(x) == k then [x] else []) + WithKey(s, key, k)
  {
    WithKeyCons(x, s, key, k);
    if s == [] {
      assert [x] + s == [x];
    } else if Less(key(s[0]), key(x)) {
      LessIsIrreflexive(key(x));
      InsertIsStable(x, s[1..], key, k);
      WithKeyCons(s[0], Insert(x, s[1..], key), key, k);
    }
  }

  /** Elements of one key keep the order they came in. */
  lemma {:induction false} SortIsStable<T>(s: seq<T>, key: T -> seq<int>, k: seq<int>)
    ensures WithKey(Sorted(s, key), key, k) == WithKey(s, key, k)
  {
    if s != [] {
      SortIsStable(s[1..], key, k);
      InsertIsStable(s[0], Sorted(s[1..], key), key, k);
    }
  }

  lemma HeadIsNotInTail<T>(s: seq<T>, key: T -> seq<int>)
    requires s != [] && StrictlyAscending(s, key)
    ensures s[0] !in s[1..]
  {
    LessIsIrreflexive(key(s[0]));
  }

  /** Two strictly ascending sequences of the same elements are the same sequence. */
  lemma {:induction false} StrictOrderIsUnique<T>(s: seq<T>, t: seq<T>, key: T -> seq<int>)
    requires StrictlyAscending(s, key) && StrictlyAscending(t, key)
    requires forall x :: x in s <==> x in t
    ensures s == t
    decreases |s|
  {
    assert t != [] ==> t[0] in t;
    if s != [] {
      assert s[0] in t && t[0] in s;
      if s[0] != t[0] {
        var i :| 0 <= i < |t| && t[i] == s[0];
        var j :| 0 <= j < |s| && s[j] == t[0];
        LessIsTotal(key(s[0]), key(t[0]));
      }
      assert s == [s[0]] + s[1..] && t == [t[0]] + t[1..];
      HeadIsNotInTail(s, key);
      HeadIsNotInTail(t, key);
      forall x ensures x in s[1..] <==> x in t[1..] {
        assert x in s <==> x == s[0] || x in s[1..];
        assert x in t <==> x == t[0] || x in t[1..];
      }
      StrictOrderIsUnique(s[1..], t[1..], key);
    }
  }

  lemma SameHead<T>(s: seq<T>, t: seq<T>, key: T -> seq<int>)
    requires StrictlyAscending(s, key) && Ascending(t, key) && s != [] && t != []
    requires t[0] in s && s[0] in t
    ensures s[0] == t[0]
  {
    var i :| 0 <= i < |s| && s[i] == t[0];
    var j :| 0 <= j < |t| && t[j] == s[0];
    if i != 0 {
      assert Less(key(s[0]), key(t[0]));
      LessIsIrreflexive(key(s[0]));
      assert j == 0 || !Less(key(t[j]), key(t[0]));
    }
  }

  lemma TailsMatch<T>(s: seq<T>, t: seq<T>)
    requires s != [] && t != [] && s[0] == t[0] && multiset(s) == multiset(t)
    ensures multiset(s[1..]) == multiset(t[1..])
  {
    assert s == [s[0]] + s[1..] && t == [t[0]] + t[1..];
    assert multiset(s[1..]) == multiset(s) - multiset{s[0]};
    assert multiset(t[1..]) == multiset(t) - multiset{t[0]};
  }

  /** An ascending arrangement of what has a strict one is that one. */
  lemma {:induction false} AscendingIsUnique<T>(s: seq<T>, t: seq<T>, key: T -> seq<int>)
    requires StrictlyAscending(s, key) && Ascending(t, key) && multiset(s) == multiset(t)
    ensures s == t
    decreases |s|
  {
    assert |s| == |multiset(s)| == |multiset(t)| == |t|;
    if s != [] {
      assert t[0] in multiset(s) && s[0] in multiset(t);
      SameHead(s, t, key);
      TailsMatch(s, t);
      AscendingIsUnique(s[1..], t[1..], key);
      assert s == [s[0]] + s[1..] && t == [t[0]] + t[1..];
    }
  }

  lemma {:induction false} InsertKeepsStrict<T>(x: T, s: seq<T>, key: T -> seq<int>)
    requires StrictlyAscending(s, key) && forall i :: 0 <= i < |s| ==> key(s[i]) != key(x)
    ensures StrictlyAscending(Insert(x, s, key), key)
    ensures forall i :: 0 <= i < |Insert(x, s, key)| ==> Insert(x, s, key)[i] == x || Insert(x, s, key)[i] in s
  {
    if s != [] {
      if Less(key(s[0]), key(x)) {
        InsertKeepsStrict(x, s[1..], key);
        var rest := Insert(x, s[1..], key);
        forall j | 0 <= j < |rest| ensures Less(key(s[0]), key(rest[j])) {
          if rest[j] != x {
            var i :| 0 <= i < |s[1..]| && s[1..][i] == rest[j];
            assert s[1 + i] == rest[j];
          }
        }
      } else {
        LessIsTotal(key(s[0]), key(x));
        forall j | 0 <= j < |s| ensures Less(key(x), key(s[j])) {
          if j > 0 {
            LessIsTransitive(key(x), key(s[0]), key(s[j]));
          }
        }
      }
    }
  }

  lemma {:induction false} SortedIsStrict<T>(s: seq<T>, key: T -> seq<int>)
    requires DistinctKeys(s, key)
    ensures StrictlyAscending(Sorted(s, key), key)
  {
    if s != [] {
      SortedIsStrict(s[1..], key);
      SortedSorts(s[1..], key);
      var rest := Sorted(s[1..], key);
      forall i | 0 <= i < |rest| ensures key(rest[i]) != key(s[0]) {
        assert rest[i] in multiset(rest);
        assert rest[i] in s[1..];
        var j :| 0 <= j < |s[1..]| && s[1..][j] == rest[i];
        assert s[1 + j] == rest[i];
      }
      InsertKeepsStrict(s[0], rest, key);
    }
  }

  /** With distinct keys the result does not depend on the order the elements came in. */
  lemma SortForgetsOrder<T>(s: seq<T>, t: seq<T>, key: T -> seq<int>)
    requires multiset(s) == multiset(t) && DistinctKeys(s, key) && DistinctKeys(t, key)
    ensures Sorted(s, key) == Sorted(t, key)
  {
    SortedSorts(s, key);
    SortedSorts(t, key);
    SortedIsStrict(s, key);
    SortedIsStrict(t, key);
    forall x ensures x in Sorted(s, key) <==> x in Sorted(t, key) {
      assert x in Sorted(s, key) <==> x in multiset(Sorted(s, key));
      assert x in Sorted(t, key) <==> x in multiset(Sorted(t, key));
    }
    StrictOrderIsUnique(Sorted(s, key), Sorted(t, key), key);
  }

  /** The elements whose key is `v`, in the order they came. */
  function Having<T>(s: seq<T>, of: T -> string, v: string): seq<T> {
    if s == [] then []
    else if of(s[0]) == v then [s[0]] + Having(s[1..], of, v)
    else Having(s[1..], of, v)
  }

  lemma {:induction false} HavingSnoc<T>(s: seq<T>, x: T, of: T -> string, v: string)
    ensures Having(s + [x], of, v) == Having(s, of, v) + (if of(x) == v then [x] else [])
  {
    if s == [] {
      assert s + [x] == [x] && [x][1..] == [];
    } else {
      assert (s + [x])[1..] == s[1..] + [x];
      HavingSnoc(s[1..], x, of, v);
    }
  }

  lemma {:induction false} HavingCounts<T>(s: seq<T>, of: T -> string, v: string, x: T)
    ensures multiset(Having(s, of, v))[x] == if of(x) == v then multiset(s)[x] else 0
  {
    if s != [] {
      assert s == [s[0]] + s[1..];
      HavingCounts(s[1..], of, v, x);
    }
  }

  lemma HavingSelects<T>(s: seq<T>, of: T -> string, v: string, x: T)
    ensures x in Having(s, of, v) <==> x in s && of(x) == v
  {
    HavingCounts(s, of, v, x);
    assert x in Having(s, of, v) <==> x in multiset(Having(s, of, v));
    assert x in s <==> x in multiset(s);
  }

  lemma HavingPermutes<T(!new)>(s: seq<T>, t: seq<T>, of: T -> string, v: string)
    requires multiset(s) == multiset(t)
    ensures multiset(Having(s, of, v)) == multiset(Having(t, of, v))
  {
    forall x ensures multiset(Having(s, of, v))[x] == multiset(Having(t, of, v))[x] {
      HavingCounts(s, of, v, x);
      HavingCounts(t, of, v, x);
    }
  }

  lemma {:induction false} HavingKeepsDistinct<T>(s: seq<T>, of: T -> string, v: string, key: T -> seq<int>)
    requires forall i, j :: 0 <= i < j < |s| && of(s[i]) == of(s[j]) ==> key(s[i]) != key(s[j])
    ensures DistinctKeys(Having(s, of, v), key)
  {
    if s != [] {
      HavingKeepsDistinct(s[1..], of, v, key);
      var rest := Having(s[1..], of, v);
      if of(s[0]) == v {
        forall j | 0 <= j < |rest| ensures key(rest[j]) != key(s[0]) {
          assert rest[j] in rest;
          HavingSelects(s[1..], of, v, rest[j]);
          var i :| 0 <= i < |s[1..]| && s[1..][i] == rest[j];
          assert s[1 + i] == rest[j];
        }
      }
    }
  }

  /** The distinct values of a key, in the order they first appear: a dict's keys. */
  function FirstSeen<T>(s: seq<T>, of: T -> string): seq<string> {
    if s == [] then []
    else
      var before := FirstSeen(s[..|s| - 1], of);
      var v := of(s[|s| - 1]);
      if v in before then before else before + [v]
  }

  lemma {:induction false} FirstSeenIsDistinct<T>(s: seq<T>, of: T -> string)
    ensures forall i, j :: 0 <= i < j < |FirstSeen(s, of)| ==> FirstSeen(s, of)[i] != FirstSeen(s, of)[j]
    decreases |s|
  {
    if s != [] {
      FirstSeenIsDistinct(s[..|s| - 1], of);
    }
  }

  lemma {:induction false} FirstSeenHasNames<T(!new)>(s: seq<T>, of: T -> string, v: string)
    ensures v in FirstSeen(s, of) <==> exists x :: x in s && of(x) == v
    decreases |s|
  {
    if s != [] {
      var last := s[|s| - 1];
      FirstSeenHasNames(s[..|s| - 1], of, v);
      assert s == s[..|s| - 1] + [last];
      assert last in s;
    }
  }

  lemma SortedHasSameElements<T>(s: seq<T>, key: T -> seq<int>, x: T)
    ensures x in Sorted(s, key) <==> x in s
  {
    SortedSorts(s, key);
    assert x in Sorted(s, key) <==> x in multiset(Sorted(s, key));
    assert x in s <==> x in multiset(s);
  }

  lemma SameNamesSortTheSame(a: seq<string>, b: seq<string>)
    requires forall i, j :: 0 <= i < j < |a| ==> a[i] != a[j]
    requires forall i, j :: 0 <= i < j < |b| ==> b[i] != b[j]
    requires forall v :: v in a <==> v in b
    ensures Sorted(a, Points) == Sorted(b, Points)
  {
    NamesAreDistinctKeys(a);
    NamesAreDistinctKeys(b);
    SortedIsStrict(a, Points);
    SortedIsStrict(b, Points);
    forall v ensures v in Sorted(a, Points) <==> v in Sorted(b, Points) {
      SortedHasSameElements(a, Points, v);
      SortedHasSameElements(b, Points, v);
    }
    StrictOrderIsUnique(Sorted(a, Points), Sorted(b, Points), Points);
  }

  /** Grouping and then sorting the groups' names forgets the order too. */
  lemma NamesForgetOrder<T(!new)>(s: seq<T>, t: seq<T>, of: T -> string)
    requires multiset(s) == multiset(t)
    ensures Sorted(FirstSeen(s, of), Points) == Sorted(FirstSeen(t, of), Points)
  {
    assert forall x :: x in s <==> x in t by {
      forall x ensures x in s <==> x in t {
        assert x in s <==> x in multiset(s);
        assert x in t <==> x in multiset(t);
      }
    }
    FirstSeenIsDistinct(s, of);
    FirstSeenIsDistinct(t, of);
    forall v ensures v in FirstSeen(s, of) <==> v in FirstSeen(t, of) {
      FirstSeenHasNames(s, of, v);
      FirstSeenHasNames(t, of, v);
    }
    SameNamesSortTheSame(FirstSeen(s, of), FirstSeen(t, of));
  }

  lemma NamesAreDistinctKeys(names: seq<string>)
    requires forall i, j :: 0 <= i < j < |names| ==> names[i] != names[j]
    ensures DistinctKeys(names, Points)
  {
    forall i, j | 0 <= i < j < |names| ensures Points(names[i]) != Points(names[j]) {
      if Points(names[i]) == Points(names[j]) {
        PointsAreFaithful(names[i], names[j]);
      }
    }
  }

  /** A dict from key to the elements having it, and its keys in insertion order. */
  ghost predicate GroupedBy<T>(s: seq<T>, of: T -> string, grouped: map<string, seq<T>>, order: seq<string>) {
    && order == FirstSeen(s, of)
    && (forall v :: v in grouped <==> v in order)
    && forall v :: v in grouped ==> grouped[v] == Having(s, of, v)
  }

  lemma NewKeyIsEmpty<T(!new)>(s: seq<T>, of: T -> string, v: string)
    requires v !in FirstSeen(s, of)
    ensures Having(s, of, v) == []
  {
    FirstSeenHasNames(s, of, v);
    forall x ensures multiset(Having(s, of, v))[x] == 0 {
      HavingCounts(s, of, v, x);
    }
    assert |Having(s, of, v)| == |multiset(Having(s, of, v))|;
  }

  lemma AppendKeepsGroups<T(!new)>(s: seq<T>, x: T, of: T -> string, grouped: map<string, seq<T>>, order: seq<string>)
    requires GroupedBy(s, of, grouped, order)
    ensures of(x) in grouped ==> GroupedBy(s + [x], of, grouped[of(x) := grouped[of(x)] + [x]], order)
    ensures of(x) !in grouped ==> GroupedBy(s + [x], of, grouped[of(x) := [x]], order + [of(x)])
  {
    var all := s + [x];
    assert all[..|all| - 1] == s;
    assert FirstSeen(all, of) == if of(x) in order then order else order + [of(x)];
    forall v ensures Having(all, of, v) == Having(s, of, v) + (if of(x) == v then [x] else []) {
      HavingSnoc(s, x, of, v);
    }
    if of(x) !in grouped {
      NewKeyIsEmpty(s, of, of(x));
    }
  }

  /** The grouping loop of both modules. */
  method Group<T(!new)>(s: seq<T>, of: T -> string) returns (grouped: map<string, seq<T>>, order: seq<string>)
    ensures GroupedBy(s, of, grouped, order)
  {
    grouped, order := map[], [];
    for i := 0 to |s|
      invariant GroupedBy(s[..i], of, grouped, order)
    {
      var v := of(s[i]);
      assert s[..i + 1] == s[..i] + [s[i]];
      AppendKeepsGroups(s[..i], s[i], of, grouped, order);
      if v !in grouped {
        grouped := grouped[v := [s[i]]];
        order := order + [v];
      } else {
        grouped := grouped[v := grouped[v] + [s[i]]];
      }
    }
    assert s[..|s|] == s;
  }

  /** `sorted(d[key])` for each key of a list: a dict comprehension. */
  method SortEach<T(!new)>(grouped: map<string, seq<T>>, names: seq<string>, key: T -> seq<int>)
      returns (sorted: map<string, seq<T>>)
    requires forall v :: v in names ==> v in grouped
    ensures forall v :: v in names ==> v in sorted && sorted[v] == Sorted(grouped[v], key)
  {
    sorted := map[];
    for i := 0 to |names|
      invariant forall j :: 0 <= j < i ==> names[j] in sorted && sorted[names[j]] == Sorted(grouped[names[j]], key)
    {
      sorted := sorted[names[i] := Sorted(grouped[names[i]], key)];
    }
  }
}
