/** One digest over a set of files: their paths sorted by code unit, whatever order they were read in. */
module ContractDigest {

  /** `byCodeUnit` says less. */
  predicate Less(a: string, b: string) {
    b != [] && (a == [] || a[0] < b[0] || (a[0] == b[0] && Less(a[1..], b[1..])))
  }

  lemma {:induction false} LessIsTotal(a: string, b: string)
    ensures a == b || Less(a, b) || Less(b, a)
    ensures !(Less(a, b) && Less(b, a)) && !Less(a, a)
  {
    if a != [] && b != [] && a[0] == b[0] {
      LessIsTotal(a[1..], b[1..]);
      if a[1..] == b[1..] {
        assert a == [a[0]] + a[1..] && b == [b[0]] + b[1..];
      }
    }
    if a != [] {
      LessIsIrreflexive(a);
    }
  }

  lemma {:induction false} LessIsIrreflexive(a: string)
    ensures !Less(a, a)
  {
    if a != [] {
      LessIsIrreflexive(a[1..]);
    }
  }

  lemma {:induction false} LessIsTransitive(a: string, b: string, c: string)
    requires Less(a, b) && Less(b, c)
    ensures Less(a, c)
  {
    if a != [] && a[0] == b[0] && b[0] == c[0] {
      LessIsTransitive(a[1..], b[1..], c[1..]);
    }
  }

  predicate Sorted<T>(files: seq<(string, T)>) {
    forall i, j :: 0 <= i < j < |files| ==> Less(files[i].0, files[j].0)
  }

  /** The files of the map, each once. */
  predicate Lists<T(==)>(files: seq<(string, T)>, m: map<string, T>) {
    && (forall i :: 0 <= i < |files| ==> files[i].0 in m && m[files[i].0] == files[i].1)
    && (forall i, j :: 0 <= i < j < |files| ==> files[i].0 != files[j].0)
    && (forall p :: p in m ==> exists i :: 0 <= i < |files| && files[i].0 == p)
  }

  lemma ListsOneMore<T>(files: seq<(string, T)>, m: map<string, T>, p: string, c: T)
    requires Lists(files, m) && p !in m
    ensures Lists(files + [(p, c)], m[p := c])
  {
    var all, n := files + [(p, c)], m[p := c];
    assert forall i :: 0 <= i < |files| ==> all[i] == files[i] && files[i].0 in m;
    assert forall i :: 0 <= i < |all| ==> all[i].0 in n && n[all[i].0] == all[i].1;
    forall q | q in n
      ensures exists i :: 0 <= i < |all| && all[i].0 == q
    {
      if q == p {
        assert all[|files|].0 == q;
      } else {
        var i :| 0 <= i < |files| && files[i].0 == q;
        assert all[i].0 == q;
      }
    }
  }

  function Insert<T>(f: (string, T), sorted: seq<(string, T)>): seq<(string, T)> {
    if sorted == [] || !Less(sorted[0].0, f.0) then [f] + sorted else [sorted[0]] + Insert(f, sorted[1..])
  }

  function Sort<T>(files: seq<(string, T)>): seq<(string, T)> {
    if files == [] then [] else Insert(files[0], Sort(files[1..]))
  }

  lemma {:induction false} InsertKeeps<T>(f: (string, T), sorted: seq<(string, T)>)
    ensures multiset(Insert(f, sorted)) == multiset{f} + multiset(sorted)
  {
    if sorted != [] && Less(sorted[0].0, f.0) {
      InsertKeeps(f, sorted[1..]);
      assert sorted == [sorted[0]] + sorted[1..];
    }
  }

  lemma {:induction false} InsertSorts<T>(f: (string, T), sorted: seq<(string, T)>)
    requires Sorted(sorted) && forall i :: 0 <= i < |sorted| ==> sorted[i].0 != f.0
    ensures Sorted(Insert(f, sorted))
  {
    if sorted != [] && Less(sorted[0].0, f.0) {
      var rest := sorted[1..];
      assert Sorted(rest);
      InsertSorts(f, rest);
      InsertKeeps(f, rest);
      var all := Insert(f, rest);
      forall i | 0 <= i < |all|
        ensures Less(sorted[0].0, all[i].0)
      {
        assert all[i] in multiset(all);
        if all[i] != f {
          assert all[i] in rest;
        }
      }
    } else if sorted != [] {
      LessIsTotal(sorted[0].0, f.0);
      forall i | 0 <= i < |sorted|
        ensures Less(f.0, sorted[i].0)
      {
        if i > 0 {
          LessIsTransitive(f.0, sorted[0].0, sorted[i].0);
        }
      }
    }
  }

  predicate DistinctPaths<T>(files: seq<(string, T)>) {
    forall i, j :: 0 <= i < j < |files| ==> files[i].0 != files[j].0
  }

  lemma {:induction false} SortSorts<T>(files: seq<(string, T)>)
    requires DistinctPaths(files)
    ensures multiset(Sort(files)) == multiset(files) && Sorted(Sort(files))
  {
    if files != [] {
      var rest := files[1..];
      assert files == [files[0]] + rest;
      SortSorts(rest);
      InsertKeeps(files[0], Sort(rest));
      forall i | 0 <= i < |Sort(rest)|
        ensures Sort(rest)[i].0 != files[0].0
      {
        assert Sort(rest)[i] in multiset(Sort(rest));
        assert Sort(rest)[i] in rest;
      }
      InsertSorts(files[0], Sort(rest));
    }
  }

  lemma SortLists<T>(files: seq<(string, T)>, m: map<string, T>)
    requires Lists(files, m)
    ensures Lists(Sort(files), m) && Sorted(Sort(files))
  {
    SortSorts(files);
    var sorted := Sort(files);
    forall i | 0 <= i < |sorted|
      ensures sorted[i].0 in m && m[sorted[i].0] == sorted[i].1
    {
      assert sorted[i] in multiset(sorted);
      assert sorted[i] in files;
    }
    forall p | p in m
      ensures exists i :: 0 <= i < |sorted| && sorted[i].0 == p
    {
      var k :| 0 <= k < |files| && files[k].0 == p;
      assert files[k] in multiset(files);
      assert files[k] in sorted;
    }
    forall i, j | 0 <= i < j < |sorted|
      ensures sorted[i].0 != sorted[j].0
    {
      LessIsTotal(sorted[i].0, sorted[j].0);
    }
  }

  /** There is only one sorted list of the files. */
  lemma {:induction false} OneSortedList<T>(a: seq<(string, T)>, b: seq<(string, T)>, m: map<string, T>)
    requires Lists(a, m) && Lists(b, m) && Sorted(a) && Sorted(b)
    ensures a == b
    decreases |a|
  {
    if a == [] {
      if b != [] {
        NothingToList(b, m);
      }
    } else {
      SameHead(a, b, m);
      assert m - {a[0].0} == m - {b[0].0};
      ListsTail(a, m);
      ListsTail(b, m);
      OneSortedList(a[1..], b[1..], m - {a[0].0});
      HeadAndTail(a, b);
    }
  }

  lemma HeadAndTail<T>(a: seq<T>, b: seq<T>)
    requires a != [] && b != [] && a[0] == b[0] && a[1..] == b[1..]
    ensures a == b
  {
    assert a == [a[0]] + a[1..] && b == [b[0]] + b[1..];
  }

  lemma NothingToList<T>(b: seq<(string, T)>, m: map<string, T>)
    requires Lists([], m) && b != []
    ensures !Lists(b, m)
  {
    assert b[0].0 !in m;
  }

  lemma SameHead<T>(a: seq<(string, T)>, b: seq<(string, T)>, m: map<string, T>)
    requires Lists(a, m) && Lists(b, m) && Sorted(a) && Sorted(b) && a != []
    ensures b != [] && b[0] == a[0]
  {
    assert a[0].0 in m;
    var k :| 0 <= k < |b| && b[k].0 == a[0].0;
    assert b[0].0 in m;
    var i :| 0 <= i < |a| && a[i].0 == b[0].0;
    LessIsTotal(b[0].0, a[0].0);
  }

  lemma ListsTail<T>(a: seq<(string, T)>, m: map<string, T>)
    requires Lists(a, m) && Sorted(a) && a != []
    ensures Lists(a[1..], m - {a[0].0}) && Sorted(a[1..])
  {
    forall p | p in m - {a[0].0}
      ensures exists i :: 0 <= i < |a[1..]| && a[1..][i].0 == p
    {
      var i :| 0 <= i < |a| && a[i].0 == p;
      assert a[1..][i - 1].0 == p;
    }
  }

  /** The digest does not depend on the order the files come in. */
  lemma OrderDoesNotMatter<T>(a: seq<(string, T)>, b: seq<(string, T)>, m: map<string, T>)
    requires Lists(a, m) && Lists(b, m)
    ensures Sort(a) == Sort(b)
  {
    SortLists(a, m);
    SortLists(b, m);
    OneSortedList(Sort(a), Sort(b), m);
  }

  lemma OneMap<T>(files: seq<(string, T)>, m: map<string, T>, n: map<string, T>)
    requires Lists(files, m) && Lists(files, n)
    ensures m == n
  {
    forall p
      ensures p in m <==> p in n
      ensures p in m ==> m[p] == n[p]
    {
      if i :| 0 <= i < |files| && files[i].0 == p {
        assert m[p] == files[i].1 == n[p];
      }
    }
  }

  /** Different files are never sorted into the same list. */
  lemma DifferentFilesDiffer<T>(a: seq<(string, T)>, b: seq<(string, T)>, m: map<string, T>, n: map<string, T>)
    requires Lists(a, m) && Lists(b, n) && Sort(a) == Sort(b)
    ensures m == n
  {
    SortLists(a, m);
    SortLists(b, n);
    OneMap(Sort(a), m, n);
  }
}
