/** A stable sort by a total preorder, as a function. */
module Sorting {
  ghost predicate TotalPreorder<T(!new)>(le: (T, T) -> bool) {
    && (forall a, b :: le(a, b) || le(b, a))
    && (forall a, b, c :: le(a, b) && le(b, c) ==> le(a, c))
  }

  ghost predicate SortedBy<T>(le: (T, T) -> bool, s: seq<T>) {
    forall i, j :: 0 <= i < j < |s| ==> le(s[i], s[j])
  }

  function Insert<T>(le: (T, T) -> bool, x: T, s: seq<T>): seq<T> {
    if s == [] || le(x, s[0]) then [x] + s else [s[0]] + Insert(le, x, s[1..])
  }

  function Sort<T>(le: (T, T) -> bool, s: seq<T>): seq<T> {
    if s == [] then [] else Insert(le, s[0], Sort(le, s[1..]))
  }

  lemma {:induction false} InsertMembers<T(!new)>(le: (T, T) -> bool, x: T, s: seq<T>)
    ensures multiset(Insert(le, x, s)) == multiset(s) + multiset{x}
  {
    if s != [] && !le(x, s[0]) {
      InsertMembers(le, x, s[1..]);
      assert s == [s[0]] + s[1..];
    }
  }

  lemma {:induction false} InsertSorted<T(!new)>(le: (T, T) -> bool, x: T, s: seq<T>)
    requires TotalPreorder(le) && SortedBy(le, s)
    ensures SortedBy(le, Insert(le, x, s))
  {
    if s != [] && !le(x, s[0]) {
      InsertSorted(le, x, s[1..]);
      InsertMembers(le, x, s[1..]);
      var rest := Insert(le, x, s[1..]);
      forall j | 0 <= j < |rest| ensures le(s[0], rest[j]) {
        assert rest[j] in multiset(rest);
      }
    }
  }

  lemma {:induction false} SortCorrect<T(!new)>(le: (T, T) -> bool, s: seq<T>)
    requires TotalPreorder(le)
    ensures SortedBy(le, Sort(le, s))
    ensures multiset(Sort(le, s)) == multiset(s) && |Sort(le, s)| == |s|
  {
    if s != [] {
      SortCorrect(le, s[1..]);
      InsertSorted(le, s[0], Sort(le, s[1..]));
      InsertMembers(le, s[0], Sort(le, s[1..]));
      assert s == [s[0]] + s[1..];
    }
    assert |multiset(Sort(le, s))| == |multiset(s)|;
  }

  // A sorted list is left as it is.
  lemma {:induction false} SortIdle<T(!new)>(le: (T, T) -> bool, s: seq<T>)
    requires SortedBy(le, s)
    ensures Sort(le, s) == s
  {
    if s != [] {
      SortIdle(le, s[1..]);
      assert s == [s[0]] + s[1..];
    }
  }

  // The entries that the order does not tell from `e`, as they come.
  function Tied<T>(le: (T, T) -> bool, e: T, s: seq<T>): seq<T> {
    if s == [] then []
    else (if le(e, s[0]) && le(s[0], e) then [s[0]] else []) + Tied(le, e, s[1..])
  }

  lemma {:induction false} InsertKeepsTies<T(!new)>(le: (T, T) -> bool, e: T, x: T, s: seq<T>)
    requires TotalPreorder(le)
    ensures Tied(le, e, Insert(le, x, s)) == Tied(le, e, [x]) + Tied(le, e, s)
  {
    if s == [] || le(x, s[0]) {
      assert ([x] + s)[1..] == s && [x][1..] == [];
    } else {
      var rest := Insert(le, x, s[1..]);
      InsertKeepsTies(le, e, x, s[1..]);
      assert ([s[0]] + rest)[1..] == rest && [x][1..] == [];
      assert le(x, e) ==> !le(e, s[0]);
    }
  }

  // Sorting keeps ties in the order they had.
  lemma {:induction false} SortKeepsTies<T(!new)>(le: (T, T) -> bool, e: T, s: seq<T>)
    requires TotalPreorder(le)
    ensures Tied(le, e, Sort(le, s)) == Tied(le, e, s)
  {
    if s != [] {
      SortKeepsTies(le, e, s[1..]);
      InsertKeepsTies(le, e, s[0], Sort(le, s[1..]));
      assert Tied(le, e, [s[0]]) == if le(e, s[0]) && le(s[0], e) then [s[0]] else [] by { assert [s[0]][1..] == []; }
    }
  }

  // ---- Distinctness does not depend on order ------------------------------------------

  ghost predicate DistinctBy<T(!new), K>(f: T -> K, s: seq<T>) {
    forall i, j :: 0 <= i < j < |s| ==> f(s[i]) != f(s[j])
  }

  lemma {:induction false} Repeated<T(!new)>(s: seq<T>, x: T)
    ensures multiset(s)[x] >= 1 <==> x in s
    ensures multiset(s)[x] >= 2 <==> exists i, j :: 0 <= i < j < |s| && s[i] == x && s[j] == x
  {
    if s != [] {
      var front, last := s[..|s| - 1], s[|s| - 1];
      Repeated(front, x);
      assert s == front + [last];
      if last == x && x in front {
        var i :| 0 <= i < |front| && front[i] == x;
        assert s[i] == x && s[|s| - 1] == x;
      }
      if exists i, j :: 0 <= i < j < |front| && front[i] == x && front[j] == x {
        var i, j :| 0 <= i < j < |front| && front[i] == x && front[j] == x;
        assert s[i] == x && s[j] == x;
      }
    }
  }

  lemma DistinctPermuted<T(!new), K>(f: T -> K, a: seq<T>, b: seq<T>)
    requires multiset(a) == multiset(b) && DistinctBy(f, a)
    ensures DistinctBy(f, b)
  {
    forall i, j | 0 <= i < j < |b| ensures f(b[i]) != f(b[j]) {
      Repeated(b, b[i]);
      Repeated(a, b[i]);
      Repeated(b, b[j]);
      Repeated(a, b[j]);
    }
  }
}
