/** The alphabetical order of names and sorting by it. */
module NameOrder {
  import opened ModuleGraphs

  /** Lexicographic order by code point, which is the byte order of the UTF-8 encodings. */
  predicate NameLess(a: string, b: string)
    decreases |a|
  {
    if b == "" then false
    else if a == "" then true
    else if a[0] != b[0] then a[0] < b[0]
    else NameLess(a[1..], b[1..])
  }

  lemma {:induction false} NameLessTotal(a: string, b: string)
    ensures NameLess(a, b) || NameLess(b, a) || a == b
    ensures !(NameLess(a, b) && NameLess(b, a)) && !NameLess(a, a)
    decreases |a|
  {
    if a != "" && b != "" && a[0] == b[0] {
      NameLessTotal(a[1..], b[1..]);
      assert a == [a[0]] + a[1..] && b == [b[0]] + b[1..];
    }
    if a != "" {
      NameLessTotal(a[1..], a[1..]);
    }
  }

  lemma {:induction false} NameLessTransitive(a: string, b: string, c: string)
    requires NameLess(a, b) && NameLess(b, c)
    ensures NameLess(a, c)
    decreases |a|
  {
    if a != "" && a[0] == b[0] == c[0] {
      NameLessTransitive(a[1..], b[1..], c[1..]);
    }
  }

  /** Strictly increasing names. */
  ghost predicate Increasing(names: seq<string>) {
    forall i, j | 0 <= i < j < |names| :: NameLess(names[i], names[j])
  }

  ghost function Elements<T>(s: seq<T>): set<T> {
    set x | x in s
  }

  /** The names of a set, in order. */
  ghost function SortedNames(names: set<string>): (s: seq<string>)
    ensures Increasing(s) && Elements(s) == names && NoDuplicates(s)
    decreases |names|
  {
    if names == {} then []
    else
      var least := Least(names);
      var rest := SortedNames(names - {least});
      LeastFirst(names, least, rest);
      [least] + rest
  }

  lemma LeastFirst(names: set<string>, least: string, rest: seq<string>)
    requires least in names && (forall x | x in names && x != least :: NameLess(least, x))
    requires Increasing(rest) && Elements(rest) == names - {least}
    ensures var s := [least] + rest;
      Increasing(s) && Elements(s) == names && NoDuplicates(s)
  {
    var s := [least] + rest;
    forall i, j | 0 <= i < j < |s|
      ensures NameLess(s[i], s[j])
    {
      assert s[j] == rest[j - 1] && s[j] in Elements(rest);
    }
    assert forall x :: x in s <==> x == least || x in Elements(rest);
    IncreasingHasNoDuplicates(s);
  }

  ghost predicate IsLeast(m: string, names: set<string>) {
    m in names && forall x | x in names && x != m :: NameLess(m, x)
  }

  ghost function Least(names: set<string>): (m: string)
    requires names != {}
    ensures IsLeast(m, names)
  {
    LeastExists(names);
    var m :| IsLeast(m, names);
    m
  }

  lemma {:induction false} LeastExists(names: set<string>)
    requires names != {}
    ensures exists m :: IsLeast(m, names)
    decreases |names|
  {
    hide NameLess;
    var y :| y in names;
    var others := names - {y};
    if others == {} {
      assert names == {y};
      assert IsLeast(y, names);
    } else {
      LeastExists(others);
      var m :| IsLeast(m, others);
      LeastWithOneMore(m, y, others);
      assert names == others + {y};
    }
  }

  lemma LeastWithOneMore(m: string, y: string, others: set<string>)
    requires IsLeast(m, others) && y !in others
    ensures IsLeast(if NameLess(y, m) then y else m, others + {y})
  {
    hide NameLess;
    NameLessTotal(m, y);
    if NameLess(y, m) {
      forall x | x in others ensures NameLess(y, x) {
        if x != m {
          NameLessTransitive(y, m, x);
        }
      }
    }
  }

  lemma IncreasingHasNoDuplicates(s: seq<string>)
    requires Increasing(s)
    ensures NoDuplicates(s)
  {
    forall i, j | 0 <= i < j < |s|
      ensures s[i] != s[j]
    {
      NameLessTotal(s[i], s[j]);
    }
  }

  lemma EmptyElements<T(!new)>(s: seq<T>)
    ensures Elements(s) == {} <==> s == []
  {
    if s != [] {
      assert s[0] in Elements(s);
    }
  }

  /** A set of names has only one sorted listing. */
  lemma {:induction false} SortedIsUnique(a: seq<string>, b: seq<string>)
    requires Increasing(a) && Increasing(b) && Elements(a) == Elements(b)
    ensures a == b
    decreases |a|
  {
    EmptyElements(a);
    EmptyElements(b);
    if a != [] {
      assert a[0] in Elements(a) && b[0] in Elements(b);
      var i :| 0 <= i < |b| && b[i] == a[0];
      var j :| 0 <= j < |a| && a[j] == b[0];
      NameLessTotal(a[0], b[0]);
      assert a[0] == b[0];
      IncreasingHasNoDuplicates(a);
      IncreasingHasNoDuplicates(b);
      TailElements(a);
      TailElements(b);
      SortedIsUnique(a[1..], b[1..]);
      assert a == [a[0]] + a[1..] && b == [b[0]] + b[1..];
    }
  }

  lemma TailElements<T(!new)>(s: seq<T>)
    requires s != [] && NoDuplicates(s)
    ensures Elements(s[1..]) == Elements(s) - {s[0]}
  {
    forall x | x in Elements(s) - {s[0]}
      ensures x in s[1..]
    {
      var i :| 0 <= i < |s| && s[i] == x;
      assert s[1..][i - 1] == x;
    }
  }

  // ---- Sorting module ids by name ----

  ghost predicate InRange(ms: seq<ModuleInfo>, ids: seq<ModuleId>) {
    forall k | 0 <= k < |ids| :: ids[k] < |ms|
  }

  function Names(ms: seq<ModuleInfo>, ids: seq<ModuleId>): seq<string>
    requires InRange(ms, ids)
  {
    seq(|ids|, k requires 0 <= k < |ids| => ms[ids[k]].name)
  }

  /** In order by name. */
  ghost predicate SortedByName(ms: seq<ModuleInfo>, ids: seq<ModuleId>)
    requires InRange(ms, ids)
  {
    forall i, j | 0 <= i < j < |ids| :: !NameLess(ms[ids[j]].name, ms[ids[i]].name)
  }

  function InsertByName(ms: seq<ModuleInfo>, ids: seq<ModuleId>, id: ModuleId): (r: seq<ModuleId>)
    requires id < |ms| && InRange(ms, ids)
    ensures multiset(r) == multiset(ids) + multiset{id} && InRange(ms, r)
    ensures forall k | k in r :: k == id || k in ids
    decreases |ids|
  {
    if ids == [] || !NameLess(ms[id].name, ms[ids[|ids| - 1]].name) then ids + [id]
    else
      assert ids == ids[..|ids| - 1] + [ids[|ids| - 1]];
      InsertByName(ms, ids[..|ids| - 1], id) + [ids[|ids| - 1]]
  }

  /** `sort_by` on names: stable, so that an id goes behind those that compare equal. */
  function SortByName(ms: seq<ModuleInfo>, ids: seq<ModuleId>): (r: seq<ModuleId>)
    requires InRange(ms, ids)
    ensures multiset(r) == multiset(ids) && InRange(ms, r)
    ensures forall k | k in r :: k in ids
    decreases |ids|
  {
    if ids == [] then []
    else
      assert ids == ids[..|ids| - 1] + [ids[|ids| - 1]];
      InsertByName(ms, SortByName(ms, ids[..|ids| - 1]), ids[|ids| - 1])
  }

  lemma {:induction false} InsertKeepsSorted(ms: seq<ModuleInfo>, ids: seq<ModuleId>, id: ModuleId)
    requires id < |ms| && InRange(ms, ids) && SortedByName(ms, ids)
    ensures SortedByName(ms, InsertByName(ms, ids, id))
    decreases |ids|
  {
    if ids == [] {
    } else {
      var front, last := ids[..|ids| - 1], ids[|ids| - 1];
      if NameLess(ms[id].name, ms[last].name) {
        InsertKeepsSorted(ms, front, id);
        var r := InsertByName(ms, front, id);
        forall k | k in r
          ensures !NameLess(ms[last].name, ms[k].name)
        {
          NameLessTotal(ms[id].name, ms[last].name);
          if k != id {
            var i :| 0 <= i < |front| && front[i] == k;
            assert ids[i] == k;
          }
        }
      } else {
        forall i | 0 <= i < |ids|
          ensures !NameLess(ms[id].name, ms[ids[i]].name)
        {
          if i < |ids| - 1 && NameLess(ms[id].name, ms[ids[i]].name) {
            NameLessTotal(ms[ids[i]].name, ms[last].name);
            if NameLess(ms[ids[i]].name, ms[last].name) {
              NameLessTransitive(ms[id].name, ms[ids[i]].name, ms[last].name);
            }
            assert false;
          }
        }
      }
    }
  }

  lemma {:induction false} SortByNameSorts(ms: seq<ModuleInfo>, ids: seq<ModuleId>)
    requires InRange(ms, ids)
    ensures SortedByName(ms, SortByName(ms, ids))
    decreases |ids|
  {
    if ids != [] {
      SortByNameSorts(ms, ids[..|ids| - 1]);
      InsertKeepsSorted(ms, SortByName(ms, ids[..|ids| - 1]), ids[|ids| - 1]);
    }
  }

  lemma SameMembers<T(!new)>(a: seq<T>, b: seq<T>)
    requires multiset(a) == multiset(b)
    ensures |a| == |b| && Elements(a) == Elements(b)
    ensures NoDuplicates(a) ==> NoDuplicates(b)
  {
    assert |multiset(a)| == |multiset(b)|;
    forall x
      ensures x in a <==> x in b
    {
      assert x in a <==> x in multiset(a);
      assert x in b <==> x in multiset(b);
    }
    if NoDuplicates(a) {
      forall i, j | 0 <= i < j < |b|
        ensures b[i] != b[j]
      {
        if b[i] == b[j] {
          CountTwo(b, i, j);
          CountOnce(a, b[i]);
        }
      }
    }
  }

  lemma {:induction false} CountOnce<T(!new)>(s: seq<T>, x: T)
    requires NoDuplicates(s)
    ensures multiset(s)[x] <= 1
    decreases |s|
  {
    if s != [] {
      var front, last := s[..|s| - 1], s[|s| - 1];
      assert s == front + [last];
      CountOnce(front, x);
      if last == x {
        assert x !in front;
      }
    }
  }

  lemma CountTwo<T(!new)>(s: seq<T>, i: nat, j: nat)
    requires i < j < |s| && s[i] == s[j]
    ensures multiset(s)[s[i]] >= 2
  {
    assert s == s[..j] + [s[j]] + s[j + 1..];
    assert s[..j][i] == s[i];
    assert s[i] in multiset(s[..j]);
  }

  /** With distinct names, the sorted ids spell the sorted listing of their names. */
  lemma SortByNameSpells(ms: seq<ModuleInfo>, ids: seq<ModuleId>)
    requires UniqueNames(ms) && NoDuplicates(ids) && InRange(ms, ids)
    ensures var sorted := SortByName(ms, ids);
      NoDuplicates(sorted) && Names(ms, sorted) == SortedNames(Elements(Names(ms, ids)))
  {
    var sorted := SortByName(ms, ids);
    SortByNameSorts(ms, ids);
    SameMembers(ids, sorted);
    var spelled, wanted := Names(ms, sorted), SortedNames(Elements(Names(ms, ids)));
    assert Increasing(spelled) by {
      forall i, j | 0 <= i < j < |sorted|
        ensures NameLess(spelled[i], spelled[j])
      {
        NameLessTotal(spelled[i], spelled[j]);
        assert sorted[i] != sorted[j];
      }
    }
    NamesElements(ms, ids, sorted);
    NamesElements(ms, sorted, ids);
    SortedIsUnique(spelled, wanted);
  }

  lemma NamesElements(ms: seq<ModuleInfo>, a: seq<ModuleId>, b: seq<ModuleId>)
    requires InRange(ms, a) && InRange(ms, b)
    requires Elements(a) <= Elements(b)
    ensures Elements(Names(ms, a)) <= Elements(Names(ms, b))
  {
    forall x | x in Names(ms, a)
      ensures x in Names(ms, b)
    {
      var i :| 0 <= i < |a| && Names(ms, a)[i] == x;
      assert a[i] in Elements(a);
      var j :| 0 <= j < |b| && b[j] == a[i];
      assert Names(ms, b)[j] == x;
    }
  }
}
