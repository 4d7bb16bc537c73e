/** What `Model.find(filter).sort(spec)` returns over a collection: the
    documents of the collection, those the filter keeps, ordered by the sort
    specification. */
module Listing {
  import opened Values

  predicate Sorted<T>(s: seq<T>, le: (T, T) -> bool)
  {
    forall i, j :: 0 <= i < j < |s| ==> le(s[i], s[j])
  }

  predicate Distinct<T(==)>(s: seq<T>)
  {
    forall i, j :: 0 <= i < j < |s| ==> s[i] != s[j]
  }

  /** `le` compares every pair and is transitive, as a sort specification is. */
  ghost predicate TotalPreorder<T(!new)>(le: (T, T) -> bool)
  {
    && (forall a, b :: le(a, b) || le(b, a))
    && (forall a, b, c :: le(a, b) && le(b, c) ==> le(a, c))
  }

  /** `k` is the least id of `ks`. */
  predicate IsLeast(k: Id, ks: set<Id>)
  {
    k in ks && forall j :: j in ks ==> k <= j
  }

  lemma {:induction false} LeastKey(ks: set<Id>) returns (k: Id)
    requires ks != {}
    ensures IsLeast(k, ks)
  {
    var x :| x in ks;
    if ks == {x} {
      k := x;
    } else {
      var y := LeastKey(ks - {x});
      assert forall j :: j in ks ==> j == x || j in ks - {x};
      k := if x <= y then x else y;
    }
  }

  /** A non-empty set of ids has exactly one least id. */
  lemma MinKeyExists(ks: set<Id>)
    requires ks != {}
    ensures exists k :: IsLeast(k, ks)
    ensures forall a, b :: IsLeast(a, ks) && IsLeast(b, ks) ==> a == b
  {
    var k := LeastKey(ks);
  }

  /** Putting the least id's document before the listing of the others
      lists the whole collection in ascending id order. */
  lemma {:induction false} EntriesStep<T>(m: map<Id, T>, k: Id, rest: seq<(Id, T)>)
    requires IsLeast(k, m.Keys)
    requires forall e :: e in rest <==> e.0 in m - {k} && (m - {k})[e.0] == e.1
    requires forall i, j :: 0 <= i < j < |rest| ==> rest[i].0 < rest[j].0
    ensures forall e :: e in [(k, m[k])] + rest <==> e.0 in m && m[e.0] == e.1
    ensures forall i, j :: 0 <= i < j < |[(k, m[k])] + rest| ==> ([(k, m[k])] + rest)[i].0 < ([(k, m[k])] + rest)[j].0
    ensures Distinct([(k, m[k])] + rest)
  {
    var r := [(k, m[k])] + rest;
    forall e
      ensures e in r <==> e.0 in m && m[e.0] == e.1
    {
      assert e in r <==> e == r[0] || e in rest;
    }
    forall i, j | 0 <= i < j < |r|
      ensures r[i].0 < r[j].0
    {
      assert r[j] == rest[j - 1] && r[j] in rest;
      if i > 0 {
        assert r[i] == rest[i - 1];
      }
    }
  }

  /** The documents of a collection in the order `find()` with no sort yields
      them, taken here to be ascending id order: every document once. */
  function Entries<T(==,!new)>(m: map<Id, T>): (r: seq<(Id, T)>)
    ensures forall e :: e in r <==> e.0 in m && m[e.0] == e.1
    ensures forall i, j :: 0 <= i < j < |r| ==> r[i].0 < r[j].0
    ensures Distinct(r)
    decreases m.Keys
  {
    if m.Keys == {} then []
    else
      MinKeyExists(m.Keys);
      var k: Id :| IsLeast(k, m.Keys);
      var rest := Entries(m - {k});
      EntriesStep(m, k, rest);
      [(k, m[k])] + rest
  }

  /** The documents a query filter keeps, in their order. */
  function Filter<T(==,!new)>(s: seq<T>, keep: T -> bool): (r: seq<T>)
    ensures forall x :: x in r <==> x in s && keep(x)
    ensures Distinct(s) ==> Distinct(r)
  {
    if s == [] then []
    else
      var rest := Filter(s[1..], keep);
      assert Distinct(s) ==> s[0] !in s[1..];
      if keep(s[0]) then [s[0]] + rest else rest
  }

  /** Places `x` before the first element it may precede. */
  function Insert<T(==)>(x: T, s: seq<T>, le: (T, T) -> bool): (r: seq<T>)
    ensures multiset(r) == multiset(s) + multiset{x}
    ensures forall y :: y in r ==> y == x || y in s
  {
    if s == [] || le(x, s[0]) then
      [x] + s
    else
      assert s == [s[0]] + s[1..];
      [s[0]] + Insert(x, s[1..], le)
  }

  lemma {:induction false} InsertSorted<T(!new)>(x: T, s: seq<T>, le: (T, T) -> bool)
    requires TotalPreorder(le) && Sorted(s, le)
    ensures Sorted(Insert(x, s, le), le)
  {
    if s == [] || le(x, s[0]) {
      forall j | 0 <= j < |s| ensures le(x, s[j]) {
        if j > 0 {
          assert le(s[0], s[j]);
        }
      }
    } else {
      var rest := Insert(x, s[1..], le);
      InsertSorted(x, s[1..], le);
      assert le(s[0], x);
      forall y | y in s[1..] ensures le(s[0], y) {
        var j :| 0 <= j < |s[1..]| && s[1..][j] == y;
        assert s[j + 1] == y;
      }
    }
  }

  lemma {:induction false} InsertDistinct<T>(x: T, s: seq<T>, le: (T, T) -> bool)
    requires Distinct(s) && x !in s
    ensures Distinct(Insert(x, s, le))
  {
    if s != [] && !le(x, s[0]) {
      var rest := Insert(x, s[1..], le);
      InsertDistinct(x, s[1..], le);
      assert s[0] !in s[1..];
    }
  }

  /** What `.sort(...)` does to the documents a query found: the same
      documents, each as often as before, in an order `le` accepts. */
  function SortBy<T(==,!new)>(s: seq<T>, le: (T, T) -> bool): (r: seq<T>)
    requires TotalPreorder(le)
    ensures Sorted(r, le)
    ensures multiset(r) == multiset(s)
    ensures Distinct(s) ==> Distinct(r)
  {
    if s == [] then []
    else
      var rest := SortBy(s[1..], le);
      assert s == [s[0]] + s[1..];
      InsertSorted(s[0], rest, le);
      assert Distinct(s) ==> Distinct(Insert(s[0], rest, le)) by {
        if Distinct(s) {
          assert s[0] !in multiset(rest);
          InsertDistinct(s[0], rest, le);
        }
      }
      Insert(s[0], rest, le)
  }

  /** `Model.find(filter).sort(spec)`: every stored document the filter keeps,
      each once, in an order the sort specification accepts. */
  function Query<T(==,!new)>(m: map<Id, T>, keep: T -> bool, le: ((Id, T), (Id, T)) -> bool): (r: seq<(Id, T)>)
    requires TotalPreorder(le)
    ensures forall e :: e in r <==> e.0 in m && m[e.0] == e.1 && keep(e.1)
    ensures Sorted(r, le)
    ensures Distinct(r)
  {
    var found := Filter(Entries(m), (e: (Id, T)) => keep(e.1));
    var r := SortBy(found, le);
    assert forall e :: e in r <==> e in found by {
      forall e ensures e in r <==> e in found {
        assert e in r <==> e in multiset(r);
        assert e in found <==> e in multiset(found);
      }
    }
    r
  }

  /** A listing that holds every entry of `m` exactly once has one element per
      key. */
  lemma {:induction false} ListedCount<T>(m: map<Id, T>, s: seq<(Id, T)>)
    requires forall e :: e in s <==> e.0 in m && m[e.0] == e.1
    requires Distinct(s)
    ensures |s| == |m|
    decreases |s|
  {
    if s != [] {
      var k := s[0].0;
      var rest := s[1..];
      forall e ensures e in rest <==> e.0 in m - {k} && (m - {k})[e.0] == e.1 {
        if e in rest {
          var j :| 0 <= j < |rest| && rest[j] == e;
          assert s[j + 1] == e && s[0] != e;
        }
        if e.0 in m - {k} && (m - {k})[e.0] == e.1 {
          assert e in s && e != s[0];
        }
      }
      ListedCount(m - {k}, rest);
    }
  }
}
