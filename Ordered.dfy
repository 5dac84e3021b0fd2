// The iteration order of std::set<int> and of the keys of std::map<int, _>:
// ascending, each element once. Ascending(s) lists a finite set of integers
// in that order; the loops of the pipeline visit their set or map by taking
// the least element still to be visited, which is Ascending's head.
module Ordered {

  ghost predicate IsLeast(m: int, s: set<int>) {
    m in s && forall q :: q in s ==> m <= q
  }

  /** A non-empty set has a member to pick. */
  lemma HasMember(s: set<int>)
    requires s != {}
    ensures exists y :: y in s
  {
    if forall y :: y !in s {
      assert false;
    }
  }

  lemma {:induction false} LeastExists(s: set<int>)
    requires s != {}
    ensures exists m :: IsLeast(m, s)
    decreases |s|
  {
    HasMember(s);
    var x :| x in s;
    var rest := s - {x};
    if rest != {} {
      LeastExists(rest);
      var m :| IsLeast(m, rest);
      var least := if x < m then x else m;
      forall q | q in s ensures least <= q {
        if q != x {
          assert q in rest;
        }
      }
      assert IsLeast(least, s);
    } else {
      assert s == {x};
      assert IsLeast(x, s);
    }
  }

  lemma LeastUnique(m: int, n: int, s: set<int>)
    requires IsLeast(m, s) && IsLeast(n, s)
    ensures m == n
  {
  }

  ghost function Least(s: set<int>): (m: int)
    requires s != {}
    ensures IsLeast(m, s)
  {
    LeastExists(s);
    var m :| IsLeast(m, s); m
  }

  predicate StrictlyIncreasing(xs: seq<int>) {
    forall i, j :: 0 <= i < j < |xs| ==> xs[i] < xs[j]
  }

  /** xs lists the elements of s in ascending order: the least one first, then the others likewise. */
  ghost predicate ListsAscending(xs: seq<int>, s: set<int>)
    decreases |xs|
  {
    if xs == [] then s == {} else IsLeast(xs[0], s) && ListsAscending(xs[1..], s - {xs[0]})
  }

  /** Every finite set of integers has an ascending listing. */
  lemma {:induction false} AscendingExists(s: set<int>)
    ensures exists xs :: ListsAscending(xs, s)
    decreases |s|
  {
    if s == {} {
      assert ListsAscending([], s);
    } else {
      var m := Least(s);
      AscendingExists(s - {m});
      var rest :| ListsAscending(rest, s - {m});
      var xs := [m] + rest;
      assert xs[0] == m && xs[1..] == rest;
      assert ListsAscending(xs, s);
    }
  }

  /** The ascending listing is unique. */
  lemma {:induction false} AscendingUnique(xs: seq<int>, ys: seq<int>, s: set<int>)
    requires ListsAscending(xs, s) && ListsAscending(ys, s)
    ensures xs == ys
    decreases |xs|
  {
    if xs != [] && ys != [] {
      LeastUnique(xs[0], ys[0], s);
      AscendingUnique(xs[1..], ys[1..], s - {xs[0]});
      assert xs == [xs[0]] + xs[1..] && ys == [ys[0]] + ys[1..];
    }
  }

  /** The elements of s in ascending order: the iteration order of std::set and of std::map keys. */
  ghost function Ascending(s: set<int>): seq<int> {
    AscendingExists(s);
    var xs :| ListsAscending(xs, s); xs
  }

  /** An ascending listing is strictly increasing and holds exactly the elements of its set. */
  lemma {:induction false} ListsAscendingSpec(xs: seq<int>, s: set<int>)
    requires ListsAscending(xs, s)
    ensures StrictlyIncreasing(xs)
    ensures forall x :: x in xs <==> x in s
    ensures |xs| == |s|
    decreases |xs|
  {
    if xs != [] {
      var m, rest := xs[0], xs[1..];
      ListsAscendingSpec(rest, s - {m});
      forall i, j | 0 <= i < j < |xs| ensures xs[i] < xs[j] {
        assert xs[j] == rest[j - 1];
        if i > 0 {
          assert xs[i] == rest[i - 1];
        } else {
          assert rest[j - 1] in s - {m};
        }
      }
      forall x ensures x in xs <==> x in s {
        if x != m {
          assert x in xs <==> x in rest;
        }
      }
    }
  }

  /** Ascending(s) lists exactly the elements of s, in strictly increasing order. */
  lemma AscendingSpec(s: set<int>)
    ensures StrictlyIncreasing(Ascending(s))
    ensures forall x :: x in Ascending(s) <==> x in s
    ensures |Ascending(s)| == |s|
  {
    ListsAscendingSpec(Ascending(s), s);
  }

  /** The iterator's step: for a least m of s, Ascending(s) starts with m. */
  lemma AscendingStep(m: int, s: set<int>)
    requires IsLeast(m, s)
    ensures Ascending(s) == [m] + Ascending(s - {m})
  {
    var rest := Ascending(s - {m});
    var xs := [m] + rest;
    assert xs[0] == m && xs[1..] == rest;
    assert ListsAscending(xs, s);
    AscendingUnique(Ascending(s), xs, s);
  }

  /** An element above all others extends an ascending listing at the end. */
  lemma {:induction false} ListsAscendingSnoc(xs: seq<int>, s: set<int>, m: int)
    requires ListsAscending(xs, s)
    requires forall x :: x in s ==> x < m
    ensures ListsAscending(xs + [m], s + {m})
    decreases |xs|
  {
    var ys := xs + [m];
    if xs == [] {
      assert ys == [m] && ys[1..] == [];
      assert s + {m} - {m} == {};
    } else {
      assert ys[0] == xs[0] && ys[1..] == xs[1..] + [m];
      assert (s + {m}) - {xs[0]} == (s - {xs[0]}) + {m};
      ListsAscendingSnoc(xs[1..], s - {xs[0]}, m);
    }
  }

  /**
   * An ascending walk part-way through: done lists the visited elements in
   * order, and each of them is below every element still to visit.
   */
  ghost predicate Walked(done: seq<int>, visited: set<int>, todo: set<int>) {
    ListsAscending(done, visited) && forall v, x :: v in visited && x in todo ==> v < x
  }

  lemma WalkStart(todo: set<int>)
    ensures Walked([], {}, todo)
  {
  }

  /** Visiting the least element still to visit extends the walk. */
  lemma WalkStep(done: seq<int>, visited: set<int>, todo: set<int>, m: int)
    requires Walked(done, visited, todo) && IsLeast(m, todo)
    ensures Walked(done + [m], visited + {m}, todo - {m})
  {
    ListsAscendingSnoc(done, visited, m);
  }

  /** A walk that has visited everything is the ascending listing. */
  lemma WalkEnd(done: seq<int>, s: set<int>)
    requires Walked(done, s, {})
    ensures done == Ascending(s)
  {
    AscendingUnique(done, Ascending(s), s);
  }
}
