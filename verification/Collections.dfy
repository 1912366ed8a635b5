/** Extensionality and counting of finite collections, for any element type. */
module Collections {
  lemma SameMembers<T(!new)>(a: set<T>, b: set<T>)
    requires forall x :: x in a <==> x in b
    ensures a == b
  {
  }

  lemma Minus<T>(a: set<T>, b: set<T>)
    requires b <= a
    ensures |a - b| == |a| - |b|
  {
  }

  lemma Union<T>(a: set<T>, b: set<T>)
    requires a !! b
    ensures |a + b| == |a| + |b|
  {
  }

  /** Rows of a status after a step: those that left and those that came. */
  lemma CountAfter<T(!new)>(before: set<T>, gone: set<T>, come: set<T>, after: set<T>)
    requires forall x :: x in gone ==> x in before
    requires forall x :: x in come ==> x !in before
    requires forall x :: x in after <==> (x in before && x !in gone) || x in come
    ensures |after| == |before| - |gone| + |come|
  {
    SameMembers(after, (before - gone) + come);
    Minus(before, gone);
    Union(before - gone, come);
  }

  lemma SameCount<T(!new)>(a: set<T>, b: set<T>)
    requires forall x :: x in a <==> x in b
    ensures |a| == |b|
  {
    SameMembers(a, b);
  }

  lemma SameMap<K(!new), V>(a: map<K, V>, b: map<K, V>)
    requires forall k :: k in a <==> k in b
    requires forall k | k in a && k in b :: a[k] == b[k]
    ensures a == b
  {
  }

  lemma Regroup<T>(a: seq<T>, b: seq<T>, c: seq<T>)
    ensures a + b + c == a + (b + c)
  {
  }

  predicate NoRepeats<T(==)>(s: seq<T>) {
    forall i, j | 0 <= i < j < |s| :: s[i] != s[j]
  }

  function ToSet<T>(s: seq<T>): set<T> {
    set x | x in s
  }

  lemma OneMoreMember<T(!new)>(s: seq<T>, i: nat)
    requires i < |s|
    ensures ToSet(s[..i + 1]) == ToSet(s[..i]) + {s[i]}
    ensures NoRepeats(s) ==> s[i] !in ToSet(s[..i])
  {
    assert s[..i + 1] == s[..i] + [s[i]];
  }

  /** The members of a listing that are in a set, in order. */
  function Keep<T(==)>(s: seq<T>, kept: set<T>): seq<T> {
    if s == [] then []
    else
      var rest := Keep(s[..|s| - 1], kept);
      if s[|s| - 1] in kept then rest + [s[|s| - 1]] else rest
  }

  lemma {:induction false} KeepLists<T(!new)>(s: seq<T>, kept: set<T>)
    ensures forall x :: x in Keep(s, kept) <==> x in s && x in kept
    ensures |Keep(s, kept)| <= |s|
    ensures NoRepeats(s) ==> NoRepeats(Keep(s, kept))
  {
    if s != [] {
      var front, last := s[..|s| - 1], s[|s| - 1];
      KeepLists(front, kept);
      assert s == front + [last];
      if NoRepeats(s) {
        assert forall i | 0 <= i < |front| :: front[i] == s[i];
        assert last !in front;
      }
    }
  }

  /** Keeping some members keeps any order. */
  lemma {:induction false} KeepOrder<T(!new)>(s: seq<T>, kept: set<T>, less: (T, T) -> bool)
    requires forall i, j | 0 <= i < j < |s| :: less(s[i], s[j])
    ensures forall i, j | 0 <= i < j < |Keep(s, kept)| :: less(Keep(s, kept)[i], Keep(s, kept)[j])
  {
    if s != [] {
      var front, last := s[..|s| - 1], s[|s| - 1];
      KeepOrder(front, kept, less);
      KeepLists(front, kept);
      forall i | 0 <= i < |Keep(front, kept)|
        ensures less(Keep(front, kept)[i], last)
      {
        assert Keep(front, kept)[i] in front;
        var j :| 0 <= j < |front| && front[j] == Keep(front, kept)[i];
        assert less(s[j], s[|s| - 1]);
      }
    }
  }

  lemma {:induction false} KeepAll<T>(s: seq<T>, kept: set<T>)
    requires forall i | 0 <= i < |s| :: s[i] in kept
    ensures Keep(s, kept) == s
  {
    if s != [] {
      KeepAll(s[..|s| - 1], kept);
      assert s == s[..|s| - 1] + [s[|s| - 1]];
    }
  }

  /** A listing without repeats is as long as the set it lists. */
  lemma {:induction false} ListLength<T(!new)>(s: seq<T>, all: set<T>)
    requires NoRepeats(s)
    requires forall x :: x in s <==> x in all
    ensures |s| == |all|
    decreases |s|
  {
    if s == [] {
      assert all == {};
    } else {
      var front, last := s[..|s| - 1], s[|s| - 1];
      assert s == front + [last];
      assert last in all && last !in front;
      ListLength(front, all - {last});
    }
  }

  lemma AnyOf<T>(s: set<T>) returns (x: T)
    requires s != {}
    ensures x in s
  {
    x :| x in s;
  }

  /** The members of a set in an order nobody promises. */
  method AnyOrder<T>(s: set<T>) returns (order: seq<T>)
    ensures NoRepeats(order)
    ensures forall x :: x in order <==> x in s
  {
    var rest := s;
    order := [];
    while rest != {}
      invariant NoRepeats(order)
      invariant rest <= s
      invariant forall x :: x in order <==> x in s && x !in rest
      decreases rest
    {
      var x :| x in rest;
      order := order + [x];
      rest := rest - {x};
    }
  }

  /** Some member with the least key. */
  ghost predicate IsLeastBy<T(!new)>(s: set<T>, key: T -> int, x: T) {
    x in s && forall y | y in s :: key(x) <= key(y)
  }

  lemma {:induction false} LeastByExists<T(!new)>(s: set<T>, key: T -> int) returns (x: T)
    requires s != {}
    ensures IsLeastBy(s, key, x)
    decreases s
  {
    var y :| y in s;
    if s == {y} {
      x := y;
    } else {
      var z := LeastByExists(s - {y}, key);
      x := if key(y) <= key(z) then y else z;
      forall u | u in s
        ensures key(x) <= key(u)
      {
        assert u == y || u in s - {y};
      }
    }
  }

  /** ORDER BY key LIMIT limit: as many members as there are, up to the limit,
      least keys first; ties fall as they may. */
  method TakeLeast<T(!new)>(s: set<T>, limit: nat, key: T -> int) returns (chosen: set<T>)
    ensures chosen <= s && |chosen| == if |s| < limit then |s| else limit
    ensures forall x, y | x in chosen && y in s && y !in chosen :: key(x) <= key(y)
  {
    chosen := {};
    var rest := s;
    while rest != {} && |chosen| < limit
      invariant chosen !! rest && chosen + rest == s
      invariant |chosen| <= limit && |chosen| + |rest| == |s|
      invariant forall x, y | x in chosen && y in rest :: key(x) <= key(y)
      decreases rest
    {
      ghost var least := LeastByExists(rest, key);
      assert IsLeastBy(rest, key, least);
      var x :| x in rest && forall y | y in rest :: key(x) <= key(y);
      chosen, rest := chosen + {x}, rest - {x};
    }
  }
}
