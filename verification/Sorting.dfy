/** ORDER BY two integer columns: the unique ascending listing of a set of ranks. */
module Sorting {
  import opened Collections

  datatype Rank = Rank(major: int, minor: int)

  predicate Less(a: Rank, b: Rank) {
    a.major < b.major || (a.major == b.major && a.minor < b.minor)
  }

  predicate Ascending(s: seq<Rank>) {
    forall i, j | 0 <= i < j < |s| :: Less(s[i], s[j])
  }

  predicate IsLeast(s: set<Rank>, r: Rank) {
    r in s && forall x | x in s && x != r :: Less(r, x)
  }

  lemma {:induction false} LeastExists(s: set<Rank>)
    requires s != {}
    ensures exists r :: IsLeast(s, r)
    decreases s
  {
    var x :| x in s;
    if s == {x} {
      assert IsLeast(s, x);
    } else {
      var rest := s - {x};
      LeastExists(rest);
      var r :| IsLeast(rest, r);
      var m := if Less(r, x) then r else x;
      forall y | y in s && y != m
        ensures Less(m, y)
      {
        assert y == x || y in rest;
      }
      assert IsLeast(s, m);
    }
  }

  function Least(s: set<Rank>): (r: Rank)
    requires s != {}
    ensures IsLeast(s, r)
  {
    LeastExists(s);
    var r :| r in s && IsLeast(s, r);
    r
  }

  /** The rows of `s` in the order the engine returns them. */
  function Sort(s: set<Rank>): seq<Rank>
    decreases s
  {
    if s == {} then []
    else [Least(s)] + Sort(s - {Least(s)})
  }

  lemma {:induction false} SortLists(s: set<Rank>)
    ensures Ascending(Sort(s))
    ensures forall x :: x in Sort(s) <==> x in s
    ensures |Sort(s)| == |s|
    decreases s
  {
    if s != {} {
      var rest := s - {Least(s)};
      SortLists(rest);
      forall j | 0 < j < |Sort(s)|
        ensures Less(Sort(s)[0], Sort(s)[j])
      {
        assert Sort(s)[j] == Sort(rest)[j - 1];
        assert Sort(rest)[j - 1] in rest;
      }
      assert |rest| == |s| - 1;
    }
  }

  /** `s` lists an initial segment of `all`: nothing of `all` below a listed rank is missing. */
  ghost predicate DownClosed(s: seq<Rank>, all: set<Rank>) {
    && (forall x | x in s :: x in all)
    && (forall x, y | x in s && y in all && Less(y, x) :: y in s)
  }

  lemma HeadIsLeast(s: seq<Rank>, all: set<Rank>)
    requires s != [] && Ascending(s) && DownClosed(s, all)
    ensures all != {} && s[0] == Least(all)
  {
    assert s[0] in all;
    var least := Least(all);
    assert least == s[0] || Less(least, s[0]);
    assert least in s;
    var i :| 0 <= i < |s| && s[i] == least;
    assert i == 0;
  }

  /** An ascending, downward-closed listing is a prefix of the whole order. */
  lemma {:induction false} InitialSegmentIsPrefix(s: seq<Rank>, all: set<Rank>)
    requires Ascending(s) && DownClosed(s, all)
    ensures s <= Sort(all)
    decreases |s|
  {
    if s != [] {
      HeadIsLeast(s, all);
      var least := Least(all);
      var tail := s[1..];
      assert s == [least] + tail;
      forall x | x in tail
        ensures x in all - {least}
      {
        var i :| 0 <= i < |tail| && tail[i] == x;
        assert Less(s[0], s[i + 1]);
      }
      forall x, y | x in tail && y in all - {least} && Less(y, x)
        ensures y in tail
      {
        assert x in s;
        assert y in s;
      }
      InitialSegmentIsPrefix(tail, all - {least});
    }
  }

  /** Two ascending listings of the same ranks are the same listing. */
  lemma SortIsUnique(s: seq<Rank>, all: set<Rank>)
    requires Ascending(s) && forall x :: x in s <==> x in all
    ensures s == Sort(all)
  {
    InitialSegmentIsPrefix(s, all);
    SortLists(all);
    AscendingCounts(s, all);
  }

  lemma {:induction false} AscendingCounts(s: seq<Rank>, all: set<Rank>)
    requires Ascending(s) && forall x :: x in s <==> x in all
    ensures |s| == |all|
    decreases |s|
  {
    if s == [] {
      assert all == {};
    } else {
      var tail, rest := s[1..], all - {s[0]};
      assert s == [s[0]] + tail;
      forall x
        ensures x in tail <==> x in rest
      {
        if x in tail {
          var i :| 0 <= i < |tail| && tail[i] == x;
          assert Less(s[0], s[i + 1]);
        }
      }
      AscendingCounts(tail, rest);
      assert s[0] in all;
    }
  }

  lemma KeepAscending(s: seq<Rank>, kept: set<Rank>)
    requires Ascending(s)
    ensures Ascending(Keep(s, kept))
  {
    KeepOrder(s, kept, Less);
  }
}
