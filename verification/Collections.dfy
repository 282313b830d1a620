/** Sequence vocabulary shared by the other modules. */
module Collections {

  datatype Option<+T> = None | Some(value: T)

  ghost predicate Distinct<T>(s: seq<T>) {
    forall i, j :: 0 <= i < j < |s| ==> s[i] != s[j]
  }

  /** The elements of `s`, each once, in the order they are first met. */
  function FirstSeen<T(==)>(s: seq<T>): seq<T> {
    if s == [] then []
    else
      var before := FirstSeen(s[..|s| - 1]);
      if s[|s| - 1] in before then before else before + [s[|s| - 1]]
  }

  /** Position of the first occurrence of `x`, or |s| when it does not occur. */
  function FirstIndex<T(==)>(s: seq<T>, x: T): (i: nat)
    ensures i <= |s|
    ensures i < |s| <==> x in s
    ensures i < |s| ==> s[i] == x
    ensures forall k | 0 <= k < i :: s[k] != x
  {
    if s == [] then 0
    else if s[0] == x then 0
    else FirstIndex(s[1..], x) + 1
  }

  /** The values of the entries that are present. */
  function Somes<T>(s: seq<Option<T>>): seq<T> {
    if s == [] then []
    else
      var before := Somes(s[..|s| - 1]);
      match s[|s| - 1] case Some(v) => before + [v] case None => before
  }

  lemma {:induction false} SomesMembers<T>(s: seq<Option<T>>, v: T)
    ensures v in Somes(s) <==> Some(v) in s
  {
    if s != [] {
      SomesMembers(s[..|s| - 1], v);
      assert s == s[..|s| - 1] + [s[|s| - 1]];
    }
  }

  lemma FirstSeenSnoc<T>(s: seq<T>, x: T)
    ensures FirstSeen(s + [x]) == if x in s then FirstSeen(s) else FirstSeen(s) + [x]
  {
    assert (s + [x])[..|s|] == s;
    FirstSeenMembers(s, x);
  }

  lemma {:induction false} FirstSeenMembers<T>(s: seq<T>, x: T)
    ensures x in FirstSeen(s) <==> x in s
  {
    if s != [] {
      FirstSeenMembers(s[..|s| - 1], x);
      assert s == s[..|s| - 1] + [s[|s| - 1]];
    }
  }

  lemma {:induction false} FirstSeenDistinct<T>(s: seq<T>)
    ensures Distinct(FirstSeen(s))
  {
    if s != [] {
      FirstSeenDistinct(s[..|s| - 1]);
    }
  }

  lemma FirstIndexPrefix<T>(s: seq<T>, t: seq<T>, x: T)
    requires x in s
    ensures FirstIndex(s + t, x) == FirstIndex(s, x)
  {
    var i := FirstIndex(s, x);
    assert (s + t)[i] == x;
    assert forall k | 0 <= k < i :: (s + t)[k] == s[k];
  }

  /** FirstSeen lists elements by increasing first position. */
  lemma {:induction false} FirstSeenOrdered<T>(s: seq<T>, i: nat, j: nat)
    requires i < j < |FirstSeen(s)|
    ensures FirstIndex(s, FirstSeen(s)[i]) < FirstIndex(s, FirstSeen(s)[j]) < |s|
  {
    var t := s[..|s| - 1];
    var last := s[|s| - 1];
    var before := FirstSeen(t);
    assert s == t + [last];
    FirstSeenMembers(t, before[i]);
    FirstIndexPrefix(t, [last], before[i]);
    if j < |before| {
      FirstSeenOrdered(t, i, j);
      FirstSeenMembers(t, before[j]);
      FirstIndexPrefix(t, [last], before[j]);
    } else {
      FirstSeenMembers(t, last);
      assert forall k | 0 <= k < |t| :: s[k] == t[k] && t[k] != last;
    }
  }

  /** A subsequence selected by a test. */
  function Filter<T>(s: seq<T>, keep: T -> bool): seq<T> {
    if s == [] then []
    else
      var before := Filter(s[..|s| - 1], keep);
      if keep(s[|s| - 1]) then before + [s[|s| - 1]] else before
  }

  lemma {:induction false} FilterMembers<T>(s: seq<T>, keep: T -> bool, x: T)
    ensures x in Filter(s, keep) <==> x in s && keep(x)
  {
    if s != [] {
      FilterMembers(s[..|s| - 1], keep, x);
      assert s == s[..|s| - 1] + [s[|s| - 1]];
    }
  }

  lemma {:induction false} FilterNone<T>(s: seq<T>, keep: T -> bool)
    requires forall x | x in s :: !keep(x)
    ensures Filter(s, keep) == []
  {
    if s != [] {
      FilterNone(s[..|s| - 1], keep);
      assert s[|s| - 1] in s;
    }
  }

  ghost predicate Increasing<T>(s: seq<T>, rank: T -> int) {
    forall i, j :: 0 <= i < j < |s| ==> rank(s[i]) < rank(s[j])
  }

  /** Rank of an element: where `s` has it first. */
  ghost function FirstIn<T>(s: seq<T>): T -> int {
    x => FirstIndex(s, x)
  }

  lemma FirstSeenIncreasing<T>(s: seq<T>)
    ensures Increasing(FirstSeen(s), FirstIn(s))
  {
    forall i, j | 0 <= i < j < |FirstSeen(s)|
      ensures FirstIn(s)(FirstSeen(s)[i]) < FirstIn(s)(FirstSeen(s)[j])
    {
      FirstSeenOrdered(s, i, j);
    }
  }

  /** Members and order determine a sequence. */
  lemma {:induction false} OrderedUnique<T(!new)>(s: seq<T>, t: seq<T>, rank: T -> int)
    requires Increasing(s, rank) && Increasing(t, rank)
    requires forall x :: x in s <==> x in t
    ensures s == t
  {
    assert s != [] ==> s[0] in t;
    assert t != [] ==> t[0] in s;
    if s != [] && t != [] {
      var a, b := s[|s| - 1], t[|t| - 1];
      assert a in s && b in t;
      LastRanksHighest(s, rank, b);
      LastRanksHighest(t, rank, a);
      assert rank(a) == rank(b) && a == b;
      var s', t' := s[..|s| - 1], t[..|t| - 1];
      forall x
        ensures x in s' <==> x in t'
      {
        LastRanksHighest(s, rank, x);
        LastRanksHighest(t, rank, x);
      }
      OrderedUnique(s', t', rank);
      assert s == s' + [a] && t == t' + [a];
    }
  }

  /** What is in an increasing sequence besides its last element ranks below it. */
  lemma LastRanksHighest<T>(s: seq<T>, rank: T -> int, x: T)
    requires s != [] && Increasing(s, rank)
    ensures x in s[..|s| - 1] <==> x in s && x != s[|s| - 1]
    ensures x in s ==> rank(x) <= rank(s[|s| - 1])
  {
    assert s == s[..|s| - 1] + [s[|s| - 1]];
  }

  lemma {:induction false} FilterKeepsOrder<T>(s: seq<T>, keep: T -> bool, rank: T -> int)
    requires Increasing(s, rank)
    ensures Increasing(Filter(s, keep), rank)
  {
    if s != [] {
      var before := s[..|s| - 1];
      FilterKeepsOrder(before, keep, rank);
      forall x | x in Filter(before, keep)
        ensures rank(x) < rank(s[|s| - 1])
      {
        FilterMembers(before, keep, x);
      }
      assert forall i | 0 <= i < |Filter(before, keep)| :: Filter(before, keep)[i] in Filter(before, keep);
    }
  }

  /** What is selected from a prefix starts what is selected from the whole. */
  lemma {:induction false} FilterPrefix<T>(s: seq<T>, keep: T -> bool, k: nat)
    requires k <= |s|
    ensures Filter(s[..k], keep) <= Filter(s, keep)
    decreases |s|
  {
    if k < |s| {
      var before := s[..|s| - 1];
      FilterPrefix(before, keep, k);
      assert before[..k] == s[..k];
    } else {
      assert s[..k] == s;
    }
  }

  /** The first selected element of a sequence without selected ones before it. */
  lemma FirstSelected<T>(s: seq<T>, keep: T -> bool, i: nat)
    requires i < |s| && Filter(s[..i], keep) == []
    ensures keep(s[i]) ==> Filter(s, keep) != [] && Filter(s, keep)[0] == s[i]
    ensures !keep(s[i]) ==> Filter(s[..i + 1], keep) == []
  {
    assert s[..i + 1][..i] == s[..i];
    FilterPrefix(s, keep, i + 1);
    assert keep(s[i]) ==> Filter(s[..i + 1], keep) == [s[i]] && [s[i]][0] == Filter(s, keep)[0];
  }

  /** The first of what is selected is the first element that passes the test. */
  lemma {:induction false} FirstOfFilter<T>(s: seq<T>, keep: T -> bool)
    ensures Filter(s, keep) == [] <==> forall x | x in s :: !keep(x)
    ensures Filter(s, keep) != [] ==> exists i :: IsFirst(s, keep, i) && Filter(s, keep)[0] == s[i]
  {
    if s != [] {
      var n := |s| - 1;
      FirstOfFilter(s[..n], keep);
      assert s == s[..n] + [s[n]];
      if Filter(s[..n], keep) != [] {
        var i :| IsFirst(s[..n], keep, i) && Filter(s[..n], keep)[0] == s[..n][i];
        assert IsFirst(s, keep, i);
      } else if keep(s[n]) {
        assert IsFirst(s, keep, n);
      }
    }
  }

  ghost predicate IsFirst<T>(s: seq<T>, keep: T -> bool, i: int) {
    0 <= i < |s| && keep(s[i]) && forall j | 0 <= j < i :: !keep(s[j])
  }

  function Tally(s: seq<nat>): nat {
    if s == [] then 0 else Tally(s[..|s| - 1]) + s[|s| - 1]
  }

  /** Raising one entry by one raises the sum by one. */
  lemma {:induction false} TallyPoint(s: seq<nat>, t: seq<nat>, at: nat)
    requires |s| == |t| && at < |s|
    requires forall i | 0 <= i < |s| :: t[i] == if i == at then s[i] + 1 else s[i]
    ensures Tally(t) == Tally(s) + 1
  {
    var last := |s| - 1;
    if at < last {
      TallyPoint(s[..last], t[..last], at);
    } else {
      assert s[..last] == t[..last];
    }
  }
}
