/** The sprint roster as a value: an ordered list of developers and the
    three views the store derives from it (team total, top performer,
    filtered list). */
module Roster {
  import opened Text

  datatype Option<T> = None | Some(value: T)

  /** One row of the roster: a developer's name and story points. */
  datatype Developer = Developer(name: string, sp: int)

  /** The roster a new store starts with. */
  function Seed(): (r: seq<Developer>)
    ensures |r| == 3
    ensures forall i :: 0 <= i < |r| ==> r[i].name != "" && r[i].sp > 0
    ensures forall i, j :: 0 <= i < j < |r| ==> r[j].sp < r[i].sp
  {
    [Developer("Jack", 12), Developer("Max", 10), Developer("Leo", 8)]
  }

  // ---------------------------------------------------------------- total

  /** Sum of story points, folded from the left starting at 0 as `reduce` does. */
  function SumSp(s: seq<Developer>): (r: int)
    ensures (forall i :: 0 <= i < |s| ==> s[i].sp >= 0) ==>
      r >= 0 && forall i :: 0 <= i < |s| ==> s[i].sp <= r
  {
    if s == [] then 0
    else
      assert forall i :: 0 <= i < |s| - 1 ==> s[..|s| - 1][i] == s[i];
      SumSp(s[..|s| - 1]) + s[|s| - 1].sp
  }

  /** A non-empty roster is its prefix followed by its last developer. */
  lemma SplitLast(s: seq<Developer>)
    requires s != []
    ensures s[..|s| - 1] + [s[|s| - 1]] == s
  {
  }

  /** The total of a concatenation is the sum of the totals. */
  lemma {:induction false} SumSpAppend(a: seq<Developer>, b: seq<Developer>)
    ensures SumSp(a + b) == SumSp(a) + SumSp(b)
    decreases |b|
  {
    if b != [] {
      assert (a + b)[..|a + b| - 1] == a + b[..|b| - 1];
      SumSpAppend(a, b[..|b| - 1]);
    } else {
      assert a + b == a;
    }
  }

  /** Adding one developer raises the total by exactly their points. */
  lemma SumSpPush(s: seq<Developer>, d: Developer)
    ensures SumSp(s + [d]) == SumSp(s) + d.sp
  {
    assert (s + [d])[..|s|] == s;
  }

  /** Folding from the right gives the same total as the left fold. */
  lemma {:induction false} SumSpFront(s: seq<Developer>)
    requires s != []
    ensures SumSp(s) == s[0].sp + SumSp(s[1..])
  {
    SumSpAppend([s[0]], s[1..]);
    assert [s[0]] + s[1..] == s;
    assert [s[0]][..0] == [];
  }

  // ------------------------------------------------------ top performer

  function Max(a: int, b: int): int {
    if a < b then b else a
  }

  /** The largest score in a non-empty roster (`Math.max` over the scores). */
  function MaxSp(s: seq<Developer>): (m: int)
    requires s != []
    ensures exists i :: 0 <= i < |s| && s[i].sp == m
    ensures forall i :: 0 <= i < |s| ==> s[i].sp <= m
  {
    if |s| == 1 then s[0].sp
    else
      var m := Max(MaxSp(s[..|s| - 1]), s[|s| - 1].sp);
      assert forall i :: 0 <= i < |s| - 1 ==> s[..|s| - 1][i] == s[i];
      m
  }

  /** The `find` callback: the score is the maximum and the name is truthy,
      that is, not the empty string. */
  predicate IsTop(d: Developer, m: int)
    ensures IsTop(d, m) <==> d.sp == m && |d.name| > 0
  {
    d.sp == m && d.name != ""
  }

  /** Index of the first developer accepted by the `find` callback. */
  function FindFirst(s: seq<Developer>, m: int): (r: Option<nat>)
    ensures r.Some? ==> r.value < |s| && IsTop(s[r.value], m)
    ensures r.Some? ==> forall j :: 0 <= j < r.value ==> !IsTop(s[j], m)
    ensures r.None? ==> forall j :: 0 <= j < |s| ==> !IsTop(s[j], m)
  {
    if s == [] then None
    else if IsTop(s[0], m) then Some(0)
    else
      match FindFirst(s[1..], m)
      case None => None
      case Some(k) => Some(k + 1)
  }

  /** The store's top performer: absent for an empty roster; otherwise the
      first named developer whose score is the maximum, if there is one. */
  function TopPerformer(s: seq<Developer>): (r: Option<Developer>)
    ensures s == [] ==> r == None
    ensures r.Some? ==> forall i :: 0 <= i < |s| ==> s[i].sp <= r.value.sp
    ensures r.Some? ==> r.value.name != ""
    ensures s != [] ==>
      (r.Some? <==> exists i :: 0 <= i < |s| && IsTop(s[i], MaxSp(s)))
    ensures r.Some? ==>
      exists i :: 0 <= i < |s| && s[i] == r.value && IsTop(s[i], MaxSp(s)) &&
        forall j :: 0 <= j < i ==> !IsTop(s[j], MaxSp(s))
  {
    if s == [] then None
    else
      match FindFirst(s, MaxSp(s))
      case None => None
      case Some(i) => Some(s[i])
  }

  /** Appending keeps the first accepted index, or finds the new element. */
  lemma FindFirstPush(s: seq<Developer>, d: Developer, m: int)
    ensures FindFirst(s + [d], m) ==
      match FindFirst(s, m)
      case Some(i) => Some(i)
      case None => if IsTop(d, m) then Some(|s|) else None
  {
    var t := s + [d];
    assert forall j :: 0 <= j < |s| ==> t[j] == s[j];
    assert t[|s|] == d;
  }

  /** How the top performer changes when one developer is added at the end:
      a lower score changes nothing, an equal score only fills a missing top,
      a strictly higher score (or an empty roster) makes the newcomer the top
      unless their name is empty. */
  lemma TopPerformerPush(s: seq<Developer>, d: Developer)
    ensures s != [] && d.sp < MaxSp(s) ==> TopPerformer(s + [d]) == TopPerformer(s)
    ensures s != [] && d.sp == MaxSp(s) ==>
      TopPerformer(s + [d]) ==
        if TopPerformer(s).Some? then TopPerformer(s)
        else if d.name != "" then Some(d) else None
    ensures s == [] || d.sp > MaxSp(s) ==>
      TopPerformer(s + [d]) == if d.name != "" then Some(d) else None
  {
    var t := s + [d];
    assert t[..|s|] == s;
    if s == [] {
      assert t == [d];
    } else {
      var m := MaxSp(s);
      assert MaxSp(t) == Max(m, d.sp);
      FindFirstPush(s, d, MaxSp(t));
      if d.sp > m {
        assert forall j :: 0 <= j < |s| ==> !IsTop(s[j], MaxSp(t));
      }
    }
  }

  // --------------------------------------------------------- filtering

  /** The record passes the filter: its name matches case-insensitively. */
  predicate NameMatches(filter: string, d: Developer)
    ensures NameMatches(filter, d) <==> exists i: nat :: OccursAt(Lower(d.name), Lower(filter), i)
    ensures filter == "" ==> NameMatches(filter, d)
  {
    MatchesIgnoringCase(filter, d.name)
  }

  /** `Array.prototype.filter` with the matcher: every matching developer,
      in roster order, as many times as they occur. */
  function KeepMatching(s: seq<Developer>, filter: string): (r: seq<Developer>)
    ensures |r| <= |s|
    ensures forall d :: d in r <==> d in s && NameMatches(filter, d)
    ensures forall d :: multiset(r)[d] == if NameMatches(filter, d) then multiset(s)[d] else 0
  {
    if s == [] then []
    else
      var init := s[..|s| - 1];
      var last := s[|s| - 1];
      assert s == init + [last];
      KeepMatching(init, filter) + (if NameMatches(filter, last) then [last] else [])
  }

  /** The filtered view: the whole roster when the filter is empty, the
      matching developers otherwise. */
  function FilteredDevelopers(s: seq<Developer>, filter: string): (r: seq<Developer>)
    ensures filter == "" ==> r == s
    ensures forall d :: d in r <==> d in s && NameMatches(filter, d)
    ensures forall d :: multiset(r)[d] == if NameMatches(filter, d) then multiset(s)[d] else 0
  {
    if filter == "" then
      assert forall d :: NameMatches(filter, d) by {
        forall d ensures NameMatches(filter, d) { EmptyMatchesAll(d.name); }
      }
      s
    else KeepMatching(s, filter)
  }

  /** The `!filter` shortcut changes nothing: the matcher built from the
      empty filter keeps every developer. */
  lemma {:induction false} EmptyFilterKeepsAll(s: seq<Developer>)
    ensures KeepMatching(s, "") == s
  {
    if s != [] {
      var init, last := s[..|s| - 1], s[|s| - 1];
      EmptyFilterKeepsAll(init);
      assert NameMatches("", last) by { EmptyMatchesAll(last.name); }
      SplitLast(s);
    }
  }

  /** Adding one developer extends the filtered view by that developer
      exactly when they match. */
  lemma FilteredPush(s: seq<Developer>, filter: string, d: Developer)
    ensures FilteredDevelopers(s + [d], filter) ==
      FilteredDevelopers(s, filter) + if NameMatches(filter, d) then [d] else []
  {
    assert (s + [d])[..|s|] == s;
    if filter == "" {
      EmptyMatchesAll(d.name);
    }
  }

  /** `a` is an order-preserving subsequence of `b`: the last element of `b`
      is either the last element of `a` or skipped. */
  ghost predicate IsSubsequence(a: seq<Developer>, b: seq<Developer>)
    decreases |b|
  {
    if b == [] then a == []
    else
      (a != [] && a[|a| - 1] == b[|b| - 1] && IsSubsequence(a[..|a| - 1], b[..|b| - 1]))
      || IsSubsequence(a, b[..|b| - 1])
  }

  /** The matcher keeps an order-preserving subsequence of the roster. */
  lemma {:induction false} KeepMatchingIsSubsequence(s: seq<Developer>, filter: string)
    ensures IsSubsequence(KeepMatching(s, filter), s)
  {
    if s != [] {
      var init, last := s[..|s| - 1], s[|s| - 1];
      KeepMatchingIsSubsequence(init, filter);
      var k := KeepMatching(init, filter);
      if NameMatches(filter, last) {
        var r := k + [last];
        assert KeepMatching(s, filter) == r;
        assert r[..|r| - 1] == k && r[|r| - 1] == last;
      } else {
        assert KeepMatching(s, filter) == k;
      }
    }
  }

  /** Every sequence is a subsequence of itself. */
  lemma {:induction false} SubsequenceReflexive(s: seq<Developer>)
    ensures IsSubsequence(s, s)
  {
    if s != [] {
      SubsequenceReflexive(s[..|s| - 1]);
    }
  }

  /** The filtered view is an order-preserving subsequence of the roster. */
  lemma FilteredIsSubsequence(s: seq<Developer>, filter: string)
    ensures IsSubsequence(FilteredDevelopers(s, filter), s)
  {
    if filter == "" {
      SubsequenceReflexive(s);
    } else {
      KeepMatchingIsSubsequence(s, filter);
    }
  }

  /** An unnamed developer with the maximum score is passed over: here the
      roster is non-empty but has no top performer at all. */
  lemma UnnamedMaxIsSkipped()
    ensures TopPerformer([Developer("", 5), Developer("Bo", 3)]) == None
  {
    var s := [Developer("", 5), Developer("Bo", 3)];
    assert MaxSp(s) == 5;
  }

  // ------------------------------------------------------ seed roster

  /** The total of three developers is the sum of their points. */
  lemma SumOfThree(a: Developer, b: Developer, c: Developer)
    ensures SumSp([a, b, c]) == a.sp + b.sp + c.sp
  {
    SumSpPush([a], b);
    assert [a] + [b] == [a, b];
    SumSpPush([a, b], c);
    assert [a, b] + [c] == [a, b, c];
  }

  /** In a roster of three with strictly falling scores, a named first
      developer is the top performer. */
  lemma TopOfThree(a: Developer, b: Developer, c: Developer)
    requires a.name != "" && b.sp < a.sp && c.sp < a.sp
    ensures TopPerformer([a, b, c]) == Some(a)
  {
    var s := [a, b, c];
    assert MaxSp(s) == a.sp;
    assert FindFirst(s, a.sp) == Some(0);
  }

  /** The seed roster totals 30 points and Jack is on top. */
  lemma SeedViews()
    ensures SumSp(Seed()) == 30
    ensures TopPerformer(Seed()) == Some(Developer("Jack", 12))
  {
    SumOfThree(Developer("Jack", 12), Developer("Max", 10), Developer("Leo", 8));
    TopOfThree(Developer("Jack", 12), Developer("Max", 10), Developer("Leo", 8));
  }

  /** "a" occurs, ignoring case, in "Jack" and "Max" but not in "Leo". */
  lemma SeedNamesAgainstA()
    ensures MatchesIgnoringCase("a", "Jack") && MatchesIgnoringCase("a", "Max")
    ensures !MatchesIgnoringCase("a", "Leo")
  {
    assert Lower("a") == "a";
    assert OccursAt(Lower("Jack"), "a", 1);
    assert OccursAt(Lower("Max"), "a", 1);
    assert Lower("Leo") == "leo";
    assert "leo"[1..] == "eo" && "eo"[1..] == "o" && "o"[1..] == "";
    assert "o"[..1] == "o" && !Contains("", "a");
    assert !Contains("o", "a");
    assert !Contains("eo", "a");
  }

  /** Filtering three developers unrolls into three single tests. */
  lemma FilteredOfThree(a: Developer, b: Developer, c: Developer, f: string)
    ensures FilteredDevelopers([a, b, c], f) ==
      (if NameMatches(f, a) then [a] else []) +
      (if NameMatches(f, b) then [b] else []) +
      (if NameMatches(f, c) then [c] else [])
  {
    FilteredPush([], f, a);
    assert [] + [a] == [a];
    FilteredPush([a], f, b);
    assert [a] + [b] == [a, b];
    FilteredPush([a, b], f, c);
    assert [a, b] + [c] == [a, b, c];
  }

  /** Filtering the seed roster by "a" keeps Jack and Max, dropping Leo. */
  lemma SeedFilteredByA()
    ensures FilteredDevelopers(Seed(), "a") == [Developer("Jack", 12), Developer("Max", 10)]
  {
    SeedNamesAgainstA();
    FilteredOfThree(Developer("Jack", 12), Developer("Max", 10), Developer("Leo", 8), "a");
  }

  /** Adding Ann with 12 points to the seed roster: 42 points, and Jack
      stays on top because the earlier of two tied developers wins. */
  lemma SeedWithAnn()
    ensures SumSp(Seed() + [Developer("Ann", 12)]) == 42
    ensures TopPerformer(Seed() + [Developer("Ann", 12)]) == Some(Developer("Jack", 12))
  {
    SeedViews();
    SumSpPush(Seed(), Developer("Ann", 12));
    TopPerformerPush(Seed(), Developer("Ann", 12));
  }
}
