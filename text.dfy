/** ASCII case folding and literal substring search: the part of a
    case-insensitive regular-expression test that the roster filter uses
    when the filter text holds no pattern syntax. */
module Text {

  predicate IsUpper(c: char) {
    'A' <= c <= 'Z'
  }

  /** The ASCII lower-case form of one character; every other character is kept. */
  function LowerChar(c: char): (r: char)
    ensures !IsUpper(r)
    ensures !IsUpper(c) ==> r == c
    ensures IsUpper(c) ==> 'a' <= r <= 'z' && r as int - c as int == 'a' as int - 'A' as int
  {
    if IsUpper(c) then (c as int - 'A' as int + 'a' as int) as char else c
  }

  /** The ASCII lower-case form of a string, character by character. */
  function Lower(s: string): (r: string)
    ensures |r| == |s|
    ensures forall i :: 0 <= i < |r| ==> !IsUpper(r[i])
    ensures forall i :: 0 <= i < |s| ==>
      (!IsUpper(s[i]) ==> r[i] == s[i]) &&
      (IsUpper(s[i]) ==> r[i] as int - s[i] as int == 'a' as int - 'A' as int)
  {
    seq(|s|, i requires 0 <= i < |s| => LowerChar(s[i]))
  }

  /** Lower-casing twice is lower-casing once. */
  lemma LowerIdempotent(s: string)
    ensures Lower(Lower(s)) == Lower(s)
  {
  }

  /** Lower-casing commutes with taking a slice. */
  lemma LowerSlice(s: string, i: nat, j: nat)
    requires i <= j <= |s|
    ensures Lower(s)[i..j] == Lower(s[i..j])
  {
  }

  /** `pat` occurs in `text` starting at position `i`. */
  predicate OccursAt(text: string, pat: string, i: nat) {
    i + |pat| <= |text| && text[i..i + |pat|] == pat
  }

  /** Unanchored literal search: does `pat` occur anywhere in `text`? */
  function Contains(text: string, pat: string): (r: bool)
    ensures r <==> exists i: nat :: OccursAt(text, pat, i)
    decreases |text|
  {
    if |pat| > |text| then false
    else if text[..|pat|] == pat then assert OccursAt(text, pat, 0); true
    else
      var rest := Contains(text[1..], pat);
      assert forall i: nat :: OccursAt(text[1..], pat, i) <==> OccursAt(text, pat, i + 1) by {
        forall i: nat ensures OccursAt(text[1..], pat, i) <==> OccursAt(text, pat, i + 1) {
          if i + |pat| <= |text[1..]| {
            assert text[1..][i..i + |pat|] == text[i + 1..i + 1 + |pat|];
          }
        }
      }
      assert !OccursAt(text, pat, 0);
      assert forall i: nat :: OccursAt(text, pat, i) ==> i > 0 && OccursAt(text[1..], pat, i - 1);
      rest
  }

  /** The empty pattern occurs in every text. */
  lemma ContainsEmpty(text: string)
    ensures Contains(text, "")
  {
    assert OccursAt(text, "", 0);
  }

  /** The case-insensitive test used by the filter: the lower-cased name
      contains the lower-cased filter text. */
  predicate MatchesIgnoringCase(pat: string, name: string)
    ensures MatchesIgnoringCase(pat, name) <==> exists i: nat :: OccursAt(Lower(name), Lower(pat), i)
    ensures pat == "" ==> MatchesIgnoringCase(pat, name)
  {
    assert pat == "" ==> OccursAt(Lower(name), Lower(pat), 0);
    Contains(Lower(name), Lower(pat))
  }

  /** A literal occurrence is also a case-insensitive one. */
  lemma {:induction false} ContainsImpliesMatches(name: string, pat: string)
    requires Contains(name, pat)
    ensures MatchesIgnoringCase(pat, name)
  {
    var i: nat :| OccursAt(name, pat, i);
    LowerSlice(name, i, i + |pat|);
    assert OccursAt(Lower(name), Lower(pat), i);
  }

  /** The test does not see the case of either argument. */
  lemma MatchesIgnoresCase(pat: string, name: string)
    ensures MatchesIgnoringCase(Lower(pat), name) == MatchesIgnoringCase(pat, name)
    ensures MatchesIgnoringCase(pat, Lower(name)) == MatchesIgnoringCase(pat, name)
  {
    LowerIdempotent(pat);
    LowerIdempotent(name);
  }

  /** The empty filter text matches every name. */
  lemma EmptyMatchesAll(name: string)
    ensures MatchesIgnoringCase("", name)
  {
    assert Lower("") == "";
    ContainsEmpty(Lower(name));
  }
}
