/** String operations the handlers and pages rely on: ASCII case folding,
    substring search, and replacing the first occurrence of a pattern. */
module Text {

  /** ASCII lower-casing of one character; every other character is kept. */
  function LowerChar(c: char): (d: char)
    ensures 'A' <= c <= 'Z' ==> d as int == c as int + 32
    ensures !('A' <= c <= 'Z') ==> d == c
    ensures !('A' <= d <= 'Z')
  {
    if 'A' <= c <= 'Z' then (c as int + 32) as char else c
  }

  /** `String.prototype.toLowerCase`, restricted to ASCII letters. */
  function Lower(s: string): (r: string)
    ensures |r| == |s|
    ensures forall i | 0 <= i < |s| :: r[i] == LowerChar(s[i])
  {
    if s == [] then [] else [LowerChar(s[0])] + Lower(s[1..])
  }

  /** `s.includes(sub)`: `sub` occurs in `s` at some position (the empty string
      occurs everywhere). */
  predicate Includes(s: string, sub: string) {
    exists i | 0 <= i <= |s| - |sub| :: OccursAt(s, sub, i)
  }

  /** `sub` occurs in `s` starting at index `i`. */
  predicate OccursAt(s: string, sub: string, i: int) {
    0 <= i <= |s| - |sub| && s[i..i + |sub|] == sub
  }

  /** Case-insensitive containment, as both the report list query
      (`contains` with `mode: 'insensitive'`) and the feed page
      (`toLowerCase().includes`) use it. */
  predicate ContainsInsensitive(s: string, sub: string) {
    Includes(Lower(s), Lower(sub))
  }

  /** The search rule shared by the server list and the feed page: the search
      text occurs, ignoring case, in the title or in the description. */
  predicate MatchesSearch(title: string, description: string, search: string) {
    ContainsInsensitive(title, search) || ContainsInsensitive(description, search)
  }

  lemma EmptySearchMatchesEverything(title: string, description: string)
    ensures MatchesSearch(title, description, "")
  {
    assert OccursAt(Lower(title), Lower(""), 0);
  }

  lemma {:induction false} LowerIdempotent(s: string)
    ensures Lower(Lower(s)) == Lower(s)
  {
    var l := Lower(s);
    var ll := Lower(l);
    assert |ll| == |l|;
    forall i | 0 <= i < |l| ensures ll[i] == l[i] {
      assert l[i] == LowerChar(s[i]);
    }
  }

  /** Case-insensitive search does not care about the case of the search text. */
  lemma SearchIgnoresCaseOfQuery(title: string, description: string, search: string)
    ensures MatchesSearch(title, description, Lower(search)) == MatchesSearch(title, description, search)
  {
    LowerIdempotent(search);
  }

  /** `String.prototype.replace(pat, rep)` with a string pattern: only the first
      occurrence of `pat` is replaced. */
  function ReplaceFirst(s: string, pat: string, rep: string): (r: string)
    requires pat != []
    decreases |s|
  {
    if |s| < |pat| then s
    else if s[..|pat|] == pat then rep + s[|pat|..]
    else [s[0]] + ReplaceFirst(s[1..], pat, rep)
  }

  /** A string that starts with the pattern loses exactly that prefix. */
  lemma ReplaceFirstAtStart(pat: string, rest: string, rep: string)
    requires pat != []
    ensures ReplaceFirst(pat + rest, pat, rep) == rep + rest
  {
    assert (pat + rest)[..|pat|] == pat;
    assert (pat + rest)[|pat|..] == rest;
  }

  /** A string in which the pattern does not occur is returned unchanged. */
  lemma {:induction false} ReplaceFirstAbsent(s: string, pat: string, rep: string)
    requires pat != [] && !Includes(s, pat)
    ensures ReplaceFirst(s, pat, rep) == s
    decreases |s|
  {
    if |s| >= |pat| {
      assert s[0..|pat|] == s[..|pat|];
      assert !OccursAt(s, pat, 0);
      assert !Includes(s[1..], pat) by {
        forall i | OccursAt(s[1..], pat, i) ensures OccursAt(s, pat, i + 1) {
          assert s[1..][i..i + |pat|] == s[i + 1..i + 1 + |pat|];
        }
      }
      ReplaceFirstAbsent(s[1..], pat, rep);
    }
  }
}
