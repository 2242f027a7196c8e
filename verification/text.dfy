/** Character-level helpers for the string handling of the port:
    - `std::isspace` in the classic locale,
    - `boost::trim_copy`, `boost::starts_with`, `boost::ends_with`,
    - `is >> str` (one whitespace-delimited token) and plain concatenation.
 */
module Text {

  /** `std::isspace` in the "C" locale: space, \t, \n, \v, \f, \r. */
  predicate IsSpace(c: char) {
    c == ' ' || c == '\t' || c == '\n' || c == '\U{0B}' || c == '\U{0C}' || c == '\r'
  }

  predicate AllSpaces(s: string) {
    forall k :: 0 <= k < |s| ==> IsSpace(s[k])
  }

  predicate HasSpace(s: string) {
    exists k :: 0 <= k < |s| && IsSpace(s[k])
  }

  predicate StartsWith(s: string, prefix: string) {
    |prefix| <= |s| && s[..|prefix|] == prefix
  }

  predicate EndsWith(s: string, suffix: string) {
    |suffix| <= |s| && s[|s| - |suffix|..] == suffix
  }

  /** The first index at or after `from` that does not hold a space. */
  function SkipSpaces(s: string, from: nat): (r: nat)
    requires from <= |s|
    ensures from <= r <= |s|
    ensures forall k :: from <= k < r ==> IsSpace(s[k])
    ensures r < |s| ==> !IsSpace(s[r])
    decreases |s| - from
  {
    if from == |s| || !IsSpace(s[from]) then from else SkipSpaces(s, from + 1)
  }

  /** The first index at or after `from` that holds a space, or |s|. */
  function SkipWord(s: string, from: nat): (r: nat)
    requires from <= |s|
    ensures from <= r <= |s|
    ensures forall k :: from <= k < r ==> !IsSpace(s[k])
    ensures r < |s| ==> IsSpace(s[r])
    decreases |s| - from
  {
    if from == |s| || IsSpace(s[from]) then from else SkipWord(s, from + 1)
  }

  /** One past the last non-space character of `s[..upto]`, or 0 when there is none. */
  function TrimStop(s: string, upto: nat): (r: nat)
    requires upto <= |s|
    ensures r <= upto
    ensures forall k :: r <= k < upto ==> IsSpace(s[k])
    ensures r > 0 ==> !IsSpace(s[r - 1])
  {
    if upto == 0 || !IsSpace(s[upto - 1]) then upto else TrimStop(s, upto - 1)
  }

  /** `boost::trim_copy`: `s` without its leading and trailing spaces. */
  function Trim(s: string): (r: string)
    ensures |r| <= |s|
    ensures r == [] || (!IsSpace(r[0]) && !IsSpace(r[|r| - 1]))
    ensures r == [] ==> AllSpaces(s)
    ensures r != [] ==> var a := SkipSpaces(s, 0);
              a + |r| <= |s| && s[a..a + |r|] == r && AllSpaces(s[a + |r|..])
  {
    var a := SkipSpaces(s, 0);
    if a == |s| then [] else s[a..TrimStop(s, |s|)]
  }

  /** `is >> str` on a stream holding `s`: the first whitespace-delimited token,
      or the empty string when `s` holds only whitespace. */
  function ReadToken(s: string): (r: string)
    ensures !HasSpace(r)
    ensures r == [] <==> AllSpaces(s)
    ensures var a := SkipSpaces(s, 0); a + |r| <= |s| && s[a..a + |r|] == r
    ensures var a := SkipSpaces(s, 0); a + |r| < |s| ==> IsSpace(s[a + |r|])
  {
    var a := SkipSpaces(s, 0);
    s[a..SkipWord(s, a)]
  }

  /** The parts written one after the other. */
  function Concat(parts: seq<string>): string {
    if parts == [] then [] else Concat(parts[..|parts| - 1]) + parts[|parts| - 1]
  }

  /** The sum of the lengths of the parts. */
  function TotalLength(parts: seq<string>): nat {
    if parts == [] then 0 else TotalLength(parts[..|parts| - 1]) + |parts[|parts| - 1]|
  }

  /** Writing the parts one after the other adds nothing between them. */
  lemma {:induction false} ConcatLength(parts: seq<string>)
    ensures |Concat(parts)| == TotalLength(parts)
  {
    if parts != [] {
      ConcatLength(parts[..|parts| - 1]);
    }
  }

  /** A string without spaces, with nothing around it, reads back as itself. */
  lemma ReadTokenOfWord(w: string)
    requires w != [] && !HasSpace(w)
    ensures ReadToken(w) == w
  {
    assert !IsSpace(w[0]);
    assert SkipSpaces(w, 0) == 0;
  }

  /** A word with only whitespace around it reads back as itself. */
  lemma ReadTokenSurrounded(lead: string, w: string, trail: string)
    requires AllSpaces(lead) && AllSpaces(trail)
    requires w != [] && !HasSpace(w)
    ensures ReadToken(lead + w + trail) == w
  {
    var s := lead + w + trail;
    assert s[|lead|] == w[0];
    assert SkipSpaces(s, 0) == |lead|;
    assert SkipWord(s, |lead|) == |lead| + |w| by {
      assert |lead| + |w| < |s| ==> s[|lead| + |w|] == trail[0];
    }
    assert s[|lead|..|lead| + |w|] == w;
  }

  /** A word with only whitespace around it trims to itself. */
  lemma TrimSurrounded(lead: string, w: string, trail: string)
    requires AllSpaces(lead) && AllSpaces(trail)
    requires w != [] && !HasSpace(w)
    ensures Trim(lead + w + trail) == w
  {
    var s := lead + w + trail;
    assert s[|lead|] == w[0];
    assert SkipSpaces(s, 0) == |lead|;
    assert s[|lead| + |w| - 1] == w[|w| - 1];
    assert TrimStop(s, |s|) == |lead| + |w| by {
      assert forall k :: |lead| + |w| <= k < |s| ==> s[k] == trail[k - |lead| - |w|];
    }
    assert s[|lead|..|lead| + |w|] == w;
  }

  /** A string holding a space reads back as something shorter: only its first word. */
  lemma ReadTokenStopsAtSpace(s: string)
    requires s != [] && !IsSpace(s[0]) && HasSpace(s)
    ensures |ReadToken(s)| < |s|
    ensures ReadToken(s) == s[..|ReadToken(s)|]
  {
    var k :| 0 <= k < |s| && IsSpace(s[k]);
    assert SkipSpaces(s, 0) == 0;
  }
}
