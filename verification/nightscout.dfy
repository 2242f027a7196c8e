/** The data-fetch layer for a Nightscout site, without the download itself:
    - the query-string builder for a date range,
    - the start of the query window,
    - the URLs,
    - the ordering of the decoded records,
    - the three list printers.
    Time points are whole seconds since the epoch. The date formatter and the
    printers of single records are parameters, since their text is produced
    by libraries outside this model.
 */
module Nightscout {
  import Numeric
  import Text

  /** The `date::format` pattern used for every time point in a query. */
  const IsoPattern: string := "%FT%TZ"

  /** `build_nightscout_date_range`: both bounds, inclusive, on one field:
      the query opens with the lower bound and closes with the upper one,
      which share the one `&` between them and leave nothing else. */
  function DateRange(field: string, start: int, end: int, format: (string, int) -> string): (q: string)
    ensures Text.StartsWith(q, "find[" + field + "][$gte]=" + format(IsoPattern, start) + "&")
    ensures Text.EndsWith(q, "&find[" + field + "][$lte]=" + format(IsoPattern, end))
    ensures |q| == |"find[" + field + "][$gte]=" + format(IsoPattern, start)| +
                   |"&find[" + field + "][$lte]=" + format(IsoPattern, end)|
  {
    "find[" + field + "][$gte]=" + format(IsoPattern, start) +
    "&find[" + field + "][$lte]=" + format(IsoPattern, end)
  }

  /** A text that opens with `lo&`, closes with `&hi` and is one character
      shorter than both together is exactly `lo&hi`: `DateRange`'s contract
      pins the query. */
  lemma PrefixSuffixDetermine(q: string, lo: string, hi: string)
    requires Text.StartsWith(q, lo + "&") && Text.EndsWith(q, "&" + hi)
    requires |q| == |lo| + |"&" + hi|
    ensures q == lo + "&" + hi
  {
    assert q[..|lo| + 1] == lo + "&";
    assert q[|lo|..] == "&" + hi;
    assert q == q[..|lo|] + q[|lo|..];
  }

  /** The query is exactly the two bounds joined by one `&`, which follows
      from `DateRange`'s contract alone. */
  lemma DateRangeExact(field: string, start: int, end: int, format: (string, int) -> string)
    ensures DateRange(field, start, end, format) ==
            "find[" + field + "][$gte]=" + format(IsoPattern, start) + "&find[" + field + "][$lte]=" + format(IsoPattern, end)
  {
    var lo := "find[" + field + "][$gte]=" + format(IsoPattern, start);
    var hi := "find[" + field + "][$lte]=" + format(IsoPattern, end);
    assert "&find[" + field + "][$lte]=" + format(IsoPattern, end) == "&" + hi;
    PrefixSuffixDetermine(DateRange(field, start, end, format), lo, hi);
  }

  predicate NoAmpersand(s: string) {
    forall k :: 0 <= k < |s| ==> s[k] != '&'
  }

  /** Two texts joined at an `&` that neither left part holds split back apart. */
  lemma SplitAtFirstAmpersand(x: string, u: string, y: string, v: string)
    requires NoAmpersand(x) && NoAmpersand(y)
    requires x + "&" + u == y + "&" + v
    ensures x == y && u == v
  {
    var s := x + "&" + u;
    assert |x| == |y| by {
      assert s[|x|] == '&' && (y + "&" + v)[|y|] == '&';
    }
    assert x == s[..|x|] == y;
    assert u == s[|x| + 1..] == v;
  }

  /** When neither the field nor the formatted dates hold an `&`, the query
      determines both formatted bounds. */
  lemma DateRangeDeterminesBounds(field: string, a: int, b: int, c: int, d: int, format: (string, int) -> string)
    requires NoAmpersand(field)
    requires NoAmpersand(format(IsoPattern, a)) && NoAmpersand(format(IsoPattern, c))
    requires DateRange(field, a, b, format) == DateRange(field, c, d, format)
    ensures format(IsoPattern, a) == format(IsoPattern, c)
    ensures format(IsoPattern, b) == format(IsoPattern, d)
  {
    var p := "find[" + field + "][$gte]=";
    var q := "find[" + field + "][$lte]=";
    var x, y := p + format(IsoPattern, a), p + format(IsoPattern, c);
    var u, v := q + format(IsoPattern, b), q + format(IsoPattern, d);
    assert NoAmpersand(p) by {
      assert forall k :: 0 <= k < |p| ==> p[k] in "find[][$gte]=" || p[k] in field;
    }
    assert NoAmpersand(x) by {
      assert forall k :: |p| <= k < |x| ==> x[k] == format(IsoPattern, a)[k - |p|];
    }
    assert NoAmpersand(y) by {
      assert forall k :: |p| <= k < |y| ==> y[k] == format(IsoPattern, c)[k - |p|];
    }
    assert x + "&" + u == DateRange(field, a, b, format);
    assert y + "&" + v == DateRange(field, c, d, format);
    SplitAtFirstAmpersand(x, u, y, v);
    assert format(IsoPattern, a) == x[|p|..] == y[|p|..] == format(IsoPattern, c);
    assert format(IsoPattern, b) == u[|q|..] == v[|q|..] == format(IsoPattern, d);
  }

  /** `floor<days>(tp - 24h)`: the start of the day before the one holding `t`
      (or of the day `t` starts, when it falls on midnight). Dafny's `/` on a
      positive divisor rounds down, as `floor` does for negative times too. */
  function QueryWindowStart(t: int): (r: int)
    ensures r % Numeric.SecondsPerDay == 0
    ensures r <= t - Numeric.SecondsPerDay < r + Numeric.SecondsPerDay
  {
    ((t - Numeric.SecondsPerDay) / Numeric.SecondsPerDay) * Numeric.SecondsPerDay
  }

  /** The window always reaches back at least one day and at most two. */
  lemma QueryWindowCoversPreviousDay(t: int)
    ensures t - 2 * Numeric.SecondsPerDay < QueryWindowStart(t) <= t - Numeric.SecondsPerDay
  {
  }

  /** The profile URL: the profile endpoint appended to the site's base URL. */
  function ProfilesUrl(baseUrl: string): (url: string)
    ensures Text.StartsWith(url, baseUrl)
    ensures Text.EndsWith(url, "/api/v1/profile.json")
  {
    baseUrl + "/api/v1/profile.json"
  }

  /** The entries URL: the years of both ends, every month, then the range on
      "dateString". The text of a year is a parameter. */
  function EntriesUrl(baseUrl: string, start: int, end: int, yearText: int -> string,
                      format: (string, int) -> string): (url: string)
    ensures Text.EndsWith(url, DateRange("dateString", QueryWindowStart(start), end, format))
  {
    var range := DateRange("dateString", QueryWindowStart(start), end, format);
    var head := baseUrl + "/api/v1/times/{" + yearText(start) + ".." + yearText(end) +
      "}-{1..12}.json?count=1000000&";
    assert (head + range)[|head + range| - |range|..] == range;
    head + range
  }

  /** The treatments URL: the range on "created_at". */
  function TreatmentsUrl(baseUrl: string, start: int, end: int, format: (string, int) -> string): (url: string)
    ensures Text.EndsWith(url, DateRange("created_at", QueryWindowStart(start), end, format))
  {
    var range := DateRange("created_at", QueryWindowStart(start), end, format);
    var head := baseUrl + "/api/v1/treatments.json?count=1000000&";
    assert (head + range)[|head + range| - |range|..] == range;
    head + range
  }

  // ---------------------------------------------------------------------------
  // Ordering of the decoded records

  predicate SortedBy<T>(s: seq<T>, key: T -> int) {
    forall i, j :: 0 <= i < j < |s| ==> key(s[i]) <= key(s[j])
  }

  /** Insertion of one record into an ordered list. */
  function Insert<T>(x: T, s: seq<T>, key: T -> int): (r: seq<T>)
    requires SortedBy(s, key)
    ensures SortedBy(r, key)
    ensures multiset(r) == multiset(s) + multiset{x}
    ensures |s| > 0 && key(x) <= key(s[0]) ==> r == [x] + s
  {
    if |s| == 0 || key(x) <= key(s[0]) then [x] + s
    else
      var rest := Insert(x, s[1..], key);
      assert s == [s[0]] + s[1..];
      BoundedBelowByMembers(s[0], rest, s[1..], x, key);
      [s[0]] + rest
  }

  /** A permutation of `t` plus `x` keeps every lower bound of `t` and `x`. */
  lemma BoundedBelowByMembers<T>(h: T, rest: seq<T>, t: seq<T>, x: T, key: T -> int)
    requires multiset(rest) == multiset(t) + multiset{x}
    requires key(h) <= key(x)
    requires forall i :: 0 <= i < |t| ==> key(h) <= key(t[i])
    ensures forall i :: 0 <= i < |rest| ==> key(h) <= key(rest[i])
  {
    forall i | 0 <= i < |rest|
      ensures key(h) <= key(rest[i])
    {
      assert rest[i] in multiset(rest);
      if rest[i] != x {
        assert rest[i] in multiset(t);
        var j :| 0 <= j < |t| && t[j] == rest[i];
      }
    }
  }

  /** The `std::sort` of the three fetch functions: a permutation of the
      decoded records ordered by the key, which is the start date for
      profiles and the timestamp for entries and treatments. `std::sort`
      leaves the order of equal keys unspecified; this model keeps them in
      input order. */
  function SortBy<T>(xs: seq<T>, key: T -> int): (r: seq<T>)
    ensures SortedBy(r, key)
    ensures multiset(r) == multiset(xs)
  {
    if xs == [] then []
    else
      assert xs == [xs[0]] + xs[1..];
      Insert(xs[0], SortBy(xs[1..], key), key)
  }

  /** Records that arrive in order stay as they are. */
  lemma {:induction false} SortBySortedIsIdentity<T>(xs: seq<T>, key: T -> int)
    requires SortedBy(xs, key)
    ensures SortBy(xs, key) == xs
  {
    if xs != [] {
      SortBySortedIsIdentity(xs[1..], key);
      assert xs == [xs[0]] + xs[1..];
    }
  }

  // ---------------------------------------------------------------------------
  // List printers

  function Shown<T>(xs: seq<T>, show: T -> string): (r: seq<string>)
    ensures |r| == |xs|
    ensures forall i :: 0 <= i < |xs| ==> r[i] == show(xs[i])
  {
    seq(|xs|, i requires 0 <= i < |xs| => show(xs[i]))
  }

  /** The parts joined with `sep` between neighbours. */
  function Join(parts: seq<string>, sep: string): string {
    if |parts| == 0 then ""
    else if |parts| == 1 then parts[0]
    else Join(parts[..|parts| - 1], sep) + sep + parts[|parts| - 1]
  }

  /** The three `operator<<` for record lists as written: the first-item flag
      is set again instead of cleared, so no separator is ever printed. */
  method PrintList<T>(xs: seq<T>, show: T -> string) returns (out: string)
    ensures out == "[ " + Text.Concat(Shown(xs, show)) + " ]"
  {
    out := "[ ";
    var isFirst := true;
    var i := 0;
    while i < |xs|
      invariant 0 <= i <= |xs|
      invariant isFirst
      invariant out == "[ " + Text.Concat(Shown(xs[..i], show))
    {
      if !isFirst {
        out := out + ", ";
      } else {
        isFirst := true;
      }
      out := out + show(xs[i]);
      assert Shown(xs[..i + 1], show)[..i] == Shown(xs[..i], show);
      i := i + 1;
    }
    assert xs[..|xs|] == xs;
    out := out + " ]";
  }

  /** The printers as evidently intended: the flag is cleared after the first
      item, so items are separated by ", ". */
  method PrintListSeparated<T>(xs: seq<T>, show: T -> string) returns (out: string)
    ensures out == "[ " + Join(Shown(xs, show), ", ") + " ]"
  {
    out := "[ ";
    var isFirst := true;
    var i := 0;
    while i < |xs|
      invariant 0 <= i <= |xs|
      invariant isFirst <==> i == 0
      invariant out == "[ " + Join(Shown(xs[..i], show), ", ")
    {
      if !isFirst {
        out := out + ", ";
      } else {
        isFirst := false;
      }
      out := out + show(xs[i]);
      assert Shown(xs[..i + 1], show)[..i] == Shown(xs[..i], show);
      i := i + 1;
    }
    assert xs[..|xs|] == xs;
    out := out + " ]";
  }

  function Identity(s: string): string {
    s
  }

  /** As written, the two items "1" and "2" print exactly like the one item
      "12". */
  lemma PrintListMergesItems()
    ensures "[ " + Text.Concat(Shown(["1", "2"], Identity)) + " ]" ==
            "[ " + Text.Concat(Shown(["12"], Identity)) + " ]"
  {
    assert Shown(["1", "2"], Identity) == ["1", "2"];
    assert Shown(["12"], Identity) == ["12"];
    assert ["1", "2"][..1] == ["1"];
  }

  /** As written, the output is exactly the brackets and the items: not one
      character of separator, whatever the number of items. */
  lemma PrintListHasNoSeparators<T>(xs: seq<T>, show: T -> string)
    ensures |"[ " + Text.Concat(Shown(xs, show)) + " ]"| == 4 + Text.TotalLength(Shown(xs, show))
  {
    Text.ConcatLength(Shown(xs, show));
  }

  /** With separators, neighbouring items stay apart: the output holds every
      item and one ", " between each two. */
  lemma {:induction false} JoinLength(parts: seq<string>, sep: string)
    requires |parts| > 0
    ensures |Join(parts, sep)| == Text.TotalLength(parts) + (|parts| - 1) * |sep|
  {
    if |parts| > 1 {
      JoinLength(parts[..|parts| - 1], sep);
    }
  }

  lemma SeparatedKeepsItemsApart()
    ensures "[ " + Join(Shown(["1", "2"], Identity), ", ") + " ]" == "[ 1, 2 ]"
    ensures "[ " + Join(Shown(["12"], Identity), ", ") + " ]" == "[ 12 ]"
  {
    assert Shown(["1", "2"], Identity) == ["1", "2"];
    assert Shown(["12"], Identity) == ["12"];
    assert ["1", "2"][..1] == ["1"];
  }
}
