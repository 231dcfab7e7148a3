/**
 * frontend/src/components/URLStats.jsx, without its rendering: fetching one
 * statistics result per stored short link, the shortcode taken from a short
 * link, the click-count colour, URL shortening for display, the summary
 * figures, and the 'Unknown' fallback of a click's source and location.
 */
module UrlStats {
  import opened Wrappers
  import opened UrlModel
  import UrlForm

  /** The error text a failed fetch is recorded with. */
  const FetchError: string := "Failed to fetch stats"

  /** What a click with no source or location shows. */
  const Unknown: string := "Unknown"

  /** The longest URL shown in full. */
  const DisplayLimit: nat := 50

  /** The body of `GET /shorturls/:shortcode` as the component reads it; fields it may lack are optional. */
  datatype StatsData = StatsData(
    originalUrl: string,
    createdAt: Option<Time>,
    expiresAt: Option<Time>,
    totalClicks: Option<int>,
    clicks: seq<Click>)

  /** One entry of `stats`: the fetched body with the stored `shortLink`, or the stored `shortLink` with an error. */
  datatype Stat = Fetched(shortLink: string, data: StatsData) | Failed(shortLink: string, error: string)

  /** What one iteration of the fetch loop sees: the request failed or returned `data`; then the log call returned or threw. */
  datatype FetchStep = FetchOk(data: StatsData, logged: bool) | FetchFailed(logged: bool)

  /** The chip colour of a click count. */
  datatype Color = Default | Primary | Secondary | Success

  // ---------------------------------------------------------------------------
  // Shortcode of a short link: `parts = link.split('/')`, `parts[parts.length - 1]`.

  /** `s.split(sep)` for a one-character separator: the pieces between separators, empty ones included. */
  function Split(s: string, sep: char): (parts: seq<string>)
    ensures |parts| >= 1
    ensures forall i :: 0 <= i < |parts| ==> sep !in parts[i]
  {
    if s == [] then [[]]
    else
      var rest := Split(s[1..], sep);
      if s[0] == sep then [[]] + rest
      else [[s[0]] + rest[0]] + rest[1..]
  }

  /** `parts.join(sep)`. */
  function Join(parts: seq<string>, sep: char): string
    requires |parts| >= 1
  {
    if |parts| == 1 then parts[0] else parts[0] + [sep] + Join(parts[1..], sep)
  }

  /** Joining the pieces of a split with the same separator gives back the string. */
  lemma {:induction false} JoinSplit(s: string, sep: char)
    ensures Join(Split(s, sep), sep) == s
  {
    if s != [] {
      var rest := Split(s[1..], sep);
      JoinSplit(s[1..], sep);
      var parts := Split(s, sep);
      if s[0] == sep {
        assert parts[1..] == rest;
      } else if |rest| == 1 {
        assert parts == [[s[0]] + rest[0]];
      } else {
        assert parts[1..] == rest[1..];
        assert Join(rest, sep) == rest[0] + [sep] + Join(rest[1..], sep);
      }
    }
  }

  /** The last piece of a split is the end of the string after its last separator, or all of it. */
  lemma {:induction false} SplitLast(s: string, sep: char)
    ensures var parts := Split(s, sep); var last := parts[|parts| - 1];
            |last| <= |s| && s[|s| - |last|..] == last &&
            (|last| == |s| || s[|s| - |last| - 1] == sep)
  {
    if s != [] {
      var rest := Split(s[1..], sep);
      SplitLast(s[1..], sep);
      var parts := Split(s, sep);
      var tail := s[1..];
      if s[0] == sep {
        assert parts[|parts| - 1] == rest[|rest| - 1];
      } else if |rest| == 1 {
        JoinSplit(tail, sep);
        assert rest[0] == tail;
        assert parts[|parts| - 1] == s;
      } else {
        // `tail` holds a separator right after `rest[0]`, so its last piece is shorter than it.
        JoinSplit(tail, sep);
        assert Join(rest, sep) == rest[0] + [sep] + Join(rest[1..], sep);
        assert tail[|rest[0]|] == sep;
        assert parts[|parts| - 1] == rest[|rest| - 1];
      }
    }
  }

  /** The shortcode requested for a stored short link: what follows its last '/', or the whole link when it has none. */
  function ShortcodeOf(shortLink: string): (code: string)
    ensures '/' !in code
    ensures |code| <= |shortLink| && shortLink[|shortLink| - |code|..] == code
    ensures |code| == |shortLink| || shortLink[|shortLink| - |code| - 1] == '/'
    ensures '/' !in shortLink ==> code == shortLink
  {
    var parts := Split(shortLink, '/');
    SplitLast(shortLink, '/');
    parts[|parts| - 1]
  }

  // ---------------------------------------------------------------------------
  // The fetch loop.

  /** The result one iteration records for `entry`: what `step` returned, tagged with the entry's `shortLink`, or the error. */
  function StatOf(entry: UrlForm.Response, step: FetchStep): (r: Stat)
    ensures r.shortLink == entry.shortLink
    ensures r.Fetched? <==> step.FetchOk?
    ensures step.FetchOk? ==> r.data == step.data
    ensures step.FetchFailed? ==> r.error == FetchError
  {
    match step
    case FetchOk(data, _) => Fetched(entry.shortLink, data)
    case FetchFailed(_) => Failed(entry.shortLink, FetchError)
  }

  /**
   * `fetchStats()` over the stored results, where `steps[i]` is what the
   * request for entry `i` came to. Returns the `stats` it sets and the
   * shortcodes it requested, both one per stored entry in stored order.
   * A log call that rejects with an error object is swallowed and changes nothing.
   */
  method FetchStats(stored: seq<UrlForm.Response>, steps: seq<FetchStep>) returns (results: seq<Stat>, requested: seq<string>)
    requires |steps| == |stored|
    ensures |results| == |stored| && |requested| == |stored|
    ensures forall i :: 0 <= i < |stored| ==> requested[i] == ShortcodeOf(stored[i].shortLink)
    ensures forall i :: 0 <= i < |stored| ==> results[i] == StatOf(stored[i], steps[i])
    ensures forall i :: 0 <= i < |stored| ==> results[i].shortLink == stored[i].shortLink
    ensures forall i :: 0 <= i < |stored| ==> (results[i].Fetched? <==> steps[i].FetchOk?)
  {
    results := [];
    requested := [];
    for n := 0 to |stored|
      invariant |results| == n && |requested| == n
      invariant forall i :: 0 <= i < n ==> requested[i] == ShortcodeOf(stored[i].shortLink)
      invariant forall i :: 0 <= i < n ==> results[i] == StatOf(stored[i], steps[i])
    {
      var entry := stored[n];
      var shortcode := ShortcodeOf(entry.shortLink);
      requested := requested + [shortcode];
      var stat: Stat;
      match steps[n] {
        case FetchOk(data, _) =>
          stat := Fetched(entry.shortLink, data);
        case FetchFailed(_) =>
          stat := Failed(entry.shortLink, FetchError);
      }
      results := results + [stat];
    }
  }

  // ---------------------------------------------------------------------------
  // Display helpers.

  /** `getClicksColor(clicks)`. */
  function ClicksColor(clicks: int): (c: Color)
    ensures c == Default <==> clicks == 0
    ensures c == Primary <==> clicks != 0 && clicks < 10
    ensures c == Secondary <==> 10 <= clicks < 50
    ensures c == Color.Success <==> 50 <= clicks
  {
    if clicks == 0 then Default
    else if clicks < 10 then Primary
    else if clicks < 50 then Secondary
    else Color.Success
  }

  function Rank(c: Color): nat {
    match c
    case Default => 0
    case Primary => 1
    case Secondary => 2
    case Success => 3
  }

  /** On non-negative counts the colour never steps down as the count grows. */
  lemma ClicksColorMonotone(a: int, b: int)
    requires 0 <= a <= b
    ensures Rank(ClicksColor(a)) <= Rank(ClicksColor(b))
  {
  }

  /** `formatUrl(url)`: URLs of at most 50 characters are shown whole; longer ones as their first 50 and "...". */
  function FormatUrl(url: string): (r: string)
    ensures |url| <= DisplayLimit ==> r == url
    ensures |url| > DisplayLimit ==> |r| == DisplayLimit + 3 && r[..DisplayLimit] == url[..DisplayLimit] && r[DisplayLimit..] == "..."
    ensures |r| <= DisplayLimit + 3
  {
    if |url| > DisplayLimit then url[..DisplayLimit] + "..." else url
  }

  /** Formatting a formatted URL changes nothing more. */
  lemma FormatUrlIdempotent(url: string)
    ensures FormatUrl(FormatUrl(url)) == FormatUrl(url)
  {
    if |url| > DisplayLimit {
      var r := FormatUrl(url);
      assert FormatUrl(r) == r[..DisplayLimit] + "...";
      assert r == r[..DisplayLimit] + r[DisplayLimit..];
    }
  }

  /** `click.source || 'Unknown'`, likewise for `click.location`: a missing or empty value shows as 'Unknown'. */
  function ShownOrUnknown(v: Option<string>): (r: string)
    ensures r != ""
    ensures v.Some? && v.value != "" ==> r == v.value
    ensures v.None? || v.value == "" ==> r == Unknown
  {
    if v.Some? && v.value != "" then v.value else Unknown
  }

  // ---------------------------------------------------------------------------
  // Summary figures.

  /** `stat.totalClicks || 0`: the count of a fetched result, and 0 for a failed result or a missing count. */
  function ClicksOf(stat: Stat): (n: int)
    ensures stat.Failed? || stat.data.totalClicks.None? ==> n == 0
    ensures stat.Fetched? && stat.data.totalClicks.Some? ==> n == stat.data.totalClicks.value
  {
    if stat.Fetched? && stat.data.totalClicks.Some? then stat.data.totalClicks.value else 0
  }

  /** `stats.reduce((acc, stat) => acc + (stat.totalClicks || 0), 0)`, folded from the left. */
  function TotalClicks(stats: seq<Stat>): (total: int)
    ensures (forall i :: 0 <= i < |stats| ==> ClicksOf(stats[i]) >= 0) ==> total >= 0
    ensures (forall i :: 0 <= i < |stats| ==> ClicksOf(stats[i]) == 0) ==> total == 0
    ensures (forall i :: 0 <= i < |stats| ==> ClicksOf(stats[i]) >= 0) ==>
              forall i :: 0 <= i < |stats| ==> ClicksOf(stats[i]) <= total
  {
    if stats == [] then 0 else TotalClicks(stats[..|stats| - 1]) + ClicksOf(stats[|stats| - 1])
  }

  /** The total over two runs of results is the sum of their totals. */
  lemma {:induction false} TotalClicksAppend(a: seq<Stat>, b: seq<Stat>)
    ensures TotalClicks(a + b) == TotalClicks(a) + TotalClicks(b)
    decreases |b|
  {
    if b == [] {
      assert a + b == a;
    } else {
      var b' := b[..|b| - 1];
      assert (a + b)[..|a + b| - 1] == a + b';
      assert (a + b)[|a + b| - 1] == b[|b| - 1];
      TotalClicksAppend(a, b');
    }
  }

  /** Failed results add nothing: a list of failed results totals 0 clicks. */
  lemma {:induction false} TotalClicksOfFailures(stats: seq<Stat>)
    requires forall i :: 0 <= i < |stats| ==> stats[i].Failed?
    ensures TotalClicks(stats) == 0
  {
    if stats != [] {
      TotalClicksOfFailures(stats[..|stats| - 1]);
    }
  }

  /** `stats.filter(stat => stat.error)`: the results that carry an error, in order. */
  function Errors(stats: seq<Stat>): (r: seq<Stat>)
    ensures |r| <= |stats|
    ensures forall i :: 0 <= i < |r| ==> r[i].Failed?
  {
    if stats == [] then []
    else (if stats[0].Failed? then [stats[0]] else []) + Errors(stats[1..])
  }

  /** Nothing failed is dropped or duplicated: each failed result occurs in the errors as often as in the stats. */
  lemma {:induction false} ErrorsKeepsEveryFailure(stats: seq<Stat>, s: Stat)
    requires s.Failed?
    ensures multiset(Errors(stats))[s] == multiset(stats)[s]
  {
    if stats != [] {
      ErrorsKeepsEveryFailure(stats[1..], s);
      assert stats == [stats[0]] + stats[1..];
      assert multiset(stats) == multiset([stats[0]]) + multiset(stats[1..]);
    }
  }

  /** Filtering a result followed by more results. */
  lemma ErrorsCons(x: Stat, t: seq<Stat>)
    ensures Errors([x] + t) == (if x.Failed? then [x] else []) + Errors(t)
  {
    assert ([x] + t)[1..] == t;
  }

  /** Filtering keeps the order: the errors of two runs of results are the errors of the first followed by those of the second. */
  lemma {:induction false} ErrorsAppend(a: seq<Stat>, b: seq<Stat>)
    ensures Errors(a + b) == Errors(a) + Errors(b)
  {
    if a == [] {
      assert a + b == b;
    } else {
      var head: seq<Stat> := if a[0].Failed? then [a[0]] else [];
      assert a + b == [a[0]] + (a[1..] + b);
      ErrorsCons(a[0], a[1..] + b);
      ErrorsAppend(a[1..], b);
      calc {
        Errors(a + b);
        head + Errors(a[1..] + b);
        head + (Errors(a[1..]) + Errors(b));
        (head + Errors(a[1..])) + Errors(b);
        { assert a == [a[0]] + a[1..]; ErrorsCons(a[0], a[1..]); }
        Errors(a) + Errors(b);
      }
    }
  }

  /** The number of failed requests among the steps of a fetch. */
  function FailedFetches(steps: seq<FetchStep>): (n: nat)
    ensures n <= |steps|
  {
    if steps == [] then 0 else (if steps[0].FetchFailed? then 1 else 0) + FailedFetches(steps[1..])
  }

  /**
   * The "Errors" figure of a fetch is the number of failed requests, and it
   * never exceeds the "Total URLs" figure `|stats|`.
   */
  lemma {:induction false} ErrorCountIsFailedFetches(stats: seq<Stat>, steps: seq<FetchStep>)
    requires |stats| == |steps|
    requires forall i :: 0 <= i < |stats| ==> (stats[i].Failed? <==> steps[i].FetchFailed?)
    ensures |Errors(stats)| == FailedFetches(steps) <= |stats|
  {
    if stats != [] {
      ErrorCountIsFailedFetches(stats[1..], steps[1..]);
    }
  }
}
