/** The transcripts tool, app/tools/transcripts/page.tsx: among the sessions fetched once at
    first load (the newest 100 the store returns), those with a transcript,
    a search over titles, transcripts and keywords, pages of ten, length statistics and a
    tally of the most common keywords. A missing text field is "" and a missing keyword
    list is []. */
module TranscriptsPage {
  import opened Strings
  import Titles
  import Keywords
  import Paging

  const PageSize: nat := 10
  const TallyLimit: nat := 12
  const ChipLimit: nat := 5
  const RowTitleLength: nat := 60

  datatype Entry = Entry(id: string, title: string, transcript: string, keywords: seq<string>)

  /** The page state: the query typed and the page shown. */
  datatype View = View(query: string, page: int)

  // ---------------------------------------------------------------- the listed sessions

  /** The sessions kept after loading: those whose transcript is not blank. */
  function WithTranscripts(items: seq<Entry>): (r: seq<Entry>)
    ensures |r| <= |items|
    ensures forall i :: 0 <= i < |r| ==> r[i] in items && !IsBlank(r[i].transcript)
    ensures forall i :: 0 <= i < |items| && !IsBlank(items[i].transcript) ==> items[i] in r
  {
    Filter(items, (s: Entry) => !IsBlank(s.transcript))
  }

  /** The kept sessions stay in their order: one more loaded session is appended to the
      list exactly when its transcript is not blank. */
  lemma WithTranscriptsInOrder(items: seq<Entry>, x: Entry)
    ensures WithTranscripts(items + [x]) == WithTranscripts(items) + (if !IsBlank(x.transcript) then [x] else [])
  {
    FilterSnoc(items, x, (s: Entry) => !IsBlank(s.transcript));
  }

  /** A session matches a lowered, trimmed query when its title, its transcript or its
      keywords joined by spaces, lowered, contain it. */
  predicate Matches(s: Entry, query: string) {
    || (s.title != "" && Contains(Lower(s.title), query))
    || (s.transcript != "" && Contains(Lower(s.transcript), query))
    || Contains(Lower(Join(s.keywords, " ")), query)
  }

  /** The query as the filter uses it: lowered, then trimmed. */
  function Needle(query: string): string { Trim(Lower(query)) }

  /** `filtered`: every session for a blank query, else the matching sessions in order. */
  function Filtered(sessions: seq<Entry>, query: string): (r: seq<Entry>)
    ensures Needle(query) == "" ==> r == sessions
    ensures |r| <= |sessions|
    ensures forall i :: 0 <= i < |r| ==> r[i] in sessions
    ensures Needle(query) != "" ==> forall i :: 0 <= i < |r| ==> Matches(r[i], Needle(query))
    ensures Needle(query) != "" ==>
      forall i :: 0 <= i < |sessions| && Matches(sessions[i], Needle(query)) ==> sessions[i] in r
  {
    var q := Needle(query);
    if q == "" then sessions else Filter(sessions, (s: Entry) => Matches(s, q))
  }

  /** Letter case and surrounding blanks of the query do not matter. */
  lemma QueryCaseAndBlanks(sessions: seq<Entry>, query: string)
    ensures Filtered(sessions, Upper(query)) == Filtered(sessions, query)
    ensures Filtered(sessions, " " + query + " ") == Filtered(sessions, query)
  {
    NeedleUpper(query);
    NeedlePadded(query);
  }

  lemma NeedleUpper(query: string)
    ensures Needle(Upper(query)) == Needle(query)
  {
    LowerUpper(query);
  }

  lemma NeedlePadded(query: string)
    ensures Needle(" " + query + " ") == Needle(query)
  {
    LowerPadded(query);
    TrimPadded(Lower(query));
  }

  lemma LowerPadded(query: string)
    ensures Lower(" " + query + " ") == " " + Lower(query) + " "
  {
    var p := " " + query + " ";
    var l := " " + Lower(query) + " ";
    forall i | 0 <= i < |p| ensures Lower(p)[i] == l[i] {
      if 0 < i < |p| - 1 {
        assert p[i] == query[i - 1];
      }
    }
  }

  lemma LowerUpper(s: string)
    ensures Lower(Upper(s)) == Lower(s)
  {
  }

  lemma TrimPadded(s: string)
    ensures Trim(" " + s + " ") == Trim(s)
  {
    var p := " " + s + " ";
    assert TrimStart(p) == TrimStart(s + " ") by {
      assert p[1..] == s + " ";
    }
    TrimEndPadded(TrimStart(s + " "), s);
  }

  /** Removing the blank at the end of `s + " "` after the leading blanks are gone. */
  lemma TrimEndPadded(t: string, s: string)
    requires t == TrimStart(s + " ")
    ensures TrimEnd(t) == Trim(s)
  {
    var u := s + " ";
    if AllSpace(s) {
      assert AllSpace(u);
      assert Trim(s) == [];
    } else {
      var st := TrimStart(s);
      assert st == s[|s| - |st|..];
      assert TrimStart(u) == st + " " by { TrimStartAppend(s, " "); }
      assert TrimEnd(st + " ") == TrimEnd(st) by {
        assert (st + " ")[..|st|] == st;
      }
    }
  }

  /** Leading blanks of `s + t` are those of `s` when `s` is not all blank. */
  lemma {:induction false} TrimStartAppend(s: string, t: string)
    requires !AllSpace(s)
    ensures TrimStart(s + t) == TrimStart(s) + t
    decreases |s|
  {
    if IsSpace(s[0]) {
      assert (s + t)[1..] == s[1..] + t;
      assert !AllSpace(s[1..]) by {
        var k :| 0 <= k < |s| && !IsSpace(s[k]);
        assert s[1..][k - 1] == s[k];
      }
      TrimStartAppend(s[1..], t);
    }
  }

  // ---------------------------------------------------------------- pages

  /** Typing in the search box or clicking a keyword chip sets the query and goes back to
      page 1. */
  function OnQuery(v: View, query: string): (r: View)
    ensures r.query == query && r.page == 1
  {
    View(query, 1)
  }

  /** After a new query the first page shows the first ten matches. */
  lemma QueryShowsFirstMatches(v: View, sessions: seq<Entry>, query: string)
    ensures var w := OnQuery(v, query);
      w.page >= 1 && Paging.PageItems(Filtered(sessions, w.query), w.page, PageSize) == Take(Filtered(sessions, query), PageSize)
  {
  }

  /** A successful delete removes the session with that id from the list. */
  function OnDeleted(sessions: seq<Entry>, id: string, ok: bool): (r: seq<Entry>)
    ensures !ok ==> r == sessions
    ensures ok ==> forall i :: 0 <= i < |r| ==> r[i].id != id && r[i] in sessions
    ensures ok ==> forall i :: 0 <= i < |sessions| && sessions[i].id != id ==> sessions[i] in r
  {
    if ok then Filter(sessions, (s: Entry) => s.id != id) else sessions
  }

  /** The title of a table row: the sanitized title, else the first 60 characters of the
      transcript, else "Untitled". */
  function RowTitle(s: Entry): (r: string)
    ensures Titles.SanitizeTitle(s.title) != "" ==> r == Titles.SanitizeTitle(s.title)
    ensures Titles.SanitizeTitle(s.title) == "" && s.transcript != "" ==> r == Take(s.transcript, RowTitleLength)
    ensures Titles.SanitizeTitle(s.title) == "" && s.transcript == "" ==> r == "Untitled"
  {
    var t := Titles.SanitizeTitle(s.title);
    if t != "" then t else if s.transcript != "" then Take(s.transcript, RowTitleLength) else "Untitled"
  }

  /** The keyword chips of a row: the first five keywords. */
  function Chips(s: Entry): (r: seq<string>)
    ensures |r| <= ChipLimit && r <= s.keywords
    ensures |s.keywords| <= ChipLimit ==> r == s.keywords
  {
    Take(s.keywords, ChipLimit)
  }

  // ---------------------------------------------------------------- statistics

  datatype Stats = Stats(avg: nat, longest: nat, shortest: nat)

  /** The positive transcript lengths. */
  function Lengths(sessions: seq<Entry>): (r: seq<nat>)
    ensures forall i :: 0 <= i < |r| ==> r[i] > 0
  {
    var all: seq<nat> := seq(|sessions|, i requires 0 <= i < |sessions| => |sessions[i].transcript|);
    Filter(all, (n: nat) => n > 0)
  }

  function Sum(s: seq<nat>): nat
  {
    if s == [] then 0 else Sum(s[..|s| - 1]) + s[|s| - 1]
  }

  function MaxOf(s: seq<nat>): (r: nat)
    requires s != []
    ensures r in s && forall i :: 0 <= i < |s| ==> s[i] <= r
  {
    if |s| == 1 then s[0] else Max(MaxOf(s[..|s| - 1]), s[|s| - 1])
  }

  function MinOf(s: seq<nat>): (r: nat)
    requires s != []
    ensures r in s && forall i :: 0 <= i < |s| ==> r <= s[i]
  {
    if |s| == 1 then s[0] else Min(MinOf(s[..|s| - 1]), s[|s| - 1])
  }

  /** `Math.round(sum / n)` for a positive `n`: the integer nearest the mean, halves
      rounded up. */
  function RoundedMean(sum: nat, n: nat): (r: nat)
    requires n > 0
    ensures 2 * n * r <= 2 * sum + n < 2 * n * (r + 1)
  {
    (2 * sum + n) / (2 * n)
  }

  /** `stats`: the rounded mean, the longest and the shortest positive transcript length,
      or zeros when there is none. */
  function GetStats(sessions: seq<Entry>): (r: Stats)
    ensures Lengths(sessions) == [] ==> r == Stats(0, 0, 0)
  {
    var lengths := Lengths(sessions);
    if lengths == [] then Stats(0, 0, 0)
    else Stats(RoundedMean(Sum(lengths), |lengths|), MaxOf(lengths), MinOf(lengths))
  }

  /** A sum of `n` values between `lo` and `hi` lies between `n * lo` and `n * hi`. */
  lemma {:induction false} SumBounds(s: seq<nat>, lo: nat, hi: nat)
    requires forall i :: 0 <= i < |s| ==> lo <= s[i] <= hi
    ensures |s| * lo <= Sum(s) <= |s| * hi
  {
    if s != [] {
      var init := s[..|s| - 1];
      SumBounds(init, lo, hi);
      Distribute(|init|, lo);
      Distribute(|init|, hi);
    }
  }

  lemma Distribute(k: nat, a: nat)
    ensures (k + 1) * a == k * a + a
  {
  }

  /** The rounded mean of `n` values between `lo` and `hi` is between them too. */
  lemma RoundedMeanBetween(sum: nat, n: nat, lo: nat, hi: nat)
    requires n > 0 && n * lo <= sum <= n * hi
    ensures lo <= RoundedMean(sum, n) <= hi
  {
    var r := RoundedMean(sum, n);
    if r > hi {
      MulMono(2 * n, hi + 1, r);
      Scale(n, hi);
    }
    if r < lo {
      MulMono(2 * n, r + 1, lo);
      Scale(n, lo);
    }
  }

  lemma Scale(n: nat, a: nat)
    ensures 2 * n * (a + 1) == 2 * (n * a) + 2 * n && 2 * n * a == 2 * (n * a)
  {
  }

  lemma MulMono(k: nat, a: int, b: int)
    requires a <= b
    ensures k * a <= k * b
  {
  }

  /** The mean lies between the shortest and the longest length, which are lengths of
      the list, and the shortest is positive. */
  lemma StatsBounds(sessions: seq<Entry>)
    ensures var r := GetStats(sessions);
      r.shortest <= r.avg <= r.longest
    ensures var r := GetStats(sessions); var lengths := Lengths(sessions);
      lengths != [] ==> r.longest in lengths && r.shortest in lengths && r.shortest > 0
  {
    var lengths := Lengths(sessions);
    if lengths != [] {
      var lo, hi := MinOf(lengths), MaxOf(lengths);
      SumBounds(lengths, lo, hi);
      RoundedMeanBetween(Sum(lengths), |lengths|, lo, hi);
    }
  }
}
