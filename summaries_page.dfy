/** The summaries tool, app/tools/summaries/page.tsx: counts over the sessions fetched once at
    first load (the newest 100 the store returns), the sessions that have a summary in pages
    of eight, and for each card a heading, a preview and the keywords shown. A missing text field is "" and a missing keyword list is []. */
module SummariesPage {
  import opened Strings
  import Titles
  import Keywords
  import Paging

  const PageSize: nat := 8
  const TallyLimit: nat := 12
  const PreviewLength: nat := 280
  const HeadingLength: nat := 80

  datatype Entry = Entry(id: string, title: string, summary: string, transcript: string,
                         keywords: seq<string>, status: string)

  datatype Totals = Totals(totalSummaries: nat, withKeywords: nat, pending: nat, errors: nat)

  predicate HasSummary(s: Entry) { !IsBlank(s.summary) }

  /** Waiting for a summary: none yet, but a transcript to make one from. */
  predicate IsPending(s: Entry) { IsBlank(s.summary) && !IsBlank(s.transcript) }

  /** `totals`: sessions with a summary, with keywords, waiting for a summary, failed. */
  function GetTotals(sessions: seq<Entry>): (r: Totals)
    ensures r.totalSummaries + r.pending <= |sessions|
    ensures r.withKeywords <= |sessions| && r.errors <= |sessions|
  {
    var summarized := Filter(sessions, HasSummary);
    var waiting := Filter(sessions, IsPending);
    FilterDisjoint(sessions, HasSummary, IsPending);
    Totals(|summarized|, |Filter(sessions, (s: Entry) => s.keywords != [])|, |waiting|,
           |Filter(sessions, (s: Entry) => s.status == "ERROR")|)
  }

  /** Counting one more session: each total goes up by one exactly when the session has
      a summary, has keywords, is waiting for a summary, or has failed. */
  lemma TotalsSnoc(sessions: seq<Entry>, x: Entry)
    ensures var t := GetTotals(sessions); var u := GetTotals(sessions + [x]);
      && u.totalSummaries == t.totalSummaries + (if HasSummary(x) then 1 else 0)
      && u.withKeywords == t.withKeywords + (if x.keywords != [] then 1 else 0)
      && u.pending == t.pending + (if IsPending(x) then 1 else 0)
      && u.errors == t.errors + (if x.status == "ERROR" then 1 else 0)
  {
    FilterSnoc(sessions, x, HasSummary);
    FilterSnoc(sessions, x, IsPending);
    FilterSnoc(sessions, x, (s: Entry) => s.keywords != []);
    FilterSnoc(sessions, x, (s: Entry) => s.status == "ERROR");
  }

  /** Every session is either counted as summarized or has a blank summary; the pending
      ones are among the latter. */
  lemma TotalsSplit(sessions: seq<Entry>)
    ensures GetTotals(sessions).totalSummaries + |Filter(sessions, (s: Entry) => IsBlank(s.summary))| == |sessions|
    ensures GetTotals(sessions).pending <= |Filter(sessions, (s: Entry) => IsBlank(s.summary))|
  {
    var blank := (s: Entry) => IsBlank(s.summary);
    FilterComplement(sessions, HasSummary, blank);
    PendingAreBlank(sessions);
  }

  lemma {:induction false} PendingAreBlank(s: seq<Entry>)
    ensures |Filter(s, IsPending)| <= |Filter(s, (x: Entry) => IsBlank(x.summary))|
    decreases |s|
  {
    if s != [] {
      PendingAreBlank(s[1..]);
    }
  }

  /** `summaries`: exactly the sessions with a summary, in order. */
  function Summaries(sessions: seq<Entry>): (r: seq<Entry>)
    ensures |r| == GetTotals(sessions).totalSummaries
    ensures forall i :: 0 <= i < |r| ==> r[i] in sessions && HasSummary(r[i])
    ensures forall i :: 0 <= i < |sessions| && HasSummary(sessions[i]) ==> sessions[i] in r
  {
    Filter(sessions, HasSummary)
  }

  /** The cards of a page: eight summaries from `(page - 1) * 8`, on one of
      `max(1, ceil(n / 8))` pages. */
  function PageCards(sessions: seq<Entry>, page: nat): (r: seq<Entry>)
    requires page >= 1
    ensures |r| <= PageSize
    ensures forall i :: 0 <= i < |r| ==> HasSummary(r[i])
  {
    var all := Summaries(sessions);
    var cards := Paging.PageItems(all, page, PageSize);
    assert forall i :: 0 <= i < |cards| ==> cards[i] == all[(page - 1) * PageSize + i];
    cards
  }

  /** Every summary is on some page within the page count. */
  lemma EverySummaryListed(sessions: seq<Entry>, k: nat)
    requires k < |Summaries(sessions)|
    ensures var page := k / PageSize + 1;
      1 <= page <= Paging.PageCount(|Summaries(sessions)|, PageSize)
      && Summaries(sessions)[k] in PageCards(sessions, page)
  {
    Paging.ItemPage(Summaries(sessions), PageSize, k);
  }

  // ---------------------------------------------------------------- a card

  /** The heading: the sanitized title, else the summary's first line cut to 80. */
  function CardHeading(s: Entry): (r: string)
    ensures Titles.SanitizeTitle(s.title) != "" ==> r == Titles.SanitizeTitle(s.title)
    ensures Titles.SanitizeTitle(s.title) == "" ==> r == Take(FirstLine(s.summary), HeadingLength)
    ensures Titles.SanitizeTitle(s.title) == "" ==> r <= FirstLine(s.summary) && |r| <= HeadingLength
    ensures '\n' !in r
  {
    var t := Titles.SanitizeTitle(s.title);
    Titles.SanitizedShape(s.title);
    if t != "" then t
    else
      var head := Take(FirstLine(s.summary), HeadingLength);
      assert forall i :: 0 <= i < |head| ==> head[i] == FirstLine(s.summary)[i];
      head
  }

  /** The preview: the first 280 characters of the summary and an ellipsis iff cut. */
  function Preview(s: Entry): (r: string)
    ensures |s.summary| <= PreviewLength ==> r == s.summary
    ensures |s.summary| > PreviewLength ==> r == s.summary[..PreviewLength] + "\U{2026}"
  {
    Ellipsize(s.summary, PreviewLength)
  }

  /** The keywords shown: the stored ones when there are any, else at most six keywords
      extracted from the summary. */
  function ShownKeywords(s: Entry): (r: seq<string>)
    ensures s.keywords != [] ==> r == s.keywords
    ensures s.keywords == [] ==> r == Keywords.Keywords(s.summary, Keywords.ClientDefaultLimit)
  {
    if s.keywords != [] then s.keywords else Keywords.Keywords(s.summary, Keywords.ClientDefaultLimit)
  }

  /** Without stored keywords, a card shows at most six distinct words of its summary,
      each a keyword, most frequent first; none when the summary is empty. */
  lemma FallbackKeywords(s: Entry)
    requires s.keywords == []
    ensures var r := ShownKeywords(s);
      && |r| <= Keywords.ClientDefaultLimit && Keywords.NoDups(r)
      && (forall w :: w in r ==> Keywords.IsKeyword(w) && w in Keywords.Tokens(s.summary))
      && (s.summary == "" ==> r == [])
  {
    Keywords.KeywordsFacts(s.summary, Keywords.ClientDefaultLimit);
  }
}
