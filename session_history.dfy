/** The session list of app/components/SessionHistory.tsx: how a stored session is named
    and previewed, how the list reacts to `sessionSaved` and to a delete, and the search over
    the sessions fetched once at first load (the newest 100 the store returns); its page
    buttons are those of the Paging module. A missing text field is "". */
module SessionHistory {
  import opened Strings
  import Titles

  /** The component's fixed page size. */
  const PageSize: nat := 4
  const TitleLength: nat := 60
  const ExcerptLength: nat := 220
  const Untitled: string := "Untitled session"

  datatype SessionItem = SessionItem(id: string, title: string, transcript: string, summary: string)

  /** What the list shows: the current sessions and the known total, `None` for `null`. */
  datatype Listing = Listing(sessions: seq<SessionItem>, total: Option<int>)

  // ---------------------------------------------------------------- headings and excerpts

  /** A heading made from a longer text: its first line cut to 60 characters, with an
      ellipsis exactly when the whole text is longer than 60. */
  function Derived(text: string): (r: string)
    ensures Take(FirstLine(text), TitleLength) <= r && |r| <= TitleLength + 1
    ensures '\n' !in r
    ensures |text| > TitleLength <==> |r| == |Take(FirstLine(text), TitleLength)| + 1
    ensures |text| > TitleLength ==> r[|r| - 1] == '\U{2026}'
  {
    var head := Take(FirstLine(text), TitleLength);
    assert forall i :: 0 <= i < |head| ==> head[i] == FirstLine(text)[i];
    head + (if |text| > TitleLength then "\U{2026}" else "")
  }

  /** `getSessionTitle`: the title when it is not blank, else a heading from the summary,
      else one from the transcript, else "Untitled session". */
  function GetSessionTitle(s: SessionItem): (r: string)
    ensures !IsBlank(s.title) ==> r == s.title
    ensures IsBlank(s.title) && !IsBlank(s.summary) ==> r == Derived(s.summary)
    ensures IsBlank(s.title) && IsBlank(s.summary) && !IsBlank(s.transcript) ==> r == Derived(s.transcript)
    ensures IsBlank(s.title) && IsBlank(s.summary) && IsBlank(s.transcript) ==> r == Untitled
  {
    if !IsBlank(s.title) then s.title
    else if !IsBlank(s.summary) then Derived(s.summary)
    else if !IsBlank(s.transcript) then Derived(s.transcript)
    else Untitled
  }

  /** The heading of a card: the sanitized title, or `getSessionTitle` when that is "". */
  function Heading(s: SessionItem): (r: string)
    ensures Titles.SanitizeTitle(s.title) != "" ==> r == Titles.SanitizeTitle(s.title)
    ensures Titles.SanitizeTitle(s.title) == "" ==> r == GetSessionTitle(s)
  {
    var t := Titles.SanitizeTitle(s.title);
    if t != "" then t else GetSessionTitle(s)
  }

  /** `getExcerpt`: the first 220 characters of the summary, else of the transcript, with
      an ellipsis when cut; "" when both are blank. */
  function GetExcerpt(s: SessionItem): (r: string)
    ensures !IsBlank(s.summary) ==> r == Ellipsize(s.summary, ExcerptLength)
    ensures IsBlank(s.summary) && !IsBlank(s.transcript) ==> r == Ellipsize(s.transcript, ExcerptLength)
    ensures IsBlank(s.summary) && IsBlank(s.transcript) ==> r == ""
    ensures |r| <= ExcerptLength + 1
  {
    if !IsBlank(s.summary) then Ellipsize(s.summary, ExcerptLength)
    else if !IsBlank(s.transcript) then Ellipsize(s.transcript, ExcerptLength)
    else ""
  }

  /** A text of one line gives the same heading as the preview idiom with a limit of 60. */
  lemma DerivedOfOneLine(text: string)
    requires '\n' !in text
    ensures Derived(text) == Ellipsize(text, TitleLength)
  {
    assert FirstLine(text) == text;
  }

  /** A short first line followed by more text still gets an ellipsis: the cut is decided
      by the length of the whole text, not of the line shown. */
  lemma EllipsisAfterWholeLine(text: string)
    requires |FirstLine(text)| <= TitleLength < |text|
    ensures Derived(text) == FirstLine(text) + "\U{2026}"
  {
  }

  /** A heading is empty only when the text it comes from opens with a line feed and is
      at most 60 characters long. */
  lemma EmptyTitle(s: SessionItem)
    requires GetSessionTitle(s) == ""
    ensures IsBlank(s.title)
    ensures !IsBlank(s.summary) ==> s.summary[0] == '\n' && |s.summary| <= TitleLength
    ensures IsBlank(s.summary) ==> s.transcript != [] && s.transcript[0] == '\n' && |s.transcript| <= TitleLength
  {
    var text := if !IsBlank(s.summary) then s.summary else s.transcript;
    assert Derived(text) == "";
    assert text != [] by { assert !IsBlank(text); }
    assert FirstLine(text) == [] && |text| <= TitleLength;
  }

  /** A title made of bullet characters only sanitizes to "", so the card falls back to
      the raw title. */
  lemma BulletTitleShownRaw(id: string, transcript: string, summary: string)
    ensures Heading(SessionItem(id, "-", transcript, summary)) == "-"
  {
    assert !IsBlank("-") by { assert "-"[0] == '-' && !IsSpace('-'); }
    Titles.BulletsOnly("-");
  }

  // ---------------------------------------------------------------- the sessionSaved updater

  predicate HasId(list: seq<SessionItem>, id: string) {
    exists i :: 0 <= i < |list| && list[i].id == id
  }

  predicate DistinctIds(list: seq<SessionItem>) {
    forall i, j :: 0 <= i < j < |list| ==> list[i].id != list[j].id
  }

  /** A numeric total moved by `delta`; an unknown total stays unknown. */
  function Shift(total: Option<int>, delta: int): (r: Option<int>)
    ensures r.Some? <==> total.Some?
    ensures r.Some? ==> r.value == total.value + delta
  {
    if total.Some? then Some(total.value + delta) else None
  }

  /** The `sessionSaved` handler. It is registered once, when the component mounts, and
      reads `page` from that first render, where it is 1; so it prepends on every page. A
      session already listed leaves the list as it is; a new one goes to the front and the
      list is cut to the page size. The total grows in both cases. */
  function OnSessionSaved(v: Listing, session: Option<SessionItem>): (r: Listing)
    ensures session.None? ==> r == v
    ensures session.Some? ==> r.total == Shift(v.total, 1)
    ensures session.Some? && HasId(v.sessions, session.value.id) ==> r.sessions == v.sessions
    ensures session.Some? && !HasId(v.sessions, session.value.id) ==>
      r.sessions == [session.value] + Take(v.sessions, PageSize - 1)
    ensures |r.sessions| <= Max(|v.sessions|, PageSize)
    ensures session.Some? ==> HasId(r.sessions, session.value.id)
  {
    match session
    case None => v
    case Some(s) =>
      var list := if HasId(v.sessions, s.id) then v.sessions else Take([s] + v.sessions, PageSize);
      assert !HasId(v.sessions, s.id) ==> list == [s] + Take(v.sessions, PageSize - 1);
      assert !HasId(v.sessions, s.id) ==> list[0] == s;
      Listing(list, Shift(v.total, 1))
  }

  /** Listing ids stay distinct through a `sessionSaved`. */
  lemma SavedKeepsIdsDistinct(v: Listing, session: Option<SessionItem>)
    requires DistinctIds(v.sessions)
    ensures DistinctIds(OnSessionSaved(v, session).sessions)
  {
    if session.Some? && !HasId(v.sessions, session.value.id) {
      var s := session.value;
      var rest := Take(v.sessions, PageSize - 1);
      var list := [s] + rest;
      assert OnSessionSaved(v, session).sessions == list;
      forall i, j | 0 <= i < j < |list| ensures list[i].id != list[j].id {
        if i == 0 {
          assert list[j] == v.sessions[j - 1];
        } else {
          assert list[i] == v.sessions[i - 1] && list[j] == v.sessions[j - 1];
        }
      }
    }
  }

  /** The same session announced twice is listed once but counted twice. */
  lemma SavedTwice(v: Listing, s: SessionItem)
    ensures var once := OnSessionSaved(v, Some(s));
      var twice := OnSessionSaved(once, Some(s));
      twice.sessions == once.sessions && twice.total == Shift(v.total, 2)
  {
  }

  // ---------------------------------------------------------------- the delete updater

  /** The updater of a successful delete: the sessions with another id, in order. */
  function Without(list: seq<SessionItem>, id: string): (r: seq<SessionItem>)
    ensures forall i :: 0 <= i < |r| ==> r[i] in list && r[i].id != id
    ensures forall i :: 0 <= i < |list| && list[i].id != id ==> list[i] in r
  {
    Filter(list, (s: SessionItem) => s.id != id)
  }

  /** The delete handler after the DELETE request: when the store answered `ok`, the
      sessions with that id leave the list and a numeric total drops by one; otherwise
      nothing changes. */
  function OnDeleted(v: Listing, id: string, ok: bool): (r: Listing)
    ensures !ok ==> r == v
    ensures ok ==> r.total == Shift(v.total, -1) && !HasId(r.sessions, id)
    ensures ok ==> forall i :: 0 <= i < |v.sessions| && v.sessions[i].id != id ==> v.sessions[i] in r.sessions
    ensures ok ==> forall i :: 0 <= i < |r.sessions| ==> r.sessions[i] in v.sessions
  {
    if ok then Listing(Without(v.sessions, id), Shift(v.total, -1)) else v
  }

  /** Deleting an id that is not listed leaves the list as it is, yet the total drops. */
  lemma DeleteUnlisted(v: Listing, id: string)
    requires !HasId(v.sessions, id)
    ensures OnDeleted(v, id, true) == Listing(v.sessions, Shift(v.total, -1))
  {
    FilterAll(v.sessions, (s: SessionItem) => s.id != id);
  }

  /** A new session saved and then deleted brings the total back; the list keeps the
      sessions that saving did not push off the page. */
  lemma SaveThenDelete(v: Listing, s: SessionItem)
    requires !HasId(v.sessions, s.id)
    ensures var after := OnDeleted(OnSessionSaved(v, Some(s)), s.id, true);
      after.total == v.total && after.sessions == Take(v.sessions, PageSize - 1)
  {
    var saved := OnSessionSaved(v, Some(s));
    var rest := Take(v.sessions, PageSize - 1);
    assert saved.sessions == [s] + rest;
    assert saved.total == Shift(v.total, 1);
    WithoutNewcomer(v.sessions, s);
  }

  lemma WithoutNewcomer(list: seq<SessionItem>, s: SessionItem)
    requires !HasId(list, s.id)
    ensures Without([s] + Take(list, PageSize - 1), s.id) == Take(list, PageSize - 1)
  {
    var keep := (x: SessionItem) => x.id != s.id;
    var rest := Take(list, PageSize - 1);
    FilterAppend([s], rest, keep);
    assert Filter([s], keep) == [];
    forall i | 0 <= i < |rest| ensures keep(rest[i]) {
      assert rest[i] == list[i];
    }
    FilterAll(rest, keep);
  }

  // ---------------------------------------------------------------- search

  /** A session matches a lowered query when its title, transcript or summary, lowered,
      contains it. */
  predicate Matches(s: SessionItem, query: string) {
    || (s.title != "" && Contains(Lower(s.title), query))
    || (s.transcript != "" && Contains(Lower(s.transcript), query))
    || (s.summary != "" && Contains(Lower(s.summary), query))
  }

  /** The list shown for a query: the current page when the query is blank, else the
      sessions of `all` that match the lowered (untrimmed) query, in their order. */
  function Search(current: seq<SessionItem>, all: seq<SessionItem>, query: string): (r: seq<SessionItem>)
    ensures IsBlank(query) ==> r == current
    ensures !IsBlank(query) ==> |r| <= |all|
    ensures !IsBlank(query) ==> forall i :: 0 <= i < |r| ==> r[i] in all && Matches(r[i], Lower(query))
    ensures !IsBlank(query) ==> forall i :: 0 <= i < |all| && Matches(all[i], Lower(query)) ==> all[i] in r
  {
    if IsBlank(query) then current
    else Filter(all, (s: SessionItem) => Matches(s, Lower(query)))
  }

  /** For a non-blank query the matches stay in their order: one more session is appended
      to the result exactly when it matches. */
  lemma SearchInOrder(current: seq<SessionItem>, all: seq<SessionItem>, x: SessionItem, query: string)
    requires !IsBlank(query)
    ensures Search(current, all + [x], query)
         == Search(current, all, query) + (if Matches(x, Lower(query)) then [x] else [])
  {
    FilterSnoc(all, x, (s: SessionItem) => Matches(s, Lower(query)));
  }

  /** A string holding `a + b` holds `a`. */
  lemma {:induction false} ContainsPrefixOf(s: string, a: string, b: string)
    requires Contains(s, a + b)
    ensures Contains(s, a)
    decreases |s|
  {
    if !(a + b <= s) {
      ContainsPrefixOf(s[1..], a, b);
    } else {
      assert a <= s by { assert a == (a + b)[..|a|]; }
    }
  }

  lemma LowerAppend(a: string, b: string)
    ensures Lower(a + b) == Lower(a) + Lower(b)
  {
  }

  /** Typing more never adds results: every session found for `query + more` is found for
      `query` too. */
  lemma NarrowingQuery(current: seq<SessionItem>, all: seq<SessionItem>, query: string, more: string)
    requires !IsBlank(query)
    ensures !IsBlank(query + more)
    ensures forall i :: 0 <= i < |Search(current, all, query + more)| ==>
      Search(current, all, query + more)[i] in Search(current, all, query)
  {
    assert (query + more)[..|query|] == query;
    assert !IsBlank(query + more) by {
      var k :| 0 <= k < |query| && !IsSpace(query[k]);
      assert (query + more)[k] == query[k];
    }
    LowerAppend(query, more);
    var wide := Search(current, all, query);
    var narrow := Search(current, all, query + more);
    forall i | 0 <= i < |narrow| ensures narrow[i] in wide {
      var s := narrow[i];
      assert Matches(s, Lower(query) + Lower(more));
      if s.title != "" && Contains(Lower(s.title), Lower(query) + Lower(more)) {
        ContainsPrefixOf(Lower(s.title), Lower(query), Lower(more));
      } else if s.transcript != "" && Contains(Lower(s.transcript), Lower(query) + Lower(more)) {
        ContainsPrefixOf(Lower(s.transcript), Lower(query), Lower(more));
      } else {
        ContainsPrefixOf(Lower(s.summary), Lower(query), Lower(more));
      }
      assert Matches(s, Lower(query));
    }
  }
}
