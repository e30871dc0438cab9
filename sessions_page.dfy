/** The recordings list, app/sessions/page.tsx: the list read from whatever shape the
    sessions endpoint answers with, and each card's heading, owner line, keyword chips,
    summary preview, audio source and details link. A missing text field is "", except
    the two ids, which the page also writes into URLs, where a missing one reads
    "undefined". */
module SessionsPage {
  import opened Strings
  import Titles
  import SessionHistory

  const ChipLimit: nat := 8
  const PreviewLength: nat := 220

  datatype Card = Card(id: Option<string>, clientSessionId: Option<string>, title: string,
                       ownerEmail: string, summary: string, keywords: seq<string>)

  /** The parsed reply: an array of sessions, or an object whose `sessions`, `data` and
      `results` fields are `Some` exactly when they hold an array. */
  datatype Payload =
    | ListPayload(items: seq<Card>)
    | ObjectPayload(sessions: Option<seq<Card>>, data: Option<seq<Card>>, results: Option<seq<Card>>)

  datatype User = User(email: string, name: string)

  // ---------------------------------------------------------------- the list

  /** The sessions the page shows: from `sessions`, else the array itself, else `data`,
      else `results`, else none; no reply (a body that is not JSON) gives none. */
  function Items(json: Option<Payload>): (r: seq<Card>)
    ensures json.None? ==> r == []
    ensures json.Some? && json.value.ListPayload? ==> r == json.value.items
    ensures json.Some? && json.value.ObjectPayload? ==>
      var p := json.value;
      && (p.sessions.Some? ==> r == p.sessions.value)
      && (p.sessions.None? && p.data.Some? ==> r == p.data.value)
      && (p.sessions.None? && p.data.None? && p.results.Some? ==> r == p.results.value)
      && (p.sessions.None? && p.data.None? && p.results.None? ==> r == [])
  {
    match json
    case None => []
    case Some(ListPayload(items)) => items
    case Some(ObjectPayload(sessions, data, results)) =>
      if sessions.Some? then sessions.value
      else if data.Some? then data.value
      else if results.Some? then results.value
      else []
  }

  /** Whatever the page lists is one of the arrays of the reply. */
  lemma ItemsComeFromReply(json: Option<Payload>)
    ensures var r := Items(json);
      r == [] || (json.Some? && (json.value.ListPayload? ==> r == json.value.items)
                  && (json.value.ObjectPayload? ==>
                        Some(r) in [json.value.sessions, json.value.data, json.value.results]))
  {
  }

  /** `${n} recording(s)` above the list, or "Loading…" while the request runs. */
  function CountLabel(loading: bool, n: nat): (r: string)
    ensures loading ==> r == "Loading\U{2026}"
    ensures !loading ==> exists k :: 0 < k < |r| && r[..k] == NatToString(n) && r[k] == ' '
    ensures !loading && n == 1 ==> EndsWith(r, " recording")
    ensures !loading && n != 1 ==> EndsWith(r, " recordings")
  {
    if loading then "Loading\U{2026}"
    else
      var digits := NatToString(n);
      var word := if n == 1 then " recording" else " recordings";
      var r := digits + word;
      EndsWithAppended(digits, word);
      assert r[..|digits|] == digits && r[|digits|] == ' ';
      r
  }

  /** The count label names the number of cards in decimal. */
  lemma CountLabelReadsBack(n: nat)
    ensures var r := CountLabel(false, n);
      exists k :: 0 < k < |r| && AllDigits(r[..k]) && DigitsValue(r[..k]) == n
  {
    NatToStringValue(n);
    var r := CountLabel(false, n);
    var k :| 0 < k < |r| && r[..k] == NatToString(n) && r[k] == ' ';
    assert AllDigits(r[..k]) && DigitsValue(r[..k]) == n;
  }

  // ---------------------------------------------------------------- the cards

  /** A field the page tests with `||`: present and not empty. */
  predicate Truthy(o: Option<string>) { o.Some? && o.value != "" }

  /** A field written into a template string: its text, or "undefined" when missing. */
  function Render(o: Option<string>): string
  {
    if o.Some? then o.value else "undefined"
  }

  /** The card heading: the sanitized title, else the raw title, else the id, else the
      client session id, else "Untitled". */
  function Heading(c: Card): (r: string)
    ensures r != ""
    ensures Titles.SanitizeTitle(c.title) != "" ==> r == Titles.SanitizeTitle(c.title)
    ensures Titles.SanitizeTitle(c.title) == "" && c.title != "" ==> r == c.title
    ensures c.title == "" && Truthy(c.id) ==> r == c.id.value
    ensures c.title == "" && !Truthy(c.id) && Truthy(c.clientSessionId) ==> r == c.clientSessionId.value
    ensures c.title == "" && !Truthy(c.id) && !Truthy(c.clientSessionId) ==> r == "Untitled"
  {
    var t := Titles.SanitizeTitle(c.title);
    if t != "" then t
    else if c.title != "" then c.title
    else if Truthy(c.id) then c.id.value
    else if Truthy(c.clientSessionId) then c.clientSessionId.value
    else "Untitled"
  }

  /** A card with a title is headed by that title, cleaned or raw, never by an id; and
      when the cleaned title is used the heading is one line. */
  lemma TitleWins(c: Card)
    requires c.title != ""
    ensures Heading(c) == Titles.SanitizeTitle(c.title) || Heading(c) == c.title
    ensures Titles.SanitizeTitle(c.title) != "" ==> '\n' !in Heading(c)
  {
    Titles.SanitizedShape(c.title);
  }

  /** The owner line: the card's owner email, else the signed-in user's email, else their
      name, else "Unknown owner". */
  function Owner(c: Card, user: Option<User>): (r: string)
    ensures r != ""
    ensures c.ownerEmail != "" ==> r == c.ownerEmail
    ensures c.ownerEmail == "" && user.Some? && user.value.email != "" ==> r == user.value.email
    ensures c.ownerEmail == "" && user.Some? && user.value.email == "" && user.value.name != "" ==> r == user.value.name
    ensures c.ownerEmail == "" && (user.None? || (user.value.email == "" && user.value.name == "")) ==> r == "Unknown owner"
  {
    if c.ownerEmail != "" then c.ownerEmail
    else if user.Some? && user.value.email != "" then user.value.email
    else if user.Some? && user.value.name != "" then user.value.name
    else "Unknown owner"
  }

  /** The keyword chips: the first eight keywords; none are shown for an empty list. */
  function Chips(c: Card): (r: seq<string>)
    ensures |r| <= ChipLimit && r <= c.keywords
    ensures r == [] <==> c.keywords == []
    ensures |c.keywords| <= ChipLimit ==> r == c.keywords
  {
    Take(c.keywords, ChipLimit)
  }

  /** The summary preview: none without a summary, else its first 220 characters with an
      ellipsis when cut. */
  function Preview(c: Card): (r: Option<string>)
    ensures r.None? <==> c.summary == ""
    ensures r.Some? ==> Take(c.summary, PreviewLength) <= r.value && |r.value| <= PreviewLength + 1
    ensures r.Some? && |c.summary| <= PreviewLength ==> r.value == c.summary
    ensures |c.summary| > PreviewLength ==> r == Some(c.summary[..PreviewLength] + "\U{2026}")
  {
    if c.summary == "" then None else Some(Ellipsize(c.summary, PreviewLength))
  }

  /** For a summary that is not blank the preview is the excerpt the session history
      shows for the same session. */
  lemma PreviewMatchesHistory(c: Card, transcript: string)
    requires !IsBlank(c.summary)
    ensures Preview(c) == Some(SessionHistory.GetExcerpt(
      SessionHistory.SessionItem(Render(c.id), c.title, transcript, c.summary)))
  {
  }

  /** The audio player's source: shown when the card has either id, and always built from
      `id`. */
  function AudioSource(c: Card): (r: Option<string>)
    ensures r.Some? <==> Truthy(c.id) || Truthy(c.clientSessionId)
    ensures r.Some? ==> r.value == "/api/sessions/" + Render(c.id) + "/audio"
  {
    if Truthy(c.id) || Truthy(c.clientSessionId) then Some("/api/sessions/" + Render(c.id) + "/audio")
    else None
  }

  /** The "View Details" link: to the id, else to the client session id. */
  function DetailsLink(c: Card): (r: string)
    ensures Truthy(c.id) ==> r == "/sessions/" + c.id.value
    ensures !Truthy(c.id) ==> r == "/sessions/" + Render(c.clientSessionId)
  {
    "/sessions/" + (if Truthy(c.id) then c.id.value else Render(c.clientSessionId))
  }

  /** A card known only by its client session id links to that id, but its player's
      source names no session: the path segment reads "undefined". */
  lemma LinkFollowsClientId(c: Card)
    requires c.id.None? && Truthy(c.clientSessionId)
    ensures DetailsLink(c) == "/sessions/" + c.clientSessionId.value
    ensures AudioSource(c) == Some("/api/sessions/" + "undefined" + "/audio")
  {
  }
}
