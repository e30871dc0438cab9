/** Summaries (`generateSummary` of server/gemini.js and the placeholder of lib/gemini.ts).

    The language model is an oracle: its reply is a parameter, and so is `JSON.parse`, as a
    function from the candidate text to the fields the code reads. What is modelled is
    what the code does with them: the JSON candidate between the first `{` and the last
    `}`, the plain-text rendering of the structured summary, and the fallback objects that
    make `generateSummary` never throw. */
module Summarizer {
  import opened Strings
  import Keywords

  // ---------------------------------------------------------------- parsed replies

  /** A field as `JSON.parse` leaves it when the code prints it without a test: absent,
      `null`, or a string. */
  datatype Field = Absent | Null | Text(text: string)

  /** `${field}`: an absent field prints "undefined" and a `null` one "null". */
  function Interpolated(f: Field): (r: string)
    ensures f.Text? ==> r == f.text
    ensures f.Absent? ==> r == "undefined"
    ensures f.Null? ==> r == "null"
  {
    match f
    case Absent => "undefined"
    case Null => "null"
    case Text(t) => t
  }

  /** An action item as parsed. `type`, `assignee` and `deadline` are only tested for
      truthiness, so a missing or falsy one is the empty string; the description is printed
      as it is, so it keeps the difference between absent, `null` and a string. */
  datatype JsonItem = JsonItem(kind: string, description: Field, assignee: string, deadline: string)

  /** The fields of the parsed reply the code reads: `title`, `name`, `bullets` (`None`
      when it is not an array), `points` (`[]` when missing) and `actionItems` (`[]` when
      not an array). */
  datatype JsonSummary = JsonSummary(title: string, name: string, bullets: Option<seq<string>>,
                                     points: seq<string>, actionItems: seq<JsonItem>)

  /** What `generateSummary` returns. */
  datatype Summary = Summary(title: string, bullets: seq<string>, text: string,
                             keywords: seq<string>, actionItems: seq<JsonItem>)

  /** What the provider call ends in: an exception (a non-ok status included), a reply
      without a usable first choice, or the text of the first choice. */
  datatype Reply = Threw(message: string) | NoChoices | Answered(content: string)

  const SummaryKeywordLimit: nat := 6
  const PlaceholderPreview: nat := 160
  const FallbackPreview: nat := 400

  /** `parsed.title || parsed.name || ''`. */
  function SummaryTitle(p: JsonSummary): string
  {
    if p.title != "" then p.title else p.name
  }

  /** `Array.isArray(parsed.bullets) ? parsed.bullets : (parsed.points || [])`. */
  function SummaryBullets(p: JsonSummary): seq<string>
  {
    if p.bullets.Some? then p.bullets.value else p.points
  }

  // ---------------------------------------------------------------- the JSON candidate

  /** `raw.slice(raw.indexOf('{'), raw.lastIndexOf('}') + 1)` when both braces occur, and
      `raw` itself otherwise. */
  function Candidate(raw: string): (r: string)
    ensures |r| <= |raw|
    ensures r != raw ==> r == [] || (r[0] == '{' && r[|r| - 1] == '}')
  {
    var first := IndexOfChar(raw, '{');
    var last := LastIndexOfChar(raw, '}');
    if first == -1 || last == -1 then raw
    else if first <= last then raw[first..last + 1]
    else ""
  }

  /** `c` occurs at `i` and nowhere before. */
  predicate FirstAt(s: string, c: char, i: int) {
    0 <= i < |s| && s[i] == c && forall k :: 0 <= k < i ==> s[k] != c
  }

  /** `c` occurs at `j` and nowhere after. */
  predicate LastAt(s: string, c: char, j: int) {
    0 <= j < |s| && s[j] == c && forall k :: j < k < |s| ==> s[k] != c
  }

  /** Without both braces the whole reply is the candidate. */
  lemma CandidateWithoutBraces(raw: string)
    requires '{' !in raw || '}' !in raw
    ensures Candidate(raw) == raw
  {
  }

  /** With the first `{` at `i` and the last `}` at `j`, the candidate is the stretch from
      one to the other when `i <= j`, and empty when every `}` comes before the first `{`. */
  lemma CandidateStretch(raw: string, i: int, j: int)
    requires FirstAt(raw, '{', i) && LastAt(raw, '}', j)
    ensures i <= j ==> Candidate(raw) == raw[i..j + 1]
    ensures j < i ==> Candidate(raw) == ""
  {
    FirstIndex(raw, '{', i);
    LastIndex(raw, '}', j);
  }

  lemma FirstIndex(s: string, c: char, i: int)
    requires FirstAt(s, c, i)
    ensures IndexOfChar(s, c) == i
  {
    assert c in s by { assert s[i] == c; }
  }

  lemma LastIndex(s: string, c: char, j: int)
    requires LastAt(s, c, j)
    ensures LastIndexOfChar(s, c) == j
  {
  }

  // ---------------------------------------------------------------- rendering

  /** `${type || 'TASK'}: ${description}`, then ` (@assignee)` and ` [Due: deadline]` when
      those fields are set. */
  function ItemLine(it: JsonItem): (r: string)
    ensures (if it.kind != "" then it.kind else "TASK") + ": " <= r
    ensures ('\n' !in it.kind && '\n' !in Interpolated(it.description) && '\n' !in it.assignee
             && '\n' !in it.deadline) ==> '\n' !in r
  {
    (if it.kind != "" then it.kind else "TASK") + ": " + Interpolated(it.description)
    + (if it.assignee != "" then " (@" + it.assignee + ")" else "")
    + (if it.deadline != "" then " [Due: " + it.deadline + "]" else "")
  }

  function BulletLines(bullets: seq<string>): (ls: seq<string>)
    ensures |ls| == |bullets|
  {
    seq(|bullets|, i requires 0 <= i < |bullets| => "- " + bullets[i])
  }

  function ItemLines(items: seq<JsonItem>): (ls: seq<string>)
    ensures |ls| == |items|
  {
    seq(|items|, i requires 0 <= i < |items| => ItemLine(items[i]))
  }

  /** The lines pushed into `sb`: the title line, the bullet section and the action item
      section, each only when it has something to show. */
  function SummaryLines(p: JsonSummary): (ls: seq<string>)
    ensures ls == [] <==> SummaryTitle(p) == "" && SummaryBullets(p) == [] && p.actionItems == []
  {
    var title := SummaryTitle(p);
    var bullets := SummaryBullets(p);
    (if title != "" then ["Title: " + title] else [])
    + (if bullets != [] then ["Bullets:"] + BulletLines(bullets) else [])
    + (if p.actionItems != [] then ["\nAction Items:"] + ItemLines(p.actionItems) else [])
  }

  /** The renderer as written: pushes the lines one by one into `sb` and joins them with
      "\n". */
  method RenderSummary(p: JsonSummary) returns (text: string)
    ensures text == Join(SummaryLines(p), "\n")
  {
    var title := SummaryTitle(p);
    var bullets := SummaryBullets(p);
    var items := p.actionItems;
    ghost var titlePart := if title != "" then ["Title: " + title] else [];
    ghost var bulletPart := if bullets != [] then ["Bullets:"] + BulletLines(bullets) else [];
    ghost var itemPart := if items != [] then ["\nAction Items:"] + ItemLines(items) else [];
    var sb: seq<string> := [];
    if title != "" {
      sb := sb + ["Title: " + title];
    }
    assert sb == titlePart;
    if bullets != [] {
      sb := sb + ["Bullets:"];
      sb := PushBullets(sb, bullets);
      Regroup(titlePart, ["Bullets:"], BulletLines(bullets));
    }
    assert sb == titlePart + bulletPart;
    if items != [] {
      sb := sb + ["\nAction Items:"];
      sb := PushItems(sb, items);
      Regroup(titlePart + bulletPart, ["\nAction Items:"], ItemLines(items));
    }
    assert sb == titlePart + bulletPart + itemPart;
    text := Join(sb, "\n");
  }

  lemma Regroup(a: seq<string>, b: seq<string>, c: seq<string>)
    ensures a + b + c == a + (b + c)
  {
  }

  /** `for (const b of bullets) sb.push(`- ${String(b)}`)`. */
  method PushBullets(sb: seq<string>, bullets: seq<string>) returns (r: seq<string>)
    ensures r == sb + BulletLines(bullets)
  {
    r := sb;
    for i := 0 to |bullets|
      invariant r == sb + BulletLines(bullets[..i])
    {
      assert BulletLines(bullets[..i + 1]) == BulletLines(bullets[..i]) + ["- " + bullets[i]];
      r := r + ["- " + bullets[i]];
    }
    assert bullets[..|bullets|] == bullets;
  }

  /** The loop over the action items. */
  method PushItems(sb: seq<string>, items: seq<JsonItem>) returns (r: seq<string>)
    ensures r == sb + ItemLines(items)
  {
    r := sb;
    for i := 0 to |items|
      invariant r == sb + ItemLines(items[..i])
    {
      assert ItemLines(items[..i + 1]) == ItemLines(items[..i]) + [ItemLine(items[i])];
      r := r + [ItemLine(items[i])];
    }
    assert items[..|items|] == items;
  }

  /** Where each line sits: the title first when there is one, then "Bullets:" and one
      "- b" per bullet in order, then the action item header and one line per item. */
  lemma SummaryLinesLayout(p: JsonSummary)
    ensures var ls := SummaryLines(p); var t := if SummaryTitle(p) != "" then 1 else 0;
      var bs := SummaryBullets(p); var b := if bs != [] then |bs| + 1 else 0;
      var items := p.actionItems;
      && |ls| == t + b + (if items != [] then |items| + 1 else 0)
      && (t == 1 ==> ls[0] == "Title: " + SummaryTitle(p))
      && (bs != [] ==> ls[t] == "Bullets:" && forall i :: 0 <= i < |bs| ==> ls[t + 1 + i] == "- " + bs[i])
      && (items != [] ==> ls[t + b] == "\nAction Items:"
                          && forall i :: 0 <= i < |items| ==> ls[t + b + 1 + i] == ItemLine(items[i]))
  {
  }

  /** An item line starts with its type (TASK when missing) and its description as
      interpolated ("undefined" when absent, "null" when `null`), and ends with the due date
      when there is one, else with the assignee when there is one. */
  lemma ItemLineShape(it: JsonItem)
    ensures var tag := if it.kind != "" then it.kind else "TASK";
      var desc := Interpolated(it.description);
      && tag + ": " + desc <= ItemLine(it)
      && (it.deadline != "" ==> EndsWith(ItemLine(it), " [Due: " + it.deadline + "]"))
      && (it.deadline == "" && it.assignee != "" ==> EndsWith(ItemLine(it), " (@" + it.assignee + ")"))
      && (it.deadline == "" && it.assignee == "" ==> ItemLine(it) == tag + ": " + desc)
  {
    var tag := if it.kind != "" then it.kind else "TASK";
    var desc := Interpolated(it.description);
    var head := tag + ": " + desc;
    var a := if it.assignee != "" then " (@" + it.assignee + ")" else "";
    var d := if it.deadline != "" then " [Due: " + it.deadline + "]" else "";
    assert ItemLine(it) == head + a + d;
    PrefixAppend(head, a + d);
    assert ItemLine(it) == head + (a + d);
    if it.deadline != "" {
      EndsWithAppend(head + a, d);
    } else if it.assignee != "" {
      assert ItemLine(it) == head + a;
      EndsWithAppend(head, a);
    }
  }

  lemma PrefixAppend(x: string, y: string)
    ensures x <= x + y
  {
  }

  lemma EndsWithAppend(x: string, y: string)
    ensures EndsWith(x + y, y)
  {
    assert (x + y)[|x|..] == y;
  }

  /** A reply item with only a type renders its description as "undefined". */
  lemma MissingDescription()
    ensures ItemLine(JsonItem("TASK", Absent, "", "")) == "TASK: undefined"
  {
  }

  // ---------------------------------------------------------------- generateSummary

  /** The summary of a transcript when no API key is configured. */
  function NoKeySummary(transcript: string): (r: Summary)
    ensures r.title == "" && r.bullets == [] && r.actionItems == []
    ensures "(placeholder) summary: " <= r.text
    ensures r.text[|"(placeholder) summary: "|..] == Take(transcript, PlaceholderPreview)
    ensures |r.text| == |"(placeholder) summary: "| + Min(|transcript|, PlaceholderPreview)
  {
    Summary("", [], "(placeholder) summary: " + Take(transcript, PlaceholderPreview),
            Keywords.Keywords(transcript, SummaryKeywordLimit), [])
  }

  /** The summary when anything fails: an exception message in the text. */
  function ErrorSummary(transcript: string, message: string): (r: Summary)
    ensures r.title == "" && r.bullets == [] && r.actionItems == []
    ensures "(error generating summary: " <= r.text
    ensures |r.text| == |"(error generating summary: "| + |message| + 1
  {
    Summary("", [], "(error generating summary: " + (message + ")"),
            Keywords.Keywords(transcript, SummaryKeywordLimit), [])
  }

  /** `generateSummary`: `parse` stands for `JSON.parse` of the candidate text. */
  function GenerateSummary(transcript: string, apiKey: string, reply: Reply,
                           parse: string -> Option<JsonSummary>): (r: Summary)
    ensures r.keywords == Keywords.Keywords(transcript, SummaryKeywordLimit)
  {
    var keywords := Keywords.Keywords(transcript, SummaryKeywordLimit);
    if apiKey == "" then NoKeySummary(transcript)
    else match reply
      case Threw(message) => ErrorSummary(transcript, message)
      case NoChoices =>
        Summary("", [], Take(transcript, FallbackPreview) + (if |transcript| > FallbackPreview then "..." else ""),
                keywords, [])
      case Answered(content) =>
        var raw := Trim(content);
        match parse(Candidate(raw))
        case None => Summary("", [], raw, keywords, [])
        case Some(p) => Summary(SummaryTitle(p), SummaryBullets(p), Join(SummaryLines(p), "\n"), keywords, p.actionItems)
  }

  /** Six keywords at most, as `extractKeywords(fullTranscript, 6)` promises. */
  lemma SummaryKeywordsBound(transcript: string)
    ensures |Keywords.Keywords(transcript, SummaryKeywordLimit)| <= SummaryKeywordLimit
  {
    Keywords.KeywordsFacts(transcript, SummaryKeywordLimit);
  }

  /** Every path returns a summary: the keywords are those of the transcript whatever the
      provider did; only a parsed reply gives a title, bullets or action items; and an
      unparsable reply is passed on as its trimmed text. */
  lemma SummaryAlwaysHasKeywords(transcript: string, apiKey: string, reply: Reply,
                                 parse: string -> Option<JsonSummary>)
    ensures var s := GenerateSummary(transcript, apiKey, reply, parse);
      && s.keywords == Keywords.Keywords(transcript, SummaryKeywordLimit)
      && |s.keywords| <= SummaryKeywordLimit
      && (s.title != "" || s.bullets != [] || s.actionItems != [] ==>
            apiKey != "" && reply.Answered? && parse(Candidate(Trim(reply.content))).Some?)
      && (apiKey != "" && reply.Answered? && parse(Candidate(Trim(reply.content))).None? ==>
            s.text == Trim(reply.content))
  {
    SummaryKeywordsBound(transcript);
    var s := GenerateSummary(transcript, apiKey, reply, parse);
    var keywords := Keywords.Keywords(transcript, SummaryKeywordLimit);
    if apiKey == "" {
      assert s == NoKeySummary(transcript);
    } else if reply.Threw? {
      assert s == ErrorSummary(transcript, reply.message);
    } else if reply.NoChoices? {
      assert s.keywords == keywords && s.title == "" && s.bullets == [] && s.actionItems == [];
    } else {
      var raw := Trim(reply.content);
      if parse(Candidate(raw)).None? {
        assert s == Summary("", [], raw, keywords, []);
      } else {
        assert s.keywords == keywords;
      }
    }
  }

  /** Without an API key: no title, bullets or action items, and the first 160 characters
      of the transcript after "(placeholder) summary: ". */
  lemma NoKeyFallback(transcript: string, reply: Reply, parse: string -> Option<JsonSummary>)
    ensures var s := GenerateSummary(transcript, "", reply, parse);
      && s.title == "" && s.bullets == [] && s.actionItems == []
      && "(placeholder) summary: " <= s.text
      && s.text[|"(placeholder) summary: "|..] == Take(transcript, PlaceholderPreview)
      && |s.text| == |"(placeholder) summary: "| + Min(|transcript|, PlaceholderPreview)
  {
    var s := GenerateSummary(transcript, "", reply, parse);
    assert s == NoKeySummary(transcript);
  }

  /** An exception gives its message in the text and nothing else but the keywords. */
  lemma ErrorFallback(transcript: string, apiKey: string, message: string,
                      parse: string -> Option<JsonSummary>)
    requires apiKey != ""
    ensures var s := GenerateSummary(transcript, apiKey, Threw(message), parse);
      && s == Summary("", [], s.text, s.keywords, [])
      && "(error generating summary: " <= s.text && EndsWith(s.text, message + ")")
  {
    var s := GenerateSummary(transcript, apiKey, Threw(message), parse);
    assert s == ErrorSummary(transcript, message);
    EndsWithAppend("(error generating summary: ", message + ")");
    assert s.text == "(error generating summary: " + (message + ")");
  }

  /** A reply without choices gives the first 400 characters of the transcript, with
      "..." exactly when the transcript is longer. */
  lemma NoChoicesFallback(transcript: string, apiKey: string, parse: string -> Option<JsonSummary>)
    requires apiKey != ""
    ensures var s := GenerateSummary(transcript, apiKey, NoChoices, parse);
      && s.title == "" && s.bullets == [] && s.actionItems == []
      && (|transcript| <= FallbackPreview ==> s.text == transcript)
      && (|transcript| > FallbackPreview ==> s.text == transcript[..FallbackPreview] + "...")
  {
  }

  // ---------------------------------------------------------------- lib/gemini.ts

  /** What the placeholder summarizer returns. */
  datatype Placeholder = Placeholder(title: string, text: string, keywords: seq<string>)

  const PlaceholderTitleLength: nat := 80
  const PlaceholderExcerpt: nat := 400

  /** The placeholder `generateSummary` (`split('\n')[0]` is `FirstLine`, by
      `FirstLineIsFirstPart`): the first line of the 400-character preview, cut
      to 80 characters, as the title (a default for an empty transcript), the preview in
      the text and at most six keywords. */
  function PlaceholderSummary(transcript: string): (r: Placeholder)
    ensures |r.title| <= PlaceholderTitleLength || transcript == []
    ensures transcript == [] <==> r.title == "Untitled session summary" && r.text == "Summary placeholder for transcript excerpt: "
    ensures transcript != [] ==> r.title == Take(FirstLine(transcript), PlaceholderTitleLength)
    ensures transcript != [] ==> r.title <= transcript && '\n' !in r.title
    ensures transcript != [] && transcript[0] == '\n' ==> r.title == ""
    ensures r.text == "Summary placeholder for transcript excerpt: " + Take(transcript, PlaceholderExcerpt)
    ensures r.keywords == Keywords.Keywords(transcript, SummaryKeywordLimit)
    ensures |r.keywords| <= SummaryKeywordLimit
  {
    SummaryKeywordsBound(transcript);
    FirstLineOfPreview(transcript, PlaceholderExcerpt, PlaceholderTitleLength);
    var preview := Take(transcript, PlaceholderExcerpt);
    var title := if preview != [] then Take(FirstLine(preview), PlaceholderTitleLength) else "Untitled session summary";
    var lead := "Summary placeholder for transcript excerpt: ";
    assert |lead + preview| == |lead| + |preview|;
    Placeholder(title, lead + preview, Keywords.Keywords(transcript, SummaryKeywordLimit))
  }

  /** Cutting the text before taking its first line changes nothing within the cut. */
  lemma {:induction false} FirstLineOfPreview(t: string, n: nat, m: nat)
    requires m <= n
    ensures Take(FirstLine(Take(t, n)), m) == Take(FirstLine(t), m)
    decreases |t|
  {
    if t != [] && n > 0 && t[0] != '\n' && m > 0 {
      var p := Take(t, n);
      assert p[0] == t[0] && p[1..] == Take(t[1..], n - 1);
      FirstLineOfPreview(t[1..], n - 1, m - 1);
      assert FirstLine(p) == [t[0]] + FirstLine(p[1..]);
      assert FirstLine(t) == [t[0]] + FirstLine(t[1..]);
      TakeCons(t[0], FirstLine(p[1..]), m);
      TakeCons(t[0], FirstLine(t[1..]), m);
    } else if t != [] && n > 0 && t[0] == '\n' {
      assert Take(t, n)[0] == '\n';
    }
  }

  lemma TakeCons(c: char, x: string, m: nat)
    requires m > 0
    ensures Take([c] + x, m) == [c] + Take(x, m - 1)
  {
  }

  /** `transcribeAudioChunk` (also exported as `transcribeAudioBuffer`): a fixed text
      naming the session, whatever the audio. */
  function TranscribeAudioChunk(audio: seq<bv8>, sessionId: string): (r: string)
    ensures "Transcription placeholder for session " <= r && EndsWith(r, sessionId)
    ensures |r| == |"Transcription placeholder for session "| + |sessionId|
  {
    "Transcription placeholder for session " + sessionId
  }
}
