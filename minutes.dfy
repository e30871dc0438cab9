/** Meeting minutes on the client: the plain-text serialiser `formatMinutesAsText`, which
    app/minutes/page.tsx and app/components/MeetingMinutes.tsx each define, the minutes
    page's session list and its `generateMinutes` updaters, and the MeetingMinutes panel.
    The minutes themselves come from a remote model and are a parameter here; a missing
    text field is "". */
module Minutes {
  import opened Strings

  datatype ActionItem = ActionItem(task: string, assignee: string, dueDate: string)

  datatype MinutesDoc = MinutesDoc(title: string, date: string, attendees: seq<string>,
                                   agenda: seq<string>, keyPoints: seq<string>,
                                   decisions: seq<string>, actionItems: seq<ActionItem>,
                                   nextSteps: seq<string>)

  const Banner: string := "MEETING MINUTES\n===================\n\n"

  // ---------------------------------------------------------------- the text

  /** One bullet line. */
  function Line(item: string): string { "  • " + item + "\n" }

  /** The bullet lines of a list, in order. */
  function Bullets(items: seq<string>): string
  {
    if items == [] then "" else Line(items[0]) + Bullets(items[1..])
  }

  /** `text` followed by the bullet lines of `items`, appended one by one. */
  function AddBullets(text: string, items: seq<string>): string
    decreases |items|
  {
    if items == [] then text else AddBullets(text + "  • " + items[0] + "\n", items[1..])
  }

  /** Action item `i` (from 0) appended to `text`: its numbered task line, then the
      assignee and the due date on lines of their own when they are set. */
  function AddAction(text: string, i: nat, item: ActionItem): string
  {
    var a := text + "  " + NatToString(i + 1) + ". " + item.task + "\n";
    var b := if item.assignee != "" then a + "     Assignee: " + item.assignee + "\n" else a;
    if item.dueDate != "" then b + "     Due: " + item.dueDate + "\n" else b
  }

  /** The lines of action item `i` on their own. */
  function ActionBlock(i: nat, item: ActionItem): string { AddAction("", i, item) }

  /** `text` followed by the action items numbered from `start + 1`. */
  function AddActions(text: string, items: seq<ActionItem>, start: nat): string
    decreases |items|
  {
    if items == [] then text else AddActions(AddAction(text, start, items[0]), items[1..], start + 1)
  }

  /** The title and date lines. */
  function Opening(text: string, m: MinutesDoc): string
  {
    text + "Title: " + m.title + "\n" + "Date: " + m.date + "\n\n"
  }

  /** The three sections that are always present: a header, the lines and a blank line. */
  function WithAttendees(text: string, m: MinutesDoc): string
  {
    AddBullets(Opening(text, m) + "ATTENDEES:\n", m.attendees) + "\n"
  }

  function WithAgenda(text: string, m: MinutesDoc): string
  {
    AddBullets(WithAttendees(text, m) + "AGENDA:\n", m.agenda) + "\n"
  }

  function WithKeyPoints(text: string, m: MinutesDoc): string
  {
    AddBullets(WithAgenda(text, m) + "KEY POINTS:\n", m.keyPoints) + "\n"
  }

  /** Decisions, action items and next steps, each only when its list is not empty. */
  function WithDecisions(text: string, m: MinutesDoc): string
  {
    if m.decisions != [] then AddBullets(text + "DECISIONS:\n", m.decisions) + "\n" else text
  }

  function WithActions(text: string, m: MinutesDoc): string
  {
    if m.actionItems != [] then AddActions(text + "ACTION ITEMS:\n", m.actionItems, 0) + "\n" else text
  }

  function WithNextSteps(text: string, m: MinutesDoc): string
  {
    if m.nextSteps != [] then AddBullets(text + "NEXT STEPS:\n", m.nextSteps) else text
  }

  /** The text both copies of `formatMinutesAsText` produce. */
  function MinutesText(m: MinutesDoc): string
  {
    WithNextSteps(WithActions(WithDecisions(WithKeyPoints(Banner, m), m), m), m)
  }

  // ---------------------------------------------------------------- the two serialisers

  /** `formatMinutesAsText` of the minutes page: the banner in one piece, then every list
      appended item by item. */
  method FormatMinutesAsText(m: MinutesDoc) returns (text: string)
    ensures text == MinutesText(m)
  {
    text := "MEETING MINUTES\n===================\n\n";
    text := AppendSections(text, m);
  }

  /** `formatMinutesAsText` of the MeetingMinutes panel: the banner in two pieces, the rest
      as on the minutes page; so the two produce the same text for every input. */
  method FormatPanelText(m: MinutesDoc) returns (text: string)
    ensures text == MinutesText(m)
  {
    text := "MEETING MINUTES\n";
    text := text + "===================\n\n";
    assert text == Banner;
    text := AppendSections(text, m);
  }

  /** Everything after the banner. */
  method AppendSections(text: string, m: MinutesDoc) returns (out: string)
    ensures out == WithNextSteps(WithActions(WithDecisions(WithKeyPoints(text, m), m), m), m)
  {
    out := text + "Title: " + m.title + "\n";
    out := out + "Date: " + m.date + "\n\n";
    out := out + "ATTENDEES:\n";
    out := AppendBullets(out, m.attendees);
    out := out + "\n";
    out := out + "AGENDA:\n";
    out := AppendBullets(out, m.agenda);
    out := out + "\n";
    out := out + "KEY POINTS:\n";
    out := AppendBullets(out, m.keyPoints);
    out := out + "\n";
    if |m.decisions| > 0 {
      out := out + "DECISIONS:\n";
      out := AppendBullets(out, m.decisions);
      out := out + "\n";
    }
    if |m.actionItems| > 0 {
      out := out + "ACTION ITEMS:\n";
      out := AppendActions(out, m.actionItems);
      out := out + "\n";
    }
    if |m.nextSteps| > 0 {
      out := out + "NEXT STEPS:\n";
      out := AppendBullets(out, m.nextSteps);
    }
  }

  /** `items.forEach(x => text += '  • ' + x + '\n')`. */
  method AppendBullets(text: string, items: seq<string>) returns (out: string)
    ensures out == AddBullets(text, items)
  {
    out := text;
    for i := 0 to |items|
      invariant AddBullets(out, items[i..]) == AddBullets(text, items)
    {
      assert items[i..][1..] == items[i + 1..];
      out := out + "  • " + items[i] + "\n";
    }
  }

  /** The numbered action items, one block per item. */
  method AppendActions(text: string, items: seq<ActionItem>) returns (out: string)
    ensures out == AddActions(text, items, 0)
  {
    out := text;
    for i := 0 to |items|
      invariant AddActions(out, items[i..], i) == AddActions(text, items, 0)
    {
      assert items[i..][1..] == items[i + 1..];
      ghost var before := out;
      out := out + "  " + NatToString(i + 1) + ". " + items[i].task + "\n";
      if items[i].assignee != "" {
        out := out + "     Assignee: " + items[i].assignee + "\n";
      }
      if items[i].dueDate != "" {
        out := out + "     Due: " + items[i].dueDate + "\n";
      }
      assert out == AddAction(before, i, items[i]);
    }
  }

  // ---------------------------------------------------------------- properties of the text

  /** A string holds whatever is put after it. */
  lemma {:induction false} ContainsAfter(a: string, b: string, w: string)
    requires Contains(b, w)
    ensures Contains(a + b, w)
    decreases |a|
  {
    if a == [] {
      assert a + b == b;
    } else {
      assert (a + b)[1..] == a[1..] + b;
      ContainsAfter(a[1..], b, w);
    }
  }

  /** What a string holds, every string it begins holds too. */
  lemma {:induction false} ContainsInLonger(x: string, y: string, w: string)
    requires Contains(x, w) && x <= y
    ensures Contains(y, w)
    decreases |x|
  {
    if !(w <= x) {
      assert x[1..] <= y[1..];
      ContainsInLonger(x[1..], y[1..], w);
    }
  }

  lemma Extends(a: string, b: string)
    ensures a <= a + b
  {
  }

  lemma PrefixTrans(a: string, b: string, c: string)
    requires a <= b && b <= c
    ensures a <= c
  {
    assert c[..|b|][..|a|] == c[..|a|];
  }

  /** Appending bullet lines keeps the text and adds exactly `Bullets`. */
  lemma {:induction false} AddBulletsIs(text: string, items: seq<string>)
    ensures AddBullets(text, items) == text + Bullets(items)
    decreases |items|
  {
    if items != [] {
      var t := text + "  • " + items[0] + "\n";
      AddBulletsIs(t, items[1..]);
      assert t == text + Line(items[0]);
    }
  }

  lemma AddActionIs(text: string, i: nat, item: ActionItem)
    ensures AddAction(text, i, item) == text + ActionBlock(i, item)
  {
    var n := NatToString(i + 1);
    var a := text + "  " + n + ". " + item.task + "\n";
    var a0 := "" + "  " + n + ". " + item.task + "\n";
    assert a == text + a0 by {
      assert "" + "  " == "  ";
    }
    var b0 := if item.assignee != "" then a0 + "     Assignee: " + item.assignee + "\n" else a0;
    if item.assignee != "" {
      Shift3(text, a0, "     Assignee: ", item.assignee, "\n");
    }
    if item.dueDate != "" {
      Shift3(text, b0, "     Due: ", item.dueDate, "\n");
    }
  }

  /** Appending three pieces after `t + x` appends them after `x`. */
  lemma Shift3(t: string, x: string, p: string, q: string, r: string)
    ensures t + x + p + q + r == t + (x + p + q + r)
  {
  }

  lemma {:induction false} AddActionsExtends(text: string, items: seq<ActionItem>, start: nat)
    ensures text <= AddActions(text, items, start)
    decreases |items|
  {
    if items != [] {
      var t := AddAction(text, start, items[0]);
      AddActionIs(text, start, items[0]);
      AddActionsExtends(t, items[1..], start + 1);
      PrefixTrans(text, t, AddActions(t, items[1..], start + 1));
    }
  }

  /** The bullet line of item k is among the bullet lines. */
  lemma {:induction false} LineListed(items: seq<string>, k: nat)
    requires k < |items|
    ensures Contains(Bullets(items), Line(items[k]))
    decreases k
  {
    if k == 0 {
      assert Line(items[0]) <= Bullets(items);
    } else {
      LineListed(items[1..], k - 1);
      ContainsAfter(Line(items[0]), Bullets(items[1..]), Line(items[k]));
    }
  }

  /** The block of action item k appears in the text of the items numbered from `start`. */
  lemma {:induction false} ActionListed(text: string, items: seq<ActionItem>, start: nat, k: nat)
    requires k < |items|
    ensures Contains(AddActions(text, items, start), ActionBlock(start + k, items[k]))
    decreases k
  {
    var t := AddAction(text, start, items[0]);
    if k == 0 {
      AddActionIs(text, start, items[0]);
      assert Contains(ActionBlock(start, items[0]), ActionBlock(start, items[0])) by {
        assert ActionBlock(start, items[0]) <= ActionBlock(start, items[0]);
      }
      ContainsAfter(text, ActionBlock(start, items[0]), ActionBlock(start, items[0]));
      AddActionsExtends(t, items[1..], start + 1);
      ContainsInLonger(t, AddActions(t, items[1..], start + 1), ActionBlock(start, items[0]));
    } else {
      ActionListed(t, items[1..], start + 1, k - 1);
    }
  }

  /** Everything after the key points only extends the text. */
  lemma TailExtends(head: string, m: MinutesDoc)
    ensures head <= WithNextSteps(WithActions(WithDecisions(head, m), m), m)
  {
    var d := WithDecisions(head, m);
    var a := WithActions(d, m);
    var n := WithNextSteps(a, m);
    if m.decisions != [] {
      AddBulletsIs(head + "DECISIONS:\n", m.decisions);
      PrefixTrans(head, head + "DECISIONS:\n", d);
    }
    if m.actionItems != [] {
      AddActionsExtends(d + "ACTION ITEMS:\n", m.actionItems, 0);
      PrefixTrans(d, d + "ACTION ITEMS:\n", a);
    }
    if m.nextSteps != [] {
      AddBulletsIs(a + "NEXT STEPS:\n", m.nextSteps);
      PrefixTrans(a, a + "NEXT STEPS:\n", n);
    }
    PrefixTrans(head, d, a);
    PrefixTrans(head, a, n);
  }

  /** A bullet list added after `text` and followed by more keeps its lines in the text. */
  lemma ListedIn(text: string, items: seq<string>, k: nat, whole: string)
    requires k < |items| && AddBullets(text, items) <= whole
    ensures Contains(whole, Line(items[k]))
  {
    LineListed(items, k);
    AddBulletsIs(text, items);
    ContainsAfter(text, Bullets(items), Line(items[k]));
    ContainsInLonger(AddBullets(text, items), whole, Line(items[k]));
  }

  /** The text opens with the banner, the title line and the date line. */
  lemma OpensWithPreamble(m: MinutesDoc)
    ensures Opening(Banner, m) <= MinutesText(m)
  {
    var o := Opening(Banner, m);
    var at := WithAttendees(Banner, m);
    var ag := WithAgenda(Banner, m);
    var kp := WithKeyPoints(Banner, m);
    AddBulletsIs(o + "ATTENDEES:\n", m.attendees);
    PrefixTrans(o, o + "ATTENDEES:\n", at);
    AddBulletsIs(at + "AGENDA:\n", m.agenda);
    PrefixTrans(at, at + "AGENDA:\n", ag);
    AddBulletsIs(ag + "KEY POINTS:\n", m.keyPoints);
    PrefixTrans(ag, ag + "KEY POINTS:\n", kp);
    PrefixTrans(o, at, ag);
    PrefixTrans(o, ag, kp);
    TailExtends(kp, m);
    PrefixTrans(o, kp, MinutesText(m));
  }

  /** Every attendee, agenda item and key point has a bullet line of its own. */
  lemma EveryItemListed(m: MinutesDoc)
    ensures forall k :: 0 <= k < |m.attendees| ==> Contains(MinutesText(m), Line(m.attendees[k]))
    ensures forall k :: 0 <= k < |m.agenda| ==> Contains(MinutesText(m), Line(m.agenda[k]))
    ensures forall k :: 0 <= k < |m.keyPoints| ==> Contains(MinutesText(m), Line(m.keyPoints[k]))
  {
    var t := MinutesText(m);
    var at := WithAttendees(Banner, m);
    var ag := WithAgenda(Banner, m);
    var kp := WithKeyPoints(Banner, m);
    var bAt := AddBullets(Opening(Banner, m) + "ATTENDEES:\n", m.attendees);
    var bAg := AddBullets(at + "AGENDA:\n", m.agenda);
    var bKp := AddBullets(ag + "KEY POINTS:\n", m.keyPoints);
    TailExtends(kp, m);
    PrefixTrans(bKp, kp, t);
    AddBulletsIs(bAg + "\n" + "KEY POINTS:\n", m.keyPoints);
    PrefixTrans(bAg, ag + "KEY POINTS:\n", bKp);
    PrefixTrans(bAg, bKp, t);
    AddBulletsIs(at + "AGENDA:\n", m.agenda);
    PrefixTrans(at, at + "AGENDA:\n", bAg);
    PrefixTrans(at, bAg, t);
    PrefixTrans(bAt, at, t);
    forall k | 0 <= k < |m.attendees| ensures Contains(t, Line(m.attendees[k])) {
      ListedIn(Opening(Banner, m) + "ATTENDEES:\n", m.attendees, k, t);
    }
    forall k | 0 <= k < |m.agenda| ensures Contains(t, Line(m.agenda[k])) {
      ListedIn(at + "AGENDA:\n", m.agenda, k, t);
    }
    forall k | 0 <= k < |m.keyPoints| ensures Contains(t, Line(m.keyPoints[k])) {
      ListedIn(ag + "KEY POINTS:\n", m.keyPoints, k, t);
    }
  }

  /** Action item k is listed as number k + 1: its task line, followed by its assignee
      and due-date lines exactly when those are set. */
  lemma ActionItemListed(m: MinutesDoc, k: nat)
    requires k < |m.actionItems|
    ensures Contains(MinutesText(m), ActionBlock(k, m.actionItems[k]))
  {
    ActionsBeginText(m);
    ActionListedIn(WithDecisions(WithKeyPoints(Banner, m), m) + "ACTION ITEMS:\n", m.actionItems, k, MinutesText(m));
  }

  /** Action items added after `text` and followed by more keep their blocks in the text. */
  lemma ActionListedIn(text: string, items: seq<ActionItem>, k: nat, whole: string)
    requires k < |items| && AddActions(text, items, 0) <= whole
    ensures Contains(whole, ActionBlock(k, items[k]))
  {
    ActionListed(text, items, 0, k);
    ContainsInLonger(AddActions(text, items, 0), whole, ActionBlock(0 + k, items[k]));
  }

  /** The action items section, up to its closing blank line, begins the text. */
  lemma ActionsBeginText(m: MinutesDoc)
    requires m.actionItems != []
    ensures AddActions(WithDecisions(WithKeyPoints(Banner, m), m) + "ACTION ITEMS:\n", m.actionItems, 0) <= MinutesText(m)
  {
    var d := WithDecisions(WithKeyPoints(Banner, m), m);
    var a := WithActions(d, m);
    var body := AddActions(d + "ACTION ITEMS:\n", m.actionItems, 0);
    Extends(body, "\n");
    NextStepsExtend(a, m);
    PrefixTrans(body, a, WithNextSteps(a, m));
  }

  lemma NextStepsExtend(a: string, m: MinutesDoc)
    ensures a <= WithNextSteps(a, m)
  {
    if m.nextSteps != [] {
      AddBulletsIs(a + "NEXT STEPS:\n", m.nextSteps);
      PrefixTrans(a, a + "NEXT STEPS:\n", WithNextSteps(a, m));
    }
  }

  /** Minutes with every list empty give the banner, the title and date, and three empty
      sections. */
  lemma EmptyMinutes(title: string, date: string)
    ensures MinutesText(MinutesDoc(title, date, [], [], [], [], [], []))
         == Banner + "Title: " + title + "\n" + "Date: " + date + "\n\n"
            + "ATTENDEES:\n" + "\n" + "AGENDA:\n" + "\n" + "KEY POINTS:\n" + "\n"
  {
  }

  /** Next steps come last: dropping them leaves a prefix of the text. */
  lemma NextStepsLast(m: MinutesDoc)
    ensures MinutesText(m.(nextSteps := [])) <= MinutesText(m)
  {
    var m' := m.(nextSteps := []);
    assert WithKeyPoints(Banner, m') == WithKeyPoints(Banner, m);
    var a := WithActions(WithDecisions(WithKeyPoints(Banner, m), m), m);
    assert MinutesText(m') == a;
    if m.nextSteps != [] {
      AddBulletsIs(a + "NEXT STEPS:\n", m.nextSteps);
      PrefixTrans(a, a + "NEXT STEPS:\n", MinutesText(m));
    }
  }

  // ---------------------------------------------------------------- the minutes page

  datatype Session = Session(id: string, transcript: string, summary: string,
                             minutes: Option<MinutesDoc>, isGenerating: bool, error: Option<string>)

  const GenerateFailed: string := "Failed to generate minutes"

  /** The sessions the page lists: those with a transcript or a summary (not trimmed). */
  function WithContent(sessions: seq<Session>): (r: seq<Session>)
    ensures forall i :: 0 <= i < |r| ==> r[i] in sessions && (r[i].transcript != "" || r[i].summary != "")
    ensures forall i :: 0 <= i < |sessions| && (sessions[i].transcript != "" || sessions[i].summary != "") ==> sessions[i] in r
  {
    Filter(sessions, (s: Session) => s.transcript != "" || s.summary != "")
  }

  /** The listed sessions stay in their order: one more session is appended to the list
      exactly when it has a transcript or a summary. */
  lemma WithContentInOrder(sessions: seq<Session>, x: Session)
    ensures WithContent(sessions + [x]) == WithContent(sessions) + (if x.transcript != "" || x.summary != "" then [x] else [])
  {
    FilterSnoc(sessions, x, (s: Session) => s.transcript != "" || s.summary != "");
  }

  /** `prev.map(s => s.id === id ? f(s) : s)`. */
  function Update(sessions: seq<Session>, id: string, f: Session -> Session): (r: seq<Session>)
    ensures |r| == |sessions|
    ensures forall i :: 0 <= i < |sessions| ==> r[i] == (if sessions[i].id == id then f(sessions[i]) else sessions[i])
  {
    seq(|sessions|, i requires 0 <= i < |sessions| => if sessions[i].id == id then f(sessions[i]) else sessions[i])
  }

  /** The request starts: the session is marked busy and its error cleared. */
  function Started(s: Session): Session { s.(isGenerating := true, error := None) }

  /** The request answered with `m`. */
  function Answered(m: MinutesDoc): Session -> Session
  {
    (s: Session) => s.(minutes := Some(m), isGenerating := false)
  }

  /** The request failed. */
  function Failed(s: Session): Session { s.(error := Some(GenerateFailed), isGenerating := false) }

  datatype PageState = PageState(sessions: seq<Session>, expandedId: Option<string>)

  /** `generateMinutes` on the minutes page, with the reply of the minutes service
      (`None` when the request failed). Without a transcript and a summary nothing
      happens and nothing is requested. */
  function GenerateMinutes(st: PageState, target: Session, reply: Option<MinutesDoc>): (r: (PageState, bool))
  {
    if target.transcript == "" && target.summary == "" then (st, false)
    else
      var busy := Update(st.sessions, target.id, Started);
      match reply
      case Some(m) => (PageState(Update(busy, target.id, Answered(m)), Some(target.id)), true)
      case None => (PageState(Update(busy, target.id, Failed), st.expandedId), true)
  }

  /** Only the sessions with the target's id change: the others keep their minutes,
      flags and errors. A reply stores the minutes, clears the flag and the error and
      opens the session; a failure keeps the old minutes and records the error. */
  lemma GenerateMinutesEffect(st: PageState, target: Session, reply: Option<MinutesDoc>)
    ensures var (after, requested) := GenerateMinutes(st, target, reply);
      && (requested <==> target.transcript != "" || target.summary != "")
      && (!requested ==> after == st)
      && |after.sessions| == |st.sessions|
      && (forall i :: 0 <= i < |st.sessions| && st.sessions[i].id != target.id ==> after.sessions[i] == st.sessions[i])
      && (requested ==> forall i :: 0 <= i < |st.sessions| && st.sessions[i].id == target.id ==>
            var s := st.sessions[i];
            && !after.sessions[i].isGenerating
            && after.sessions[i].transcript == s.transcript && after.sessions[i].summary == s.summary
            && (reply.Some? ==> after.sessions[i].minutes == reply && after.sessions[i].error.None?)
            && (reply.None? ==> after.sessions[i].minutes == s.minutes && after.sessions[i].error == Some(GenerateFailed)))
      && (requested && reply.Some? ==> after.expandedId == Some(target.id))
      && (reply.None? ==> after.expandedId == st.expandedId)
  {
  }

  /** The file the minutes page saves. */
  function PageFileName(sessionId: string): string
  {
    "meeting-minutes-" + sessionId + ".txt"
  }

  // ---------------------------------------------------------------- the MeetingMinutes panel

  const NothingToSummarize: string := "No transcript or summary available"
  const PanelFailed: string := "Failed to generate meeting minutes. Please try again."

  /** The file the panel saves: named after the session, or "session" without one. */
  function PanelFileName(sessionId: string): (r: string)
    ensures "meeting-minutes-" <= r && EndsWith(r, ".txt")
    ensures sessionId != "" ==> r == PageFileName(sessionId)
  {
    var name := "meeting-minutes-" + (if sessionId != "" then sessionId else "session") + ".txt";
    assert name[|name| - 4..] == ".txt";
    name
  }

  /** The panel's state: whether its dialog is open, whether a request runs, the last
      minutes and the last error. */
  class MinutesPanel {
    var isOpen: bool
    var isGenerating: bool
    var minutes: Option<MinutesDoc>
    var error: Option<string>

    constructor()
      ensures !isOpen && !isGenerating && minutes.None? && error.None?
    {
      isOpen, isGenerating, minutes, error := false, false, None, None;
    }

    /** The button is disabled while a request runs or when there is nothing to send. */
    predicate ButtonDisabled(transcript: string, summary: string)
      reads this
    {
      isGenerating || (transcript == "" && summary == "")
    }

    /** `generateMinutes`. Without a transcript and a summary it only sets the error and
        sends nothing. Otherwise it opens the dialog, marks itself busy while the request
        runs (`busy` is the flag at that moment), then keeps the minutes of the reply or
        the failure message, and is no longer busy in either case. */
    method Generate(transcript: string, summary: string, reply: Option<MinutesDoc>)
      returns (requested: bool, busy: bool)
      modifies this
      ensures requested <==> transcript != "" || summary != ""
      ensures !requested ==> error == Some(NothingToSummarize) && isOpen == old(isOpen)
                             && isGenerating == old(isGenerating) && minutes == old(minutes)
      ensures requested ==> busy && isOpen && !isGenerating
      ensures requested && reply.Some? ==> minutes == reply && error.None?
      ensures requested && reply.None? ==> minutes == old(minutes) && error == Some(PanelFailed)
    {
      if transcript == "" && summary == "" {
        error := Some(NothingToSummarize);
        return false, false;
      }
      requested := true;
      isGenerating := true;
      error := None;
      isOpen := true;
      busy := isGenerating;
      match reply {
        case Some(m) => minutes := Some(m);
        case None => error := Some(PanelFailed);
      }
      isGenerating := false;
    }

    /** Closing the dialog keeps the minutes and the error. */
    method Close()
      modifies this
      ensures !isOpen && isGenerating == old(isGenerating) && minutes == old(minutes) && error == old(error)
    {
      isOpen := false;
    }

    /** `downloadMinutes`: nothing without minutes; otherwise the file name and the text. */
    method Download(sessionId: string) returns (file: Option<(string, string)>)
      ensures minutes.None? ==> file.None?
      ensures minutes.Some? ==> file == Some((PanelFileName(sessionId), MinutesText(minutes.value)))
    {
      if minutes.None? {
        return None;
      }
      var content := FormatPanelText(minutes.value);
      file := Some((PanelFileName(sessionId), content));
    }
  }
}
