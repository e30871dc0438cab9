/** The client side of a recording session (`RecordingPanel`): the status reducer, the
    socket events the panel sends (`startSession`, numbered `audioChunk`s, `stopSession`),
    and the way incoming server events and speech-recognition results change the
    transcript shown to the user.

    The panel's React state and refs are the fields of `ClientRecorder`; each handler is a
    method that runs to completion (React's batching of state updates is not modelled). */
module ClientSession {
  import opened Strings
  import TranscriptMerge
  import VoiceCommands

  datatype Status = Idle | Recording | Paused | Processing | Completed | Error

  /** The enumeration's string values, as the server sends them. */
  function StatusName(s: Status): string
  {
    match s
    case Idle => "IDLE"
    case Recording => "RECORDING"
    case Paused => "PAUSED"
    case Processing => "PROCESSING"
    case Completed => "COMPLETED"
    case Error => "ERROR"
  }

  /** `reducer`: the next status depends on the action type only; any other type,
      including "IDLE", gives IDLE. */
  function Reducer(state: Status, action: string): (r: Status)
    ensures r == Recording <==> action == "START" || action == "RESUME"
    ensures r == Idle <==> action !in ["START", "PAUSE", "RESUME", "PROCESS", "COMPLETE", "ERROR"]
  {
    if action == "START" then Recording
    else if action == "PAUSE" then Paused
    else if action == "RESUME" then Recording
    else if action == "PROCESS" then Processing
    else if action == "COMPLETE" then Completed
    else if action == "ERROR" then Error
    else Idle
  }

  /** The action the `statusChange` handler dispatches for a status string: it is
      upper-cased first, and anything unrecognised dispatches IDLE. */
  function StatusChangeAction(payload: string): string
  {
    var s := Upper(payload);
    if s == "RECORDING" then "START"
    else if s == "PAUSED" then "PAUSE"
    else if s == "PROCESSING" then "PROCESS"
    else if s == "COMPLETED" then "COMPLETE"
    else if s == "ERROR" then "ERROR"
    else "IDLE"
  }

  function StatusAfterChange(state: Status, payload: string): (r: Status)
    ensures r == Recording <==> Upper(payload) == "RECORDING"
    ensures r == Idle <==> Upper(payload) !in ["RECORDING", "PAUSED", "PROCESSING", "COMPLETED", "ERROR"]
  {
    Reducer(state, StatusChangeAction(payload))
  }

  predicate UpperAscii(s: string) { forall i :: 0 <= i < |s| ==> 'A' <= s[i] <= 'Z' }

  lemma UpperOfLower(s: string)
    requires UpperAscii(s)
    ensures Upper(Lower(s)) == s && Upper(s) == s
  {
    assert Upper(Lower(s)) == s;
    assert Upper(s) == s;
  }

  /** A status the server announces by name, in upper or lower case, becomes the
      panel's status whatever the panel's status was. */
  lemma StatusNameRoundTrip(state: Status, s: Status)
    ensures StatusAfterChange(state, StatusName(s)) == s
    ensures StatusAfterChange(state, Lower(StatusName(s))) == s
  {
    UpperOfLower(StatusName(s));
  }

  // ---------------------------------------------------------------- events and payloads

  /** What the panel emits on its socket. */
  datatype ClientEvent =
    | StartSession(sessionId: string)
    | AudioChunk(sessionId: string, sequence: nat)
    | StopSession(sessionId: string, transcript: string, ownerEmail: string)

  datatype Bookmark = Bookmark(timestamp: nat, text: string)

  datatype ActionItem = ActionItem(kind: string, description: string,
                                   assignee: Option<string>, deadline: Option<string>)

  /** How `startRecording` ends: microphone permission refused (nothing happens), stream
      capture failed (ERROR), or recording started, with or without speech recognition. */
  datatype StartOutcome = PermissionDenied | CaptureFailed | Started(speechRecognition: bool)

  /** The session record inside a `sessionSaved` event; absent strings are "". */
  datatype SavedSession = SavedSession(transcript: string, summary: string,
                                       actionItems: Option<seq<ActionItem>>, downloadUrl: string)

  datatype SavedPayload = SavedPayload(session: Option<SavedSession>, transcript: string,
                                       summary: string, actionItems: Option<seq<ActionItem>>,
                                       downloadUrl: string)

  /** One entry of a speech-recognition result list. */
  datatype SpeechResult = SpeechResult(isFinal: bool, transcript: string)

  function SessionIdFor(now: nat): string { "session-" + NatToString(now) }

  // ---------------------------------------------------------------- the pure parts of handlers

  /** The final transcript after a server chunk update (`isChunk`): the trimmed text is
      appended after a space, or becomes the transcript when there was none. */
  function ChunkAppend(prev: string, text: string): (r: string)
    ensures prev == [] ==> r == Trim(text)
    ensures prev != [] ==> prev <= r && |r| > |prev| && r[|prev|] == ' '
    ensures EndsWith(r, Trim(text))
  {
    if prev != [] then prev + " " + Trim(text) else Trim(text)
  }

  function OneTo(n: nat): (r: seq<nat>)
    ensures |r| == n && forall i :: 0 <= i < n ==> r[i] == i + 1
  {
    seq(n, i requires 0 <= i < n => i + 1)
  }

  /** The concatenated final results, left to right. */
  function FinalText(rs: seq<SpeechResult>): string
  {
    if rs == [] then ""
    else FinalText(rs[..|rs| - 1]) + (if rs[|rs| - 1].isFinal then rs[|rs| - 1].transcript else "")
  }

  /** The concatenated interim results, left to right. */
  function InterimText(rs: seq<SpeechResult>): string
  {
    if rs == [] then ""
    else InterimText(rs[..|rs| - 1]) + (if rs[|rs| - 1].isFinal then "" else rs[|rs| - 1].transcript)
  }

  predicate HasWakeWord(t: string) {
    Contains(t, VoiceCommands.WakeWord) || Contains(t, VoiceCommands.SpacedWakeWord)
  }

  /** The final results that address the assistant, lower-cased and trimmed, in order. */
  function WakeCommands(rs: seq<SpeechResult>): (cs: seq<string>)
    ensures |cs| <= |rs|
    ensures forall i :: 0 <= i < |cs| ==> HasWakeWord(cs[i])
  {
    if rs == [] then []
    else
      var r := rs[|rs| - 1];
      var t := Trim(Lower(r.transcript));
      WakeCommands(rs[..|rs| - 1]) + (if r.isFinal && HasWakeWord(t) then [t] else [])
  }

  /** The final transcript after a speech result: non-blank final text is appended, trimmed,
      on a new line. */
  function SpeechFinal(prev: string, rs: seq<SpeechResult>): string
  {
    var f := FinalText(rs);
    if IsBlank(f) then prev else (if prev != [] then prev + "\n" else "") + Trim(f)
  }

  /** The interim transcript after a speech result: cleared when final text arrived,
      otherwise the trimmed interim text. */
  function SpeechInterim(rs: seq<SpeechResult>): string
  {
    var f := FinalText(rs);
    if IsBlank(f) then Trim(InterimText(rs)) else ""
  }

  /** Speech results never remove recognised text: the old final transcript stays a prefix,
      and a non-blank final result ends up at its end. */
  lemma SpeechKeepsFinal(prev: string, rs: seq<SpeechResult>)
    ensures prev <= SpeechFinal(prev, rs)
    ensures !IsBlank(FinalText(rs)) ==> EndsWith(SpeechFinal(prev, rs), Trim(FinalText(rs)))
    ensures IsBlank(FinalText(rs)) <==> SpeechFinal(prev, rs) == prev
  {
    var f := FinalText(rs);
    if !IsBlank(f) {
      var r := SpeechFinal(prev, rs);
      assert |r| > |prev|;
    }
  }

  /** A result list with only interim entries leaves the final transcript alone. */
  lemma {:induction false} InterimOnlyHasNoFinal(rs: seq<SpeechResult>)
    requires forall i :: 0 <= i < |rs| ==> !rs[i].isFinal
    ensures FinalText(rs) == "" && WakeCommands(rs) == []
  {
    if rs != [] {
      InterimOnlyHasNoFinal(rs[..|rs| - 1]);
    }
  }

  /** The updated summary after the quick-summary response for a voice "summarize"
      command: the new text goes in front of the old summary. */
  function QuickSummary(minutes: nat, text: string, prev: string): (r: string)
    ensures text == [] ==> r == prev
    ensures text != [] ==> EndsWith(r, "\n\n---\n\n" + prev) && Contains(r, text)
  {
    if text == [] then prev
    else
      var head := "Quick Summary (last " + NatToString(minutes) + " min):\n";
      var r := head + text + "\n\n---\n\n" + prev;
      assert r[|head|..|head| + |text|] == text;
      assert r[|r| - |"\n\n---\n\n" + prev|..] == "\n\n---\n\n" + prev;
      ContainsAt(r, text, |head|);
      r
  }

  lemma {:induction false} ContainsAt(s: string, sub: string, k: nat)
    requires k + |sub| <= |s| && s[k..k + |sub|] == sub
    ensures Contains(s, sub)
    decreases k
  {
    if k == 0 {
      assert sub <= s;
    } else {
      assert s[1..][k - 1..k - 1 + |sub|] == sub;
      ContainsAt(s[1..], sub, k - 1);
    }
  }

  /** JavaScript's `a || b` on strings: the first unless it is empty. */
  function Or(a: string, b: string): (r: string)
    ensures r == a || r == b
    ensures |a| > 0 ==> r == a
  {
    if |a| > 0 then a else b
  }

  /** The summary after `sessionSaved`: the event's summary, else the session's, when it is
      not blank; otherwise the summary shown before. */
  function SavedSummary(p: SavedPayload, prev: string): (r: string)
    requires p.session.Some?
    ensures r == prev || r == p.summary || r == p.session.value.summary
  {
    var sum := Or(p.summary, p.session.value.summary);
    if IsBlank(sum) then prev else sum
  }

  /** The action items after `sessionSaved`: the event's list when it has one, else the
      session's, when non-empty; otherwise the items shown before. */
  function SavedItems(p: SavedPayload, prev: seq<ActionItem>): (r: seq<ActionItem>)
    requires p.session.Some?
    ensures r == prev || (|r| > 0 && (Some(r) == p.actionItems || Some(r) == p.session.value.actionItems))
  {
    var items := if p.actionItems.Some? then p.actionItems.value
                 else if p.session.value.actionItems.Some? then p.session.value.actionItems.value
                 else [];
    if |items| > 0 then items else prev
  }

  function SavedUrl(p: SavedPayload, prev: Option<string>): (r: Option<string>)
    requires p.session.Some?
    ensures r == prev || r == Some(Or(p.downloadUrl, p.session.value.downloadUrl))
  {
    var url := Or(p.downloadUrl, p.session.value.downloadUrl);
    if |url| > 0 then Some(url) else prev
  }

  // ---------------------------------------------------------------- the panel

  /** What a session produced, as the panel shows it. */
  datatype Results = Results(bookmarks: seq<Bookmark>, actionItems: seq<ActionItem>,
                             summary: string, title: string, downloadUrl: Option<string>)

  const NoResults := Results([], [], "", "", None)

  /** The panel's status and transcripts as one render saw them. */
  datatype Snapshot = Snapshot(status: Status, finalTranscript: string, interimTranscript: string)

  /** The request a "summarize" voice command posts: the last twenty lines of the
      transcript and the number of minutes asked for. */
  datatype SummaryRequest = SummaryRequest(transcript: string, minutes: nat)

  /** The id `stopRecording` sends: the current session id, else one made from the clock. */
  function StopId(sessionId: Option<string>, now: nat): string
  {
    if sessionId.Some? then sessionId.value else SessionIdFor(now)
  }

  /** The panel's status after a voice command, as its closure decides it from the status
      it saw: pause only from RECORDING, resume only from PAUSED, stop always. */
  function CommandStatus(c: VoiceCommands.VoiceCommand, seen: Status, current: Status): (r: Status)
    ensures c.PauseCommand? && seen == Recording ==> r == Paused
    ensures c.ResumeCommand? && seen == Paused ==> r == Recording
    ensures c.StopCommand? ==> r == Processing
    ensures r != current ==> r in {Paused, Recording, Processing}
  {
    if c.PauseCommand? && seen == Recording then Paused
    else if c.ResumeCommand? && seen == Paused then Recording
    else if c.StopCommand? then Processing
    else current
  }

  /** The part of the panel's state a voice command changes, and the summary request it
      posts. */
  datatype Outcome = Outcome(results: Results, request: Option<SummaryRequest>, status: Status,
                             sent: seq<ClientEvent>, recognitionActive: bool)

  /** What one classified voice command does, given the transcript and status the closure
      saw: a bookmark of that transcript or an action item appended, the request a
      "summarize" posts, the status as `CommandStatus` says, and on stop `stopSession`
      sent and the recogniser released. */
  function CommandOutcome(c: VoiceCommands.VoiceCommand, combined: string, seen: Status, now: nat,
                          ownerEmail: string, sessionId: Option<string>, before: Outcome): (r: Outcome)
    ensures |r.results.bookmarks| + |r.results.actionItems|
         <= |before.results.bookmarks| + |before.results.actionItems| + 1
    ensures r.results.(bookmarks := before.results.bookmarks, actionItems := before.results.actionItems) == before.results
    ensures before.sent <= r.sent && |r.sent| <= |before.sent| + 1
    ensures r.request.Some? <==> c.Summarize?
  {
    var res := before.results;
    Outcome(
      res.(bookmarks := res.bookmarks + (if c.Bookmark? then [Bookmark(now, VoiceCommands.BookmarkText(combined))] else []),
           actionItems := res.actionItems + (if c.AddActionItem? then [ActionItem("TASK", c.description, None, None)] else [])),
      if c.Summarize? then Some(SummaryRequest(VoiceCommands.SummaryExcerpt(combined), c.minutes)) else None,
      CommandStatus(c, seen, before.status),
      before.sent + (if c.StopCommand? then [StopSession(StopId(sessionId, now), combined, ownerEmail)] else []),
      before.recognitionActive && !c.StopCommand?)
  }

  /** A command that records something leaves the status, the events sent and the
      recogniser as they were. */
  lemma RecordKeepsStatus(c: VoiceCommands.VoiceCommand, combined: string, seen: Status, now: nat,
                          ownerEmail: string, sessionId: Option<string>, before: Outcome)
    requires !(c.PauseCommand? || c.ResumeCommand? || c.StopCommand?)
    ensures var r := CommandOutcome(c, combined, seen, now, ownerEmail, sessionId, before);
      r.status == before.status && r.sent == before.sent && r.recognitionActive == before.recognitionActive
  {
    assert before.sent + [] == before.sent;
  }

  /** A spoken "scribeai <command>" whose command holds a bookmark phrase is classified
      as a bookmark: it appends exactly one bookmark of the transcript the closure saw,
      requests no summary, sends nothing and leaves the status and the recogniser alone. */
  lemma SpokenBookmark(pre: string, cmd: string, combined: string, seen: Status, now: nat,
                       ownerEmail: string, sessionId: Option<string>, before: Outcome)
    requires 's' !in pre && 'S' !in pre
    requires cmd != [] && !IsSpace(cmd[0]) && !IsSpace(cmd[|cmd| - 1]) && VoiceCommands.NoUpper(cmd)
    requires VoiceCommands.IsBookmarkPhrase(cmd)
    ensures var c := VoiceCommands.Classify(VoiceCommands.CommandText(pre + VoiceCommands.WakeWord + " " + cmd));
      var r := CommandOutcome(c, combined, seen, now, ownerEmail, sessionId, before);
      && c == VoiceCommands.Bookmark
      && r.results.bookmarks == before.results.bookmarks + [Bookmark(now, VoiceCommands.BookmarkText(combined))]
      && r.results.actionItems == before.results.actionItems
      && r.request.None?
      && r.status == before.status && r.sent == before.sent
      && r.recognitionActive == before.recognitionActive
  {
    var c := VoiceCommands.Classify(VoiceCommands.CommandText(pre + VoiceCommands.WakeWord + " " + cmd));
    assert c == VoiceCommands.Bookmark by { VoiceCommands.SpokenClassified(pre, cmd); }
    var r := CommandOutcome(VoiceCommands.Bookmark, combined, seen, now, ownerEmail, sessionId, before);
    assert r.sent == before.sent + [] == before.sent;
    assert r.results.actionItems == before.results.actionItems + [] == before.results.actionItems;
  }

  /** A spoken "scribeai <command>" whose command holds a stop phrase and none of the
      phrases tried before it stops: the status becomes Processing, exactly one
      stopSession carrying the transcript is sent and the recogniser is released,
      whatever status the closure saw. */
  lemma SpokenStop(pre: string, cmd: string, combined: string, seen: Status, now: nat,
                   ownerEmail: string, sessionId: Option<string>, before: Outcome)
    requires 's' !in pre && 'S' !in pre
    requires cmd != [] && !IsSpace(cmd[0]) && !IsSpace(cmd[|cmd| - 1]) && VoiceCommands.NoUpper(cmd)
    requires VoiceCommands.IsStopPhrase(cmd)
    requires !VoiceCommands.IsBookmarkPhrase(cmd) && !VoiceCommands.IsActionPhrase(cmd)
    requires !Contains(cmd, "summarize") && !Contains(cmd, "pause") && !VoiceCommands.IsResumePhrase(cmd)
    ensures var c := VoiceCommands.Classify(VoiceCommands.CommandText(pre + VoiceCommands.WakeWord + " " + cmd));
      var r := CommandOutcome(c, combined, seen, now, ownerEmail, sessionId, before);
      && c == VoiceCommands.StopCommand
      && r.status == Processing
      && r.sent == before.sent + [StopSession(StopId(sessionId, now), combined, ownerEmail)]
      && !r.recognitionActive
      && r.results.bookmarks == before.results.bookmarks
      && r.results.actionItems == before.results.actionItems
      && r.request.None?
  {
    var c := VoiceCommands.Classify(VoiceCommands.CommandText(pre + VoiceCommands.WakeWord + " " + cmd));
    assert c == VoiceCommands.StopCommand by { VoiceCommands.SpokenClassified(pre, cmd); }
    var r := CommandOutcome(VoiceCommands.StopCommand, combined, seen, now, ownerEmail, sessionId, before);
    assert r.results.bookmarks == before.results.bookmarks + [] == before.results.bookmarks;
    assert r.results.actionItems == before.results.actionItems + [] == before.results.actionItems;
  }

  class ClientRecorder {
    var status: Status
    var finalTranscript: string
    var interimTranscript: string
    /** `sequenceRef`: the number of the last chunk sent. */
    var sequence: nat
    /** `sessionIdRef`. */
    var sessionId: Option<string>
    /** Whether `recognitionRef` holds a running speech recogniser. */
    var recognitionActive: bool
    var results: Results
    /** Everything emitted on the socket, oldest first. */
    var sent: seq<ClientEvent>
    /** The render in which recording was started: the speech handler is a closure of that
        render, and the voice commands it runs see these values, not the current ones. */
    var seen: Snapshot

    /** The numbers of all chunks sent, in order. */
    ghost var chunkLog: seq<nat>

    /** The last `sequence` chunks sent are numbered 1, 2, ..., `sequence`: since the
        latest `startSession`, chunks have been numbered from 1 without gaps. */
    ghost predicate Valid()
      reads this`sequence, this`chunkLog
    {
      sequence <= |chunkLog| && chunkLog[|chunkLog| - sequence..] == OneTo(sequence)
    }

    constructor ()
      ensures Valid()
      ensures status == Idle && finalTranscript == "" && interimTranscript == ""
      ensures sequence == 0 && sessionId == None && !recognitionActive && sent == []
      ensures results == NoResults
    {
      status := Idle;
      finalTranscript := "";
      interimTranscript := "";
      sequence := 0;
      sessionId := None;
      recognitionActive := false;
      results := NoResults;
      sent := [];
      seen := Snapshot(Idle, "", "");
      chunkLog := [];
    }

    /** `startRecording`: a fresh session id from the clock, the chunk counter back to 0,
        `startSession` emitted and the status RECORDING. */
    method StartRecording(outcome: StartOutcome, now: nat)
      requires Valid()
      modifies this`status, this`sessionId, this`sequence, this`sent, this`seen, this`recognitionActive
      ensures Valid()
      ensures outcome == PermissionDenied ==> unchanged(this)
      ensures outcome == CaptureFailed ==>
        && status == Error && sessionId == old(sessionId) && sequence == old(sequence)
        && sent == old(sent) && seen == old(seen) && recognitionActive == old(recognitionActive)
      ensures outcome.Started? ==>
        && status == Recording
        && sessionId == Some(SessionIdFor(now)) && sequence == 0
        && sent == old(sent) + [StartSession(SessionIdFor(now))]
        && recognitionActive == (outcome.speechRecognition || old(recognitionActive))
        && seen == Snapshot(old(status), finalTranscript, interimTranscript)
    {
      match outcome
      case PermissionDenied =>
      case CaptureFailed =>
        status := Error;
      case Started(speech) =>
        var id := SessionIdFor(now);
        seen := Snapshot(status, finalTranscript, interimTranscript);
        sessionId := Some(id);
        sequence := 0;
        sent := sent + [StartSession(id)];
        if speech {
          recognitionActive := true;
        }
        status := Recording;
    }

    /** The recorder's data handler: the counter goes up by one and the chunk is sent with
        that number, under the current session id (or a clock-made one when there is none). */
    method SendChunk(now: nat)
      requires Valid()
      modifies this`sequence, this`sent, this`chunkLog
      ensures Valid()
      ensures sequence == old(sequence) + 1 && chunkLog == old(chunkLog) + [sequence]
      ensures sent == old(sent) + [AudioChunk(StopId(sessionId, now), sequence)]
    {
      var id := StopId(sessionId, now);
      sequence := sequence + 1;
      sent := sent + [AudioChunk(id, sequence)];
      chunkLog := chunkLog + [sequence];
      assert OneTo(sequence) == OneTo(sequence - 1) + [sequence];
    }

    /** The track-ended handler: on a new stream the counter restarts at 0 and
        `startSession` is emitted again for the same session; otherwise ERROR. */
    method Reconnect(reacquired: bool, now: nat)
      requires Valid()
      modifies this`sequence, this`sent, this`status
      ensures Valid()
      ensures reacquired ==>
        sequence == 0 && sent == old(sent) + [StartSession(StopId(sessionId, now))] && status == old(status)
      ensures !reacquired ==> status == Error && sequence == old(sequence) && sent == old(sent)
    {
      if reacquired {
        var id := StopId(sessionId, now);
        sequence := 0;
        sent := sent + [StartSession(id)];
      } else {
        status := Error;
      }
    }

    /** `transcriptUpdate`: ignored while speech recognition runs (unless it is a chunk);
        a chunk is appended after a space; a full transcript replaces the final one and
        clears the interim one. */
    method OnTranscriptUpdate(text: string, isChunk: bool)
      modifies this`finalTranscript, this`interimTranscript
      ensures recognitionActive && !isChunk ==>
        finalTranscript == old(finalTranscript) && interimTranscript == old(interimTranscript)
      ensures isChunk ==>
        finalTranscript == ChunkAppend(old(finalTranscript), text) && interimTranscript == old(interimTranscript)
      ensures !recognitionActive && !isChunk ==> finalTranscript == text && interimTranscript == ""
    {
      if recognitionActive && !isChunk {
        return;
      }
      if isChunk {
        finalTranscript := ChunkAppend(finalTranscript, text);
      } else {
        finalTranscript := text;
        interimTranscript := "";
      }
    }

    /** `statusChange`. */
    method OnStatusChange(payload: string)
      modifies this`status
      ensures status == StatusAfterChange(old(status), payload)
    {
      status := Reducer(status, StatusChangeAction(payload));
    }

    /** `sessionSaved`: with a session, the transcript is replaced (event's, else the
        session's), the interim one cleared, a non-blank summary, a non-empty action-item
        list and a download link are taken, and the status becomes COMPLETED; without one,
        the summary and action items are cleared. */
    method OnSessionSaved(p: SavedPayload)
      modifies this`finalTranscript, this`interimTranscript, this`results, this`status
      ensures p.session.None? ==>
        && results == old(results).(summary := "", actionItems := [])
        && status == old(status) && finalTranscript == old(finalTranscript)
        && interimTranscript == old(interimTranscript)
      ensures p.session.Some? ==>
        && finalTranscript == Or(p.transcript, p.session.value.transcript)
        && interimTranscript == ""
        && results == old(results).(summary := SavedSummary(p, old(results).summary),
                                    actionItems := SavedItems(p, old(results).actionItems),
                                    downloadUrl := SavedUrl(p, old(results).downloadUrl))
        && status == Completed
    {
      if p.session.None? {
        results := results.(summary := "", actionItems := []);
        return;
      }
      finalTranscript := Or(p.transcript, p.session.value.transcript);
      interimTranscript := "";
      results := results.(summary := SavedSummary(p, results.summary),
                          actionItems := SavedItems(p, results.actionItems),
                          downloadUrl := SavedUrl(p, results.downloadUrl));
      status := Completed;
    }

    /** The recogniser's `onresult`: the results from `resultIndex` on are scanned, then
        non-blank final text is appended on a new line (clearing the interim text), or else
        the interim text is replaced. The final results that address the assistant are
        handed back, in order, as voice commands. */
    method OnSpeechResult(rs: seq<SpeechResult>, resultIndex: nat)
      returns (commands: seq<string>)
      modifies this`finalTranscript, this`interimTranscript
      ensures finalTranscript == SpeechFinal(old(finalTranscript), Drop(rs, resultIndex))
      ensures interimTranscript == SpeechInterim(Drop(rs, resultIndex))
      ensures commands == WakeCommands(Drop(rs, resultIndex))
    {
      var final, interim;
      final, interim, commands := ScanResults(rs, resultIndex);
      if !IsBlank(final) {
        finalTranscript := (if finalTranscript != "" then finalTranscript + "\n" else "") + Trim(final);
        interimTranscript := "";
      } else {
        interimTranscript := Trim(interim);
      }
    }

    /** `handleVoiceCommand`, run from the speech handler's closure: it sees the status and
        transcript of the render that started the recording (`seen`), not the current ones.
        A bookmark records the end of that transcript, an action item is appended, pause,
        resume and stop change the status as `CommandStatus` says (stop also emits
        `stopSession` and releases the recogniser), and "summarize" returns the request it
        posts. The command arrives already classified, as `VoiceCommands.Classify` does it
        to the text after the wake word. */
    method HandleVoiceCommand(c: VoiceCommands.VoiceCommand, now: nat, ownerEmail: string)
      returns (request: Option<SummaryRequest>)
      requires Valid()
      modifies this`results, this`status, this`sent, this`recognitionActive
      ensures Valid()
      ensures Outcome(results, request, status, sent, recognitionActive)
           == CommandOutcome(c, TranscriptMerge.Combined(seen.finalTranscript, seen.interimTranscript), seen.status,
                             now, ownerEmail, sessionId,
                             Outcome(old(results), None, old(status), old(sent), old(recognitionActive)))
    {
      var combined := TranscriptMerge.Combined(seen.finalTranscript, seen.interimTranscript);
      request := ApplyCommand(c, combined, now, ownerEmail);
    }

    /** The effect of one classified voice command, given the transcript the closure saw. */
    method ApplyCommand(c: VoiceCommands.VoiceCommand, combined: string, now: nat, ownerEmail: string)
      returns (request: Option<SummaryRequest>)
      requires Valid()
      modifies this`results, this`status, this`sent, this`recognitionActive
      ensures Valid()
      ensures Outcome(results, request, status, sent, recognitionActive)
           == CommandOutcome(c, combined, seen.status, now, ownerEmail, sessionId,
                             Outcome(old(results), None, old(status), old(sent), old(recognitionActive)))
    {
      if c.PauseCommand? || c.ResumeCommand? || c.StopCommand? {
        request := ApplyControl(c, combined, now, ownerEmail);
      } else {
        request := ApplyRecord(c, combined, now, ownerEmail);
      }
    }

    /** The commands that record something: a bookmark, an action item, a summary
        request; an unrecognised command does nothing. */
    method ApplyRecord(c: VoiceCommands.VoiceCommand, combined: string, now: nat, ownerEmail: string)
      returns (request: Option<SummaryRequest>)
      requires !(c.PauseCommand? || c.ResumeCommand? || c.StopCommand?)
      modifies this`results
      ensures Outcome(results, request, status, sent, recognitionActive)
           == CommandOutcome(c, combined, seen.status, now, ownerEmail, sessionId,
                             Outcome(old(results), None, status, sent, recognitionActive))
    {
      ghost var before := Outcome(results, None, status, sent, recognitionActive);
      RecordKeepsStatus(c, combined, seen.status, now, ownerEmail, sessionId, before);
      request := None;
      match c
      case Bookmark =>
        results := results.(bookmarks := results.bookmarks + [Bookmark(now, VoiceCommands.BookmarkText(combined))]);
      case AddActionItem(d) =>
        assert old(results).bookmarks + [] == old(results).bookmarks;
        results := results.(actionItems := results.actionItems + [ActionItem("TASK", d, None, None)]);
      case Summarize(m) =>
        assert old(results).bookmarks + [] == old(results).bookmarks;
        assert old(results).actionItems + [] == old(results).actionItems;
        request := Some(SummaryRequest(VoiceCommands.SummaryExcerpt(combined), m));
      case Unknown(_) =>
        assert old(results).bookmarks + [] == old(results).bookmarks;
        assert old(results).actionItems + [] == old(results).actionItems;
    }

    /** The commands that change the status: pause and resume as the status the closure
        saw allows, and stop. */
    method ApplyControl(c: VoiceCommands.VoiceCommand, combined: string, now: nat, ownerEmail: string)
      returns (request: Option<SummaryRequest>)
      requires c.PauseCommand? || c.ResumeCommand? || c.StopCommand?
      modifies this`status, this`sent, this`recognitionActive
      ensures Outcome(results, request, status, sent, recognitionActive)
           == CommandOutcome(c, combined, seen.status, now, ownerEmail, sessionId,
                             Outcome(results, None, old(status), old(sent), old(recognitionActive)))
    {
      request := None;
      match c
      case PauseCommand =>
        if seen.status == Recording {
          Pause();
        }
      case ResumeCommand =>
        if seen.status == Paused {
          Resume();
        }
      case StopCommand =>
        StopWith(combined, now, ownerEmail);
    }

    /** The quick-summary response to a "summarize" voice command. */
    method OnQuickSummary(minutes: nat, text: string)
      modifies this`results
      ensures results == old(results).(summary := QuickSummary(minutes, text, old(results).summary))
    {
      results := results.(summary := QuickSummary(minutes, text, results.summary));
    }

    method Pause()
      modifies this`status
      ensures status == Paused
    {
      status := Paused;
    }

    method Resume()
      modifies this`status
      ensures status == Recording
    {
      status := Recording;
    }

    /** `stopRecording` from the Stop button: PROCESSING, then `stopSession` carrying the
        combined transcript, and the speech recogniser is released. */
    method Stop(now: nat, ownerEmail: string)
      modifies this`status, this`sent, this`recognitionActive
      ensures status == Processing && !recognitionActive
      ensures sent == old(sent)
        + [StopSession(StopId(sessionId, now), TranscriptMerge.Combined(finalTranscript, interimTranscript), ownerEmail)]
    {
      StopWith(TranscriptMerge.Combined(finalTranscript, interimTranscript), now, ownerEmail);
    }

    /** `stopRecording` with the transcript its closure computed. */
    method StopWith(combined: string, now: nat, ownerEmail: string)
      modifies this`status, this`sent, this`recognitionActive
      ensures status == Processing && !recognitionActive
      ensures sent == old(sent) + [StopSession(StopId(sessionId, now), combined, ownerEmail)]
    {
      status := Processing;
      sent := sent + [StopSession(StopId(sessionId, now), combined, ownerEmail)];
      recognitionActive := false;
    }

    /** The "new recording" button, shown only once the session is COMPLETED: everything
        the session produced is cleared, the counter reset, the status IDLE. */
    method Reset()
      requires Valid() && status == Completed
      modifies this`status, this`finalTranscript, this`interimTranscript, this`results, this`sessionId, this`sequence
      ensures Valid()
      ensures status == Idle && finalTranscript == "" && interimTranscript == ""
      ensures results == NoResults && sessionId == None && sequence == 0
    {
      finalTranscript := "";
      interimTranscript := "";
      results := NoResults;
      sessionId := None;
      sequence := 0;
      status := Idle;
    }
  }

  /** The scanning loop of `onresult`: final and interim text are collected separately,
      left to right, and each final result naming the assistant is kept, lower-cased and
      trimmed. */
  method ScanResults(results: seq<SpeechResult>, resultIndex: nat)
    returns (final: string, interim: string, commands: seq<string>)
    ensures final == FinalText(Drop(results, resultIndex))
    ensures interim == InterimText(Drop(results, resultIndex))
    ensures commands == WakeCommands(Drop(results, resultIndex))
  {
    var rs := Drop(results, resultIndex);
    final, interim, commands := "", "", [];
    var i := 0;
    while i < |rs|
      invariant i <= |rs|
      invariant final == FinalText(rs[..i])
      invariant interim == InterimText(rs[..i])
      invariant commands == WakeCommands(rs[..i])
    {
      ScanStep(rs, i);
      final, interim, commands := ScanOne(final, interim, commands, rs[i]);
      i := i + 1;
    }
    assert rs[..i] == rs;
  }

  /** The scans of the first `i + 1` results extend those of the first `i`. */
  lemma ScanStep(rs: seq<SpeechResult>, i: nat)
    requires i < |rs|
    ensures FinalText(rs[..i + 1]) == FinalText(rs[..i]) + (if rs[i].isFinal then rs[i].transcript else "")
    ensures InterimText(rs[..i + 1]) == InterimText(rs[..i]) + (if rs[i].isFinal then "" else rs[i].transcript)
    ensures var t := Trim(Lower(rs[i].transcript));
      WakeCommands(rs[..i + 1]) == WakeCommands(rs[..i]) + (if rs[i].isFinal && HasWakeWord(t) then [t] else [])
  {
    assert rs[..i + 1][..i] == rs[..i];
  }

  /** One result of the scan: final text and the commands it carries, or interim text. */
  method ScanOne(final: string, interim: string, commands: seq<string>, r: SpeechResult)
    returns (final': string, interim': string, commands': seq<string>)
    ensures final' == final + (if r.isFinal then r.transcript else "")
    ensures interim' == interim + (if r.isFinal then "" else r.transcript)
    ensures var t := Trim(Lower(r.transcript));
      commands' == commands + (if r.isFinal && HasWakeWord(t) then [t] else [])
  {
    final', interim', commands' := final, interim, commands;
    if r.isFinal {
      final' := final + r.transcript;
      var t := Trim(Lower(r.transcript));
      if HasWakeWord(t) {
        commands' := commands + [t];
      }
    } else {
      interim' := interim + r.transcript;
    }
  }
}
