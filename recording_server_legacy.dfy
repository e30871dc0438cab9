/** The older JavaScript recording handlers, server/sockets/recording.js. They share the
    registry of server/sockets/recording.ts and differ in three places: every stored chunk
    is acknowledged with a placeholder transcript, a stop without chunks completes at once
    even when the client sent a transcript, and the server transcribes the chunks one by
    one, joining what each returns. */
module LegacyRecordingServer {
  import opened Strings
  import opened RecordingServer
  import Summarizer

  const NoTranscription: string := "(no transcription)"
  const ChunkError: string := "(error transcribing chunk)"

  /** The body of the POST to the session store; the summary goes as the whole object. */
  datatype LegacyPayload = LegacyPayload(title: string, transcript: string, summary: Summarizer.Summary,
                                         ownerEmail: Option<string>)

  /** The placeholder sent for every stored chunk. */
  function Placeholder(sequence: nat): string
  {
    "Transcription Placeholder for sequence " + NatToString(sequence)
  }

  /** `audioChunk`: the chunk is stored as in the TypeScript handler, then acknowledged. */
  method LegacyAudioChunk(r: Registry, socketId: string, sessionId: string, sequence: nat, now: nat, writeOk: bool)
    returns (sid: string, events: seq<Event>)
    modifies r
    ensures sid == ChunkSession(old(r.sessions), old(r.socketSession), socketId, sessionId, now)
    ensures writeOk ==> r.sessions == old(r.sessions)[sid := WithChunk(old(r.sessions), sid, sequence)]
                        && r.socketSession == old(r.socketSession)[socketId := sid]
                        && events == [TranscriptUpdate(Placeholder(sequence))]
    ensures !writeOk ==> r.sessions == old(r.sessions) && r.socketSession == old(r.socketSession)
                         && events == [StatusChange("ERROR")]
  {
    sid, events := r.AudioChunk(socketId, sessionId, sequence, now, writeOk);
    if writeOk {
      events := [TranscriptUpdate(Placeholder(sequence))];
    }
  }

  // ---------------------------------------------------------------- the transcription loop

  /** What a chunk contributes when the transcriber answered `part` (`null` counts as ""):
      the answer itself when it is not blank, else the marker. */
  function SafePart(part: string): (r: string)
    ensures r != ""
    ensures !IsBlank(part) ==> r == part
    ensures IsBlank(part) ==> r == NoTranscription
  {
    if Trim(part) != "" then part else NoTranscription
  }

  /** The text sent for a chunk: its contribution, or the error marker when reading or
      transcribing it threw (`None`). */
  function Shown(outcome: Option<string>): string
  {
    match outcome
    case Some(part) => SafePart(part)
    case None => ChunkError
  }

  /** The contributions of the chunks that did not throw, in order. */
  function Kept(outcomes: seq<Option<string>>): (r: seq<string>)
    ensures |r| <= |outcomes|
    ensures forall k :: 0 <= k < |r| ==> r[k] != ""
  {
    if outcomes == [] then []
    else
      var init := Kept(outcomes[..|outcomes| - 1]);
      match outcomes[|outcomes| - 1]
      case Some(part) => init + [SafePart(part)]
      case None => init
  }

  /** The answers for the sorted chunks. */
  function Outcomes(list: seq<string>, partFor: string -> Option<string>): (r: seq<Option<string>>)
    ensures |r| == |list| && forall i :: 0 <= i < |list| ==> r[i] == partFor(list[i])
  {
    seq(|list|, i requires 0 <= i < |list| => partFor(list[i]))
  }

  /** The server-side loop of `stopSession`: the transcript grows by a newline and the
      contribution of each chunk that did not throw; every chunk sends one update. */
  method TranscribeEach(outcomes: seq<Option<string>>) returns (fullTranscript: string, events: seq<Event>)
    ensures fullTranscript == Join(Kept(outcomes), "\n")
    ensures |events| == |outcomes|
    ensures forall i :: 0 <= i < |outcomes| ==> events[i] == TranscriptUpdate(Shown(outcomes[i]))
  {
    fullTranscript := "";
    events := [];
    for i := 0 to |outcomes|
      invariant fullTranscript == Join(Kept(outcomes[..i]), "\n")
      invariant fullTranscript == "" <==> Kept(outcomes[..i]) == []
      invariant events == Updates(outcomes[..i])
    {
      KeptSnoc(outcomes, i);
      var shown := Shown(outcomes[i]);
      if outcomes[i].Some? {
        var safePart := SafePart(outcomes[i].value);
        JoinLine(Kept(outcomes[..i]), fullTranscript, safePart);
        fullTranscript := fullTranscript + (if fullTranscript != "" then "\n" else "") + safePart;
      }
      events := events + [TranscriptUpdate(shown)];
    }
    assert outcomes[..|outcomes|] == outcomes;
    UpdatesShown(outcomes);
  }

  /** The updates sent for the chunks, one per chunk in order. */
  function Updates(outcomes: seq<Option<string>>): seq<Event>
  {
    if outcomes == [] then []
    else Updates(outcomes[..|outcomes| - 1]) + [TranscriptUpdate(Shown(outcomes[|outcomes| - 1]))]
  }

  lemma {:induction false} UpdatesShown(outcomes: seq<Option<string>>)
    ensures |Updates(outcomes)| == |outcomes|
    ensures forall i :: 0 <= i < |outcomes| ==> Updates(outcomes)[i] == TranscriptUpdate(Shown(outcomes[i]))
    decreases |outcomes|
  {
    if outcomes != [] {
      var init := outcomes[..|outcomes| - 1];
      var u := Updates(init) + [TranscriptUpdate(Shown(outcomes[|outcomes| - 1]))];
      assert Updates(outcomes) == u;
      UpdatesShown(init);
      forall i | 0 <= i < |outcomes| ensures u[i] == TranscriptUpdate(Shown(outcomes[i])) {
        if i < |init| {
          assert init[i] == outcomes[i];
        }
      }
    }
  }

  lemma KeptSnoc(outcomes: seq<Option<string>>, i: nat)
    requires i < |outcomes|
    ensures outcomes[i].Some? ==> Kept(outcomes[..i + 1]) == Kept(outcomes[..i]) + [SafePart(outcomes[i].value)]
    ensures outcomes[i].None? ==> Kept(outcomes[..i + 1]) == Kept(outcomes[..i])
    ensures Updates(outcomes[..i + 1]) == Updates(outcomes[..i]) + [TranscriptUpdate(Shown(outcomes[i]))]
  {
    assert outcomes[..i + 1][..i] == outcomes[..i];
  }

  /** Appending one line to a transcript joined with line feeds. */
  lemma JoinLine(parts: seq<string>, text: string, line: string)
    requires text == Join(parts, "\n") && (text == "" <==> parts == [])
    ensures text + (if text != "" then "\n" else "") + line == Join(parts + [line], "\n")
  {
    if text != "" {
      JoinSnoc(parts, line, "\n");
    } else {
      assert parts + [line] == [line];
    }
  }

  /** Every chunk that did not throw gives one line of the transcript, so the transcript
      holds as many pieces as there were answers. */
  lemma {:induction false} KeptCount(outcomes: seq<Option<string>>)
    ensures |Kept(outcomes)| == |set i | 0 <= i < |outcomes| && outcomes[i].Some?|
    decreases |outcomes|
  {
    if outcomes != [] {
      var n := |outcomes| - 1;
      var init := outcomes[..n];
      KeptCount(init);
      var before := set i | 0 <= i < n && init[i].Some?;
      var after := set i | 0 <= i < |outcomes| && outcomes[i].Some?;
      if outcomes[n].Some? {
        assert after == before + {n};
      } else {
        assert after == before;
      }
    }
  }

  /** With the transcriber of server/gemini.js, which always answers `null`, every chunk
      reads "(no transcription)". */
  lemma {:induction false} NullTranscriber(outcomes: seq<Option<string>>)
    requires forall i :: 0 <= i < |outcomes| ==> outcomes[i] == Some("")
    ensures Kept(outcomes) == seq(|outcomes|, _ => NoTranscription)
    decreases |outcomes|
  {
    if outcomes != [] {
      NullTranscriber(outcomes[..|outcomes| - 1]);
      assert IsBlank("");
    }
  }

  /** The transcript of a legacy stop that goes past the early exit. */
  function LegacyTranscript(chunks: seq<string>, clientTranscript: string, partFor: string -> Option<string>): (r: string)
    ensures !IsBlank(clientTranscript) ==> r != [] && !IsSpace(r[0]) && !IsSpace(r[|r| - 1])
  {
    if !IsBlank(clientTranscript) then Trim(clientTranscript)
    else Join(Kept(Outcomes(SortBy(chunks, SequenceOf), partFor)), "\n")
  }

  /** `stopSession` of recording.js: it completes at once when the session has no chunks;
      otherwise it settles a transcript, summarizes it, posts `Session <sid>` to the store
      and reports `sessionSaved` only when the store answered `ok`. */
  method LegacyStopSession(r: Registry, socketId: string, sessionId: string, clientTranscript: string,
                           ownerEmail: string, partFor: string -> Option<string>,
                           summarize: string -> Summarizer.Summary, post: PostOutcome)
    returns (events: seq<Event>, request: Option<LegacyPayload>)
    ensures var sid := BoundSession(r.sessions, r.socketSession, socketId, sessionId);
      var info := if sid.Some? && sid.value in r.sessions then Some(r.sessions[sid.value]) else None;
      var transcript := LegacyTranscript(if info.Some? then info.value.chunks else [], clientTranscript, partFor);
      && |events| >= 2 && events[0] == StatusChange("PROCESSING")
      && events[|events| - 1] == StatusChange("COMPLETED")
      && ((info.None? || info.value.chunks == []) <==> request.None?)
      && (request.None? ==> events == [StatusChange("PROCESSING"), StatusChange("COMPLETED")])
      && (request.Some? ==>
            && request.value.transcript == transcript
            && request.value.summary == summarize(transcript)
            && request.value.title == "Session " + SidText(sid)
            && request.value.ownerEmail == (if Trim(ownerEmail) != "" then Some(Trim(ownerEmail)) else None))
      && (request.Some? ==>
            ((post.Responded? && post.json.Some? && post.json.value.ok) <==> !NoneSaved(events)))
  {
    events := [StatusChange("PROCESSING")];
    var sid := BoundSession(r.sessions, r.socketSession, socketId, sessionId);
    var info: Option<SessionInfo> := if sid.Some? && sid.value in r.sessions then Some(r.sessions[sid.value]) else None;
    if info.None? || info.value.chunks == [] {
      return events + [StatusChange("COMPLETED")], None;
    }
    var fullTranscript, transcribed := LegacySettle(info.value.chunks, clientTranscript, partFor);
    var summary := summarize(fullTranscript);
    request := Some(LegacyPayload("Session " + SidText(sid), fullTranscript, summary,
                                  if Trim(ownerEmail) != "" then Some(Trim(ownerEmail)) else None));
    var ok := post.Responded? && post.json.Some? && post.json.value.ok;
    var saved := LegacyReport(fullTranscript, summary, post);
    events := events + transcribed + saved + [StatusChange("COMPLETED")];
    StoredEvents(transcribed, saved, ok);
  }

  /** The transcript step of the legacy `stopSession`. */
  method LegacySettle(chunks: seq<string>, clientTranscript: string, partFor: string -> Option<string>)
    returns (fullTranscript: string, events: seq<Event>)
    ensures fullTranscript == LegacyTranscript(chunks, clientTranscript, partFor)
    ensures NoneSaved(events)
  {
    if !IsBlank(clientTranscript) {
      fullTranscript := Trim(clientTranscript);
      events := [TranscriptUpdate(fullTranscript)];
    } else {
      var list := SortBy(chunks, SequenceOf);
      fullTranscript, events := TranscribeEach(Outcomes(list, partFor));
    }
  }

  /** `sessionSaved` with the store's record, then the transcript, only when the store
      answered `ok`. */
  method LegacyReport(fullTranscript: string, summary: Summarizer.Summary, post: PostOutcome)
    returns (events: seq<Event>)
    ensures post.Responded? && post.json.Some? && post.json.value.ok ==>
      events == [StoredSessionSaved(post.json.value.session, fullTranscript, summary), TranscriptUpdate(fullTranscript)]
    ensures !(post.Responded? && post.json.Some? && post.json.value.ok) ==> events == []
  {
    events := [];
    if post.Responded? && post.json.Some? && post.json.value.ok {
      events := [StoredSessionSaved(post.json.value.session, fullTranscript, summary), TranscriptUpdate(fullTranscript)];
    }
  }

  /** The events of a legacy stop that goes past the early exit. */
  lemma StoredEvents(transcribed: seq<Event>, saved: seq<Event>, ok: bool)
    requires NoneSaved(transcribed)
    requires ok ==> |saved| == 2 && saved[0].StoredSessionSaved?
    requires !ok ==> saved == []
    ensures var events := [StatusChange("PROCESSING")] + transcribed + saved + [StatusChange("COMPLETED")];
      ok <==> !NoneSaved(events)
  {
    var head := [StatusChange("PROCESSING")] + transcribed;
    ConcatEvents([StatusChange("PROCESSING")], transcribed);
    ConcatEvents(head, saved);
    ConcatEvents(head + saved, [StatusChange("COMPLETED")]);
    if ok {
      assert (head + saved + [StatusChange("COMPLETED")])[|head|] == saved[0];
    }
  }
}
