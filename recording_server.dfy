/** The recording socket handlers of server/sockets/recording.ts: the session registry
    (`sessions`: id to directory and chunk paths, `socketSession`: socket to id) that
    `startSession` and `audioChunk` update, the numeric ordering of the chunk paths, and
    the decision tree of `stopSession`.

    Each handler runs to completion before the next one starts. The file system, the clock,
    the transcription service, the summarizer and the session store are parameters. */
module RecordingServer {
  import opened Strings
  import ChunkTranscription
  import Summarizer

  /** `recordingsRoot`, the directory under which every session keeps its chunks. */
  const RecordingsRoot: string := "recordings"
  const DefaultSocketPort: string := "4000"

  /** The environment the download link is built from: `SOCKET_PUBLIC_URL` and
      `SOCKET_PORT`, each "" when unset. */
  datatype PublicEnv = PublicEnv(publicUrl: string, socketPort: string)

  /** What the registry keeps for a session: its directory and its chunk paths in arrival
      order. */
  datatype SessionInfo = SessionInfo(dir: string, chunks: seq<string>)

  /** The `session` object of a `sessionSaved` event: the record the store returned, or
      one built locally when it returned none. */
  datatype SessionObject =
    | FromStore(record: string)
    | Local(id: string, title: string, downloadUrl: Option<string>, keywords: seq<string>,
            actionItems: seq<Summarizer.JsonItem>)

  /** The events a socket receives. */
  datatype Event =
    | StatusChange(status: string)
    | TranscriptUpdate(text: string)
    | PartialTranscript(text: string, sequence: nat)
    | SessionSaved(session: SessionObject, transcript: string, summary: string,
                   downloadUrl: Option<string>, keywords: seq<string>,
                   actionItems: seq<Summarizer.JsonItem>)
    | StoredSessionSaved(record: Option<string>, transcript: string, summaryObject: Summarizer.Summary)

  /** The body of the POST to the session store. */
  datatype Payload = Payload(title: string, transcript: string, summary: string,
                             keywords: seq<string>, actionItems: seq<Summarizer.JsonItem>,
                             clientSessionId: Option<string>, downloadUrl: Option<string>,
                             ownerEmail: Option<string>)

  /** The parsed answer of the session store. */
  datatype StoreReply = StoreReply(ok: bool, session: Option<string>)

  /** How the POST ended: it threw, or it answered with a body that parsed to `json`
      (`None` when it did not parse). */
  datatype PostOutcome = PostThrew | Responded(json: Option<StoreReply>)

  // ---------------------------------------------------------------- paths

  /** `path.join(recordingsRoot, sessionId)`. */
  function SessionDir(sessionId: string): string
  {
    RecordingsRoot + "/" + sessionId
  }

  /** `path.join(info.dir, `${sequence}.webm`)`. */
  function ChunkPath(dir: string, sequence: nat): string
  {
    dir + "/" + NatToString(sequence) + ".webm"
  }

  /** `Number(path.basename(p, path.extname(p)))`: the number the file name holds before
      its extension. Every stored path comes from `ChunkPath`, whose stem is a decimal
      number; any other stem counts as 0. */
  function SequenceOf(p: string): nat
  {
    var base := p[LastIndexOfChar(p, '/') + 1..];
    var dot := LastIndexOfChar(base, '.');
    var stem := if dot > 0 then base[..dot] else base;
    if AllDigits(stem) then DigitsValue(stem) else 0
  }

  lemma {:induction false} LastIndexAt(s: string, c: char, p: nat)
    requires p < |s| && s[p] == c
    requires forall j :: p < j < |s| ==> s[j] != c
    ensures LastIndexOfChar(s, c) == p
    decreases |s|
  {
    if p < |s| - 1 {
      LastIndexAt(s[..|s| - 1], c, p);
    }
  }

  /** The sequence number of a chunk is read back from its path, whatever the directory. */
  lemma ChunkPathSequence(dir: string, sequence: nat)
    ensures SequenceOf(ChunkPath(dir, sequence)) == sequence
  {
    var digits := NatToString(sequence);
    var p := ChunkPath(dir, sequence);
    var name := digits + ".webm";
    assert p == dir + "/" + name;
    assert forall j :: |dir| < j < |p| ==> p[j] != '/' by {
      forall j | |dir| < j < |p| ensures p[j] != '/' {
        assert p[j] == name[j - |dir| - 1];
      }
    }
    LastIndexAt(p, '/', |dir|);
    assert p[|dir| + 1..] == name;
    LastIndexAt(name, '.', |digits|);
    assert name[..|digits|] == digits;
    NatToStringValue(sequence);
  }

  // ---------------------------------------------------------------- ordering the chunks

  /** `ps` is in increasing order of `key`. */
  predicate SortedBy(ps: seq<string>, key: string -> nat) {
    forall i, j :: 0 <= i < j < |ps| ==> key(ps[i]) <= key(ps[j])
  }

  /** Puts `p` after every element whose key is not greater. */
  function InsertBy(p: string, ps: seq<string>, key: string -> nat): (r: seq<string>)
    ensures |r| == |ps| + 1
  {
    if ps == [] then [p]
    else if key(p) < key(ps[0]) then [p] + ps
    else [ps[0]] + InsertBy(p, ps[1..], key)
  }

  /** `Array.prototype.sort` with the comparator `(a, b) => key(a) - key(b)`: a stable
      sort, so elements with equal keys keep their order. */
  function SortBy(ps: seq<string>, key: string -> nat): (r: seq<string>)
    ensures |r| == |ps|
  {
    if ps == [] then [] else InsertBy(ps[|ps| - 1], SortBy(ps[..|ps| - 1], key), key)
  }

  /** The elements whose key is `n`, in order. */
  function WithKey(ps: seq<string>, key: string -> nat, n: nat): seq<string>
  {
    if ps == [] then []
    else (if key(ps[0]) == n then [ps[0]] else []) + WithKey(ps[1..], key, n)
  }

  lemma {:induction false} InsertElements(p: string, ps: seq<string>, key: string -> nat)
    ensures multiset(InsertBy(p, ps, key)) == multiset(ps) + multiset{p}
    decreases |ps|
  {
    if ps != [] && key(p) >= key(ps[0]) {
      InsertElements(p, ps[1..], key);
      assert ps == [ps[0]] + ps[1..];
    }
  }

  lemma {:induction false} InsertSorted(p: string, ps: seq<string>, key: string -> nat)
    requires SortedBy(ps, key)
    ensures SortedBy(InsertBy(p, ps, key), key)
    decreases |ps|
  {
    if ps != [] && key(p) >= key(ps[0]) {
      InsertSorted(p, ps[1..], key);
      InsertElements(p, ps[1..], key);
      var r := InsertBy(p, ps[1..], key);
      forall k | 0 <= k < |r| ensures key(ps[0]) <= key(r[k]) {
        assert r[k] in multiset(ps[1..]) + multiset{p};
        if r[k] != p {
          assert r[k] in ps[1..];
        }
      }
    }
  }

  lemma {:induction false} WithKeyAppend(a: seq<string>, b: seq<string>, key: string -> nat, n: nat)
    ensures WithKey(a + b, key, n) == WithKey(a, key, n) + WithKey(b, key, n)
    decreases |a|
  {
    if a != [] {
      WithKeyAppend(a[1..], b, key, n);
      assert (a + b)[1..] == a[1..] + b;
    } else {
      assert a + b == b;
    }
  }

  /** In a sorted list whose first key exceeds `n`, no key is `n`. */
  lemma {:induction false} NoneWithSmaller(ps: seq<string>, key: string -> nat, n: nat)
    requires SortedBy(ps, key) && ps != [] && n < key(ps[0])
    ensures WithKey(ps, key, n) == []
    decreases |ps|
  {
    if |ps| > 1 {
      NoneWithSmaller(ps[1..], key, n);
    }
  }

  /** Inserting keeps the order among equal keys: `p` comes after the elements with its
      own key. */
  lemma {:induction false} InsertStable(p: string, ps: seq<string>, key: string -> nat, n: nat)
    requires SortedBy(ps, key)
    ensures WithKey(InsertBy(p, ps, key), key, n)
         == WithKey(ps, key, n) + (if key(p) == n then [p] else [])
    decreases |ps|
  {
    if ps == [] {
    } else if key(p) < key(ps[0]) {
      WithKeyAppend([p], ps, key, n);
      if key(p) == n {
        NoneWithSmaller(ps, key, n);
      }
    } else {
      SortedByTail(ps, key);
      InsertStable(p, ps[1..], key, n);
      var rest := InsertBy(p, ps[1..], key);
      assert ([ps[0]] + rest)[0] == ps[0] && ([ps[0]] + rest)[1..] == rest;
    }
  }

  lemma SortedByTail(ps: seq<string>, key: string -> nat)
    requires ps != [] && SortedBy(ps, key)
    ensures SortedBy(ps[1..], key)
  {
    forall i, j | 0 <= i < j < |ps| - 1 ensures key(ps[1..][i]) <= key(ps[1..][j]) {
      assert ps[1..][i] == ps[i + 1] && ps[1..][j] == ps[j + 1];
    }
  }

  /** The sort puts the elements in increasing order of their keys, loses and adds none,
      and keeps the original order among elements with the same key. */
  lemma {:induction false} SortFacts(ps: seq<string>, key: string -> nat)
    ensures SortedBy(SortBy(ps, key), key)
    ensures multiset(SortBy(ps, key)) == multiset(ps)
    ensures forall n :: WithKey(SortBy(ps, key), key, n) == WithKey(ps, key, n)
    decreases |ps|
  {
    if ps != [] {
      var init := ps[..|ps| - 1];
      var p := ps[|ps| - 1];
      SortFacts(init, key);
      InsertSorted(p, SortBy(init, key), key);
      InsertElements(p, SortBy(init, key), key);
      assert ps == init + [p];
      forall n ensures WithKey(SortBy(ps, key), key, n) == WithKey(ps, key, n) {
        InsertStable(p, SortBy(init, key), key, n);
        assert ps == init + [p];
        WithKeyAppend(init, [p], key, n);
      }
    }
  }

  lemma ThreeOutOfOrder(a: string, b: string, c: string, key: string -> nat)
    requires key(b) < key(c) < key(a)
    ensures SortBy([a, b, c], key) == [b, c, a]
  {
    assert [a, b, c][..2] == [a, b];
    assert [a, b][..1] == [a];
    assert SortBy([a], key) == [a];
    assert SortBy([a, b], key) == [b, a];
    assert [b, a][1..] == [a];
    assert InsertBy(c, [a], key) == [c, a];
    assert InsertBy(c, [b, a], key) == [b] + InsertBy(c, [a], key);
  }

  /** Chunks that arrived out of order come out in sequence order. */
  lemma OutOfOrderChunks(dir: string)
    ensures SortBy([ChunkPath(dir, 2), ChunkPath(dir, 0), ChunkPath(dir, 1)], SequenceOf)
         == [ChunkPath(dir, 0), ChunkPath(dir, 1), ChunkPath(dir, 2)]
  {
    ChunkPathSequence(dir, 0);
    ChunkPathSequence(dir, 1);
    ChunkPathSequence(dir, 2);
    ThreeOutOfOrder(ChunkPath(dir, 2), ChunkPath(dir, 0), ChunkPath(dir, 1), SequenceOf);
  }

  // ---------------------------------------------------------------- resolving the session

  /** The session a handler works on: the explicit id when it is registered, else the one
      bound to the socket (`socket.data.sessionId` and `socketSession` always hold the
      same id), else none. */
  function BoundSession(sessions: map<string, SessionInfo>, socketSession: map<string, string>,
                        socketId: string, explicit: string): (sid: Option<string>)
    ensures explicit != "" && explicit in sessions ==> sid == Some(explicit)
    ensures sid.Some? && sid.value != explicit ==> socketId in socketSession && sid.value == socketSession[socketId]
  {
    if explicit != "" && explicit in sessions then Some(explicit)
    else if socketId in socketSession then Some(socketSession[socketId])
    else None
  }

  /** `audioChunk` falls back to a fresh `session-<time>` id when nothing is bound. */
  function ChunkSession(sessions: map<string, SessionInfo>, socketSession: map<string, string>,
                        socketId: string, explicit: string, now: nat): (sid: string)
    ensures sid != ""
    ensures explicit != "" && explicit in sessions ==> sid == explicit
  {
    match BoundSession(sessions, socketSession, socketId, explicit)
    case Some(s) => if s != "" then s else "session-" + NatToString(now)
    case None => "session-" + NatToString(now)
  }

  /** After `startSession` on a socket, a chunk sent on that socket without an id (or with
      an unknown one) goes to the started session, which then holds exactly that chunk. */
  lemma ChunkAfterStart(sessions: map<string, SessionInfo>, socketSession: map<string, string>,
                        socketId: string, started: string, explicit: string, sequence: nat, now: nat)
    requires started != "" && (explicit == "" || explicit !in sessions) && explicit != started
    ensures var sessions' := sessions[started := SessionInfo(SessionDir(started), [])];
      var sid := ChunkSession(sessions', socketSession[socketId := started], socketId, explicit, now);
      && sid == started
      && WithChunk(sessions', sid, sequence).chunks == [ChunkPath(SessionDir(started), sequence)]
  {
  }

  /** The entry after a chunk: the registered one, or a new one in the session's
      directory, with the chunk's path appended. */
  function WithChunk(sessions: map<string, SessionInfo>, sid: string, sequence: nat): (info: SessionInfo)
    ensures sid in sessions ==>
              info.dir == sessions[sid].dir && info.chunks == sessions[sid].chunks + [ChunkPath(info.dir, sequence)]
    ensures sid !in sessions ==> info == SessionInfo(SessionDir(sid), [ChunkPath(SessionDir(sid), sequence)])
  {
    var info := if sid in sessions then sessions[sid] else SessionInfo(SessionDir(sid), []);
    SessionInfo(info.dir, info.chunks + [ChunkPath(info.dir, sequence)])
  }

  /** `sessions.get(sid)`: the entry of a resolved, registered session. */
  function SessionOf(sessions: map<string, SessionInfo>, sid: Option<string>): (info: Option<SessionInfo>)
    ensures info.Some? <==> sid.Some? && sid.value in sessions
    ensures info.Some? ==> info.value == sessions[sid.value]
  {
    if sid.Some? && sid.value in sessions then Some(sessions[sid.value]) else None
  }

  /** The chunk paths of an entry that may be missing. */
  function ChunksOf(info: Option<SessionInfo>): seq<string>
  {
    if info.Some? then info.value.chunks else []
  }

  /** `!info || !info.chunks || info.chunks.length === 0`, then a blank client transcript:
      the case where `stopSession` completes at once. */
  predicate StopsEarly(info: Option<SessionInfo>, clientTranscript: string)
  {
    (info.None? || info.value.chunks == []) && IsBlank(clientTranscript)
  }

  /** How a template literal prints a session id that may not have resolved. */
  function SidText(sid: Option<string>): string
  {
    if sid.Some? then sid.value else "undefined"
  }

  /** The title of the saved session: the trimmed summary title, or `Session <sid>`
      (an unresolved id prints as "undefined"). */
  function SavedTitle(summaryTitle: string, sid: Option<string>): (t: string)
    ensures Trim(summaryTitle) != "" ==> t == Trim(summaryTitle)
    ensures Trim(summaryTitle) == "" && sid.Some? ==> t == "Session " + sid.value
    ensures Trim(summaryTitle) == "" && sid.None? ==> t == "Session undefined"
  {
    if Trim(summaryTitle) != "" then Trim(summaryTitle)
    else "Session " + SidText(sid)
  }

  /** The base of the download link: `SOCKET_PUBLIC_URL`, else `http://localhost:` and
      `SOCKET_PORT` or 4000. */
  function PublicBase(env: PublicEnv): (b: string)
    ensures env.publicUrl != "" ==> b == env.publicUrl
    ensures env.publicUrl == "" && env.socketPort != "" ==> b == "http://localhost:" + env.socketPort
    ensures env.publicUrl == "" && env.socketPort == "" ==> b == "http://localhost:4000"
  {
    if env.publicUrl != "" then env.publicUrl
    else "http://localhost:" + (if env.socketPort != "" then env.socketPort else DefaultSocketPort)
  }

  /** The public URL of the transcript file: the public base without a trailing slash,
      then `/recordings/<sid>/transcript.txt`. */
  function DownloadUrl(env: PublicEnv, sid: Option<string>): (r: string)
    ensures EndsWith(r, "/transcript.txt")
    ensures var b := PublicBase(env); b != [] && b[|b| - 1] != '/' ==> b + "/recordings/" <= r
    ensures var b := PublicBase(env); b != [] && b[|b| - 1] == '/' ==> b[..|b| - 1] + "/recordings/" <= r
  {
    var base := PublicBase(env);
    var trimmed := if base != [] && base[|base| - 1] == '/' then base[..|base| - 1] else base;
    var tail := SidText(sid) + "/transcript.txt";
    assert trimmed + "/recordings/" + SidText(sid) + "/transcript.txt" == (trimmed + "/recordings/") + tail;
    trimmed + "/recordings/" + SidText(sid) + "/transcript.txt"
  }

  /** The transcript `stopSession` settles on: the client's, trimmed, when it is not blank;
      else the server transcription of the sorted chunks (empty when there are none or
      when the transcriber cannot be loaded). */
  function FinalTranscript(chunks: seq<string>, clientTranscript: string, apiKey: string,
                           replyFor: string -> ChunkTranscription.ChunkReply, transcriberFails: bool): string
  {
    if !IsBlank(clientTranscript) then Trim(clientTranscript)
    else if chunks == [] || transcriberFails || apiKey == "" then ""
    else
      var list := SortBy(chunks, SequenceOf);
      var replies := seq(|list|, i requires 0 <= i < |list| => replyFor(list[i]));
      Join(ChunkTranscription.Texts(ChunkTranscription.Contributions(replies)), "\n")
  }

  /** The partial transcripts as `transcriptUpdate` events. */
  function Partials(emitted: seq<(string, nat)>): (es: seq<Event>)
    ensures |es| == |emitted|
    ensures forall k :: 0 <= k < |es| ==> es[k].PartialTranscript?
  {
    seq(|emitted|, k requires 0 <= k < |emitted| => PartialTranscript(emitted[k].0, emitted[k].1))
  }

  // ---------------------------------------------------------------- the handlers

  class Registry {
    var sessions: map<string, SessionInfo>
    var socketSession: map<string, string>

    constructor()
      ensures sessions == map[] && socketSession == map[]
    {
      sessions := map[];
      socketSession := map[];
    }

    /** `startSession`: a fresh, empty entry for the id (dropping any chunks it had), the
        socket bound to it, and RECORDING. */
    method StartSession(socketId: string, sessionId: string) returns (events: seq<Event>)
      modifies this
      ensures sessions == old(sessions)[sessionId := SessionInfo(SessionDir(sessionId), [])]
      ensures socketSession == old(socketSession)[socketId := sessionId]
      ensures events == [StatusChange("RECORDING")]
    {
      sessions := sessions[sessionId := SessionInfo(SessionDir(sessionId), [])];
      socketSession := socketSession[socketId := sessionId];
      events := [StatusChange("RECORDING")];
    }

    /** `audioChunk`: resolves the session, appends exactly one chunk path to it and binds
        the socket to it; a failed write changes nothing and reports ERROR. */
    method AudioChunk(socketId: string, sessionId: string, sequence: nat, now: nat, writeOk: bool)
      returns (sid: string, events: seq<Event>)
      modifies this
      ensures sid == ChunkSession(old(sessions), old(socketSession), socketId, sessionId, now)
      ensures writeOk ==> sessions == old(sessions)[sid := WithChunk(old(sessions), sid, sequence)]
                          && socketSession == old(socketSession)[socketId := sid] && events == []
      ensures !writeOk ==> sessions == old(sessions) && socketSession == old(socketSession)
                           && events == [StatusChange("ERROR")]
    {
      sid := ChunkSession(sessions, socketSession, socketId, sessionId, now);
      if !writeOk {
        return sid, [StatusChange("ERROR")];
      }
      var info := if sid in sessions then sessions[sid] else SessionInfo(SessionDir(sid), []);
      info := info.(chunks := info.chunks + [ChunkPath(info.dir, sequence)]);
      sessions := sessions[sid := info];
      socketSession := socketSession[socketId := sid];
      events := [];
    }

    /** `stopSession`. It reads the registry and changes nothing in it, so stopping the
        same session twice finalizes it twice. The summarizer is `summarize`; the store's
        answer to the POST is `post`; `dirOk` says whether the session directory could be
        created. */
    method StopSession(socketId: string, sessionId: string, clientTranscript: string, ownerEmail: string,
                       apiKey: string, replyFor: string -> ChunkTranscription.ChunkReply,
                       transcriberFails: bool, summarize: string -> Summarizer.Summary,
                       env: PublicEnv, dirOk: bool, post: PostOutcome)
      returns (events: seq<Event>, request: Option<Payload>)
      ensures StopReport(sessions, socketSession, socketId, sessionId, clientTranscript, ownerEmail, apiKey,
                         replyFor, transcriberFails, summarize, post, events, request)
    {
      events, request := Stop(sessions, socketSession, socketId, sessionId, clientTranscript, ownerEmail,
                              apiKey, replyFor, transcriberFails, summarize, env, dirOk, post);
    }
  }

  /** What `stopSession` reports for the registry it reads. */
  ghost predicate StopReport(sessions: map<string, SessionInfo>, socketSession: map<string, string>,
                             socketId: string, sessionId: string, clientTranscript: string, ownerEmail: string,
                             apiKey: string, replyFor: string -> ChunkTranscription.ChunkReply,
                             transcriberFails: bool, summarize: string -> Summarizer.Summary, post: PostOutcome,
                             events: seq<Event>, request: Option<Payload>)
  {
    var sid := BoundSession(sessions, socketSession, socketId, sessionId);
    var info := SessionOf(sessions, sid);
    var transcript := FinalTranscript(ChunksOf(info), clientTranscript, apiKey, replyFor, transcriberFails);
    && |events| >= 2 && events[0] == StatusChange("PROCESSING")
    && events[|events| - 1] == StatusChange("COMPLETED")
    && (StopsEarly(info, clientTranscript) <==> request.None?)
    && (StopsEarly(info, clientTranscript) ==> events == [StatusChange("PROCESSING"), StatusChange("COMPLETED")])
    && (request.Some? ==>
          && request.value.transcript == transcript
          && request.value.summary == summarize(transcript).text
          && request.value.title == SavedTitle(summarize(transcript).title, sid)
          && request.value.clientSessionId == sid
          && request.value.ownerEmail == (if Trim(ownerEmail) != "" then Some(Trim(ownerEmail)) else None))
    && (!IsBlank(clientTranscript) ==> NoPartials(events))
    && (request.Some? ==> (post.Responded? <==> !NoneSaved(events)))
  }

  /** `stopSession` on the registry's two maps. */
  method Stop(sessions: map<string, SessionInfo>, socketSession: map<string, string>,
              socketId: string, sessionId: string, clientTranscript: string, ownerEmail: string,
              apiKey: string, replyFor: string -> ChunkTranscription.ChunkReply,
              transcriberFails: bool, summarize: string -> Summarizer.Summary,
              env: PublicEnv, dirOk: bool, post: PostOutcome)
    returns (events: seq<Event>, request: Option<Payload>)
    ensures StopReport(sessions, socketSession, socketId, sessionId, clientTranscript, ownerEmail, apiKey,
                       replyFor, transcriberFails, summarize, post, events, request)
  {
    events := [StatusChange("PROCESSING")];
    var sid := BoundSession(sessions, socketSession, socketId, sessionId);
    var info := SessionOf(sessions, sid);
    if StopsEarly(info, clientTranscript) {
      return events + [StatusChange("COMPLETED")], None;
    }
    var payload;
    events, payload := FinishStop(sid, ChunksOf(info), clientTranscript, ownerEmail,
                                  apiKey, replyFor, transcriberFails, summarize, env, dirOk, post);
    request := Some(payload);
  }

  /** The rest of `stopSession` once it goes on: settle the transcript, persist it, and
      report every step between "PROCESSING" and "COMPLETED". */
  method FinishStop(sid: Option<string>, chunks: seq<string>, clientTranscript: string, ownerEmail: string,
                    apiKey: string, replyFor: string -> ChunkTranscription.ChunkReply,
                    transcriberFails: bool, summarize: string -> Summarizer.Summary,
                    env: PublicEnv, dirOk: bool, post: PostOutcome)
    returns (events: seq<Event>, payload: Payload)
    ensures var transcript := FinalTranscript(chunks, clientTranscript, apiKey, replyFor, transcriberFails);
      && |events| >= 2 && events[0] == StatusChange("PROCESSING")
      && events[|events| - 1] == StatusChange("COMPLETED")
      && payload.transcript == transcript
      && payload.summary == summarize(transcript).text
      && payload.title == SavedTitle(summarize(transcript).title, sid)
      && payload.clientSessionId == sid
      && payload.ownerEmail == (if Trim(ownerEmail) != "" then Some(Trim(ownerEmail)) else None)
      && (!IsBlank(clientTranscript) ==> NoPartials(events))
      && (post.Responded? <==> !NoneSaved(events))
  {
    var fullTranscript, transcribed := SettleTranscript(chunks, clientTranscript, apiKey, replyFor, transcriberFails);
    var saved;
    payload, saved := Persist(sid, fullTranscript, ownerEmail, summarize, env, dirOk, post);
    events := [StatusChange("PROCESSING")] + transcribed + saved + [StatusChange("COMPLETED")];
    StopEvents(transcribed, saved, !IsBlank(clientTranscript), post.Responded?);
  }

  /** The transcript step of `stopSession`: the client's transcript, or the server
      transcription of the chunks in sequence order with its partial updates. */
  method SettleTranscript(chunks: seq<string>, clientTranscript: string, apiKey: string,
                          replyFor: string -> ChunkTranscription.ChunkReply, transcriberFails: bool)
    returns (fullTranscript: string, events: seq<Event>)
    ensures fullTranscript == FinalTranscript(chunks, clientTranscript, apiKey, replyFor, transcriberFails)
    ensures NoneSaved(events)
    ensures !IsBlank(clientTranscript) ==> events == [TranscriptUpdate(fullTranscript)]
    ensures !IsBlank(clientTranscript) ==> NoPartials(events)
  {
    var list := SortBy(chunks, SequenceOf);
    fullTranscript := "";
    events := [];
    if !IsBlank(clientTranscript) {
      fullTranscript := Trim(clientTranscript);
      events := [TranscriptUpdate(fullTranscript)];
    } else if |list| > 0 {
      if !transcriberFails {
        var replies := seq(|list|, i requires 0 <= i < |list| => replyFor(list[i]));
        var partial;
        fullTranscript, partial := ChunkTranscription.TranscribeChunks(apiKey, replies);
        events := Partials(partial) + [TranscriptUpdate(fullTranscript)];
      }
    } else {
      assert chunks == [] by {
        assert |multiset(list)| == 0;
        SortFacts(chunks, SequenceOf);
      }
    }
  }

  /** Everything after the transcript: the summary, the POST body and the report of
      the store's answer. */
  method Persist(sid: Option<string>, fullTranscript: string, ownerEmail: string,
                 summarize: string -> Summarizer.Summary, env: PublicEnv, dirOk: bool, post: PostOutcome)
    returns (payload: Payload, events: seq<Event>)
    ensures payload.transcript == fullTranscript && payload.clientSessionId == sid
    ensures payload.summary == summarize(fullTranscript).text
    ensures payload.title == SavedTitle(summarize(fullTranscript).title, sid)
    ensures payload.ownerEmail == if Trim(ownerEmail) != "" then Some(Trim(ownerEmail)) else None
    ensures payload.downloadUrl == if dirOk then Some(DownloadUrl(env, sid)) else None
    ensures NoPartials(events) && (post.PostThrew? ==> events == [])
    ensures post.Responded? ==> |events| == 2 && events[0].SessionSaved?
  {
    var summary := summarize(fullTranscript);
    var downloadUrl := if dirOk then Some(DownloadUrl(env, sid)) else None;
    var title := SavedTitle(summary.title, sid);
    payload := Payload(title, fullTranscript, summary.text, summary.keywords, summary.actionItems,
                       sid, downloadUrl, if Trim(ownerEmail) != "" then Some(Trim(ownerEmail)) else None);
    events := ReportSaved(sid, fullTranscript, summary, title, downloadUrl, post);
  }

  /** The report after the POST: `sessionSaved` and a last `transcriptUpdate` whenever the
      store answered, whatever it answered; nothing when the request threw. */
  method ReportSaved(sid: Option<string>, fullTranscript: string, summary: Summarizer.Summary, title: string,
                     downloadUrl: Option<string>, post: PostOutcome)
    returns (events: seq<Event>)
    ensures post.PostThrew? ==> events == []
    ensures NoPartials(events)
    ensures post.Responded? ==>
              && |events| == 2 && events[0].SessionSaved?
              && events[0].transcript == fullTranscript && events[0].summary == summary.text
              && events[1] == TranscriptUpdate(fullTranscript)
    ensures post.Responded? && post.json.Some? && post.json.value.session.Some? ==>
      events[0].session == FromStore(post.json.value.session.value)
  {
    match post {
      case PostThrew =>
        events := [];
      case Responded(json) =>
        var session := if json.Some? && json.value.session.Some? then FromStore(json.value.session.value)
                       else Local(SidText(sid), title, downloadUrl,
                                  summary.keywords, summary.actionItems);
        events := [SessionSaved(session, fullTranscript, summary.text, downloadUrl, summary.keywords,
                                summary.actionItems), TranscriptUpdate(fullTranscript)];
    }
  }

  /** No `sessionSaved` among the events. */
  predicate NoneSaved(events: seq<Event>) {
    forall k :: 0 <= k < |events| ==> !events[k].SessionSaved? && !events[k].StoredSessionSaved?
  }

  /** No partial transcript among the events. */
  predicate NoPartials(events: seq<Event>) {
    forall k :: 0 <= k < |events| ==> !events[k].PartialTranscript?
  }

  /** The events of a `stopSession` that goes past the early exit: PROCESSING, the
      transcript updates, the report of the store's answer and COMPLETED. */
  lemma StopEvents(transcribed: seq<Event>, saved: seq<Event>, clientText: bool, responded: bool)
    requires NoneSaved(transcribed) && (clientText ==> NoPartials(transcribed))
    requires NoPartials(saved) && (!responded ==> saved == [])
    requires responded ==> |saved| == 2 && saved[0].SessionSaved?
    ensures var events := [StatusChange("PROCESSING")] + transcribed + saved + [StatusChange("COMPLETED")];
      && |events| >= 2 && events[0] == StatusChange("PROCESSING")
      && events[|events| - 1] == StatusChange("COMPLETED")
      && (clientText ==> NoPartials(events))
      && (responded <==> !NoneSaved(events))
  {
    var head := [StatusChange("PROCESSING")] + transcribed;
    ConcatEvents([StatusChange("PROCESSING")], transcribed);
    ConcatEvents(head, saved);
    ConcatEvents(head + saved, [StatusChange("COMPLETED")]);
    if responded {
      assert (head + saved + [StatusChange("COMPLETED")])[|head|] == saved[0];
    }
  }

  lemma ConcatEvents(a: seq<Event>, b: seq<Event>)
    ensures NoneSaved(a + b) == (NoneSaved(a) && NoneSaved(b))
    ensures NoPartials(a + b) == (NoPartials(a) && NoPartials(b))
  {
    forall k | 0 <= k < |a| ensures (a + b)[k] == a[k] {}
    forall k | 0 <= k < |b| ensures (a + b)[|a| + k] == b[k] {}
    forall k | 0 <= k < |a + b|
      ensures (a + b)[k] == if k < |a| then a[k] else b[k - |a|]
    {}
  }
}
