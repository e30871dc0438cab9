/** Server-side transcription of the recorded chunks (`transcribeAudioChunks` and the
    AssemblyAI loop of server/gemini.js).

    Every remote exchange for a chunk (the file read, the upload, the job submission and
    the successive status polls) is an oracle reply. The model keeps what the loop does
    with them: at most sixty polls per chunk, the speaker-labelled text of a completed job,
    the cumulative transcript made of the non-blank trimmed chunk texts, and the progress
    events it emits. */
module ChunkTranscription {
  import opened Strings

  /** A speaker-labelled segment of a completed job. */
  datatype Utterance = Utterance(speaker: string, text: string)

  /** The answer to one status poll. */
  datatype Poll = Queued | Completed(utterances: seq<Utterance>, text: string) | Failed

  /** What happened to one chunk: the read or a request threw, the upload gave no URL, or
      the job was submitted and `polls` are the answers to the successive polls (a poll
      beyond the end of `polls` finds the job still queued). */
  datatype ChunkReply = Threw | NoUploadUrl | Submitted(polls: seq<Poll>)

  const MaxPolls: nat := 60

  // ---------------------------------------------------------------- polling

  /** The first answer that is not "queued", or queued when there is none. */
  function FirstAnswer(answers: seq<Poll>): (r: Poll)
    ensures !r.Queued? ==> r in answers
  {
    if answers == [] then Queued
    else if !answers[0].Queued? then answers[0]
    else FirstAnswer(answers[1..])
  }

  /** The answer the polling loop stops on: the first completed or failed answer among
      the first sixty polls, and queued when all sixty find the job queued. */
  function Settled(polls: seq<Poll>): (r: Poll)
    ensures !r.Queued? ==> exists j :: 0 <= j < |polls| && j < MaxPolls && polls[j] == r
  {
    var window := Take(polls, MaxPolls);
    var r := FirstAnswer(window);
    assert !r.Queued? ==> r in window;
    r
  }

  /** The polling loop: up to sixty polls, leaving early on `completed` or `error`. */
  method PollJob(polls: seq<Poll>) returns (result: Poll)
    ensures result == Settled(polls)
  {
    ghost var window := Take(polls, MaxPolls);
    result := Queued;
    var attempt := 0;
    while attempt < MaxPolls
      invariant attempt <= MaxPolls
      invariant Settled(polls) == FirstAnswer(Drop(window, attempt))
      decreases MaxPolls - attempt
    {
      result := if attempt < |polls| then polls[attempt] else Queued;
      if result.Completed? || result.Failed? {
        assert Drop(window, attempt)[0] == result;
        return;
      }
      if attempt < |window| {
        assert Drop(window, attempt)[1..] == Drop(window, attempt + 1);
      }
      attempt := attempt + 1;
    }
    result := Queued;
  }

  /** The job settles on the first answer that is not queued, and only there. */
  lemma {:induction false} FirstAnswerIsFirst(answers: seq<Poll>)
    ensures var r := FirstAnswer(answers);
      r.Queued? <==> forall j :: 0 <= j < |answers| ==> answers[j].Queued?
    ensures var r := FirstAnswer(answers);
      !r.Queued? ==> exists j :: 0 <= j < |answers| && answers[j] == r
                               && forall i :: 0 <= i < j ==> answers[i].Queued?
  {
    if answers != [] && answers[0].Queued? {
      var tail := answers[1..];
      FirstAnswerIsFirst(tail);
      var r := FirstAnswer(answers);
      assert r == FirstAnswer(tail);
      if !r.Queued? {
        var j :| 0 <= j < |tail| && tail[j] == r && forall i :: 0 <= i < j ==> tail[i].Queued?;
        assert answers[j + 1] == r;
        assert forall i :: 0 <= i < j + 1 ==> answers[i].Queued? by {
          forall i | 0 <= i < j + 1 ensures answers[i].Queued? {
            if i > 0 { assert answers[i] == tail[i - 1]; }
          }
        }
      } else {
        forall j | 0 <= j < |answers| ensures answers[j].Queued? {
          if j > 0 { assert answers[j] == tail[j - 1]; }
        }
      }
    }
  }

  /** A job still queued at the sixtieth poll is given up, whatever comes after. */
  lemma GivesUpAfterSixtyPolls(polls: seq<Poll>, later: seq<Poll>)
    requires |polls| == MaxPolls && forall j :: 0 <= j < |polls| ==> polls[j].Queued?
    ensures Settled(polls + later) == Queued
  {
    assert Take(polls + later, MaxPolls) == polls;
    FirstAnswerIsFirst(polls);
  }

  // ---------------------------------------------------------------- the text of a chunk

  /** `Speaker X` for a labelled utterance, `Speaker` otherwise. */
  function SpeakerName(u: Utterance): string
  {
    if u.speaker != "" then "Speaker " + u.speaker else "Speaker"
  }

  /** The speaker lines of the utterances with non-blank text, each ending in "\n". */
  function SpeakerLines(us: seq<Utterance>): (r: string)
    ensures r == [] || r[|r| - 1] == '\n'
    ensures (forall i :: 0 <= i < |us| ==> IsBlank(us[i].text)) ==> r == ""
  {
    if us == [] then ""
    else
      var u := us[|us| - 1];
      SpeakerLines(us[..|us| - 1]) + (if IsBlank(u.text) then "" else SpeakerName(u) + ": " + u.text + "\n")
  }

  /** The loop over the utterances of a completed job. */
  method LabelUtterances(us: seq<Utterance>) returns (chunkText: string)
    ensures chunkText == SpeakerLines(us)
  {
    chunkText := "";
    for i := 0 to |us|
      invariant chunkText == SpeakerLines(us[..i])
    {
      var u := us[i];
      SpeakerLinesSnoc(us, i);
      if !IsBlank(u.text) {
        var line := SpeakerName(u) + ": " + u.text + "\n";
        chunkText := chunkText + line;
      }
    }
    assert us[..|us|] == us;
  }

  lemma SpeakerLinesSnoc(us: seq<Utterance>, i: nat)
    requires i < |us|
    ensures SpeakerLines(us[..i + 1])
         == SpeakerLines(us[..i]) + (if IsBlank(us[i].text) then "" else SpeakerName(us[i]) + ": " + us[i].text + "\n")
  {
    assert us[..i + 1][..i] == us[..i];
    assert us[..i + 1][i] == us[i];
  }

  /** The text of a completed job: the speaker lines when there are utterances, the plain
      text otherwise. */
  function JobText(p: Poll): string
    requires p.Completed?
  {
    if p.utterances != [] then SpeakerLines(p.utterances) else p.text
  }

  /** What a chunk adds to the transcript: the trimmed text of its completed job, when
      that is not blank. */
  function Contribution(reply: ChunkReply): (c: Option<string>)
    ensures c.Some? ==> Tight(c.value)
  {
    match reply
    case Submitted(polls) =>
      var r := Settled(polls);
      if r.Completed? && !IsBlank(JobText(r)) then Some(Trim(JobText(r))) else None
    case _ => None
  }

  /** Not empty, and neither starting nor ending with white space: a trimmed non-blank
      text. */
  predicate Tight(s: string) { s != [] && !IsSpace(s[0]) && !IsSpace(s[|s| - 1]) }

  /** What each chunk adds, chunk by chunk. */
  function Outcomes(replies: seq<ChunkReply>): (outs: seq<Option<string>>)
    ensures |outs| == |replies|
    ensures forall i :: 0 <= i < |replies| ==> outs[i] == Contribution(replies[i])
  {
    seq(|replies|, i requires 0 <= i < |replies| => Contribution(replies[i]))
  }

  /** The chunks that add something, in order, each with its number counted from 1. */
  function Collect(outs: seq<Option<string>>): (cs: seq<(nat, string)>)
    ensures |cs| <= |outs|
  {
    if outs == [] then []
    else
      var rest := Collect(outs[..|outs| - 1]);
      match outs[|outs| - 1]
      case Some(t) => rest + [(|outs|, t)]
      case None => rest
  }

  /** The contributing chunks in order, each with its number counted from 1. */
  function Contributions(replies: seq<ChunkReply>): seq<(nat, string)>
  {
    Collect(Outcomes(replies))
  }

  function Texts(cs: seq<(nat, string)>): (ts: seq<string>)
    ensures |ts| == |cs|
  {
    seq(|cs|, k requires 0 <= k < |cs| => cs[k].1)
  }

  /** The events emitted on the way: after each contributing chunk, the transcript so far
      and the chunk's number. */
  function Emissions(cs: seq<(nat, string)>): (es: seq<(string, nat)>)
    ensures |es| == |cs|
  {
    seq(|cs|, k requires 0 <= k < |cs| => (Join(Texts(cs[..k + 1]), "\n"), cs[k].0))
  }

  /** The texts, each followed by "\n": what `fullTranscript +=` builds. */
  function Terminated(ts: seq<string>): string
  {
    if ts == [] then "" else Terminated(ts[..|ts| - 1]) + ts[|ts| - 1] + "\n"
  }

  // ---------------------------------------------------------------- the loop

  /** `transcribeAudioChunks`: nothing without an API key; otherwise the loop over the
      chunks in order, returning the trimmed accumulated text and the progress events. */
  method TranscribeChunks(apiKey: string, replies: seq<ChunkReply>)
    returns (transcript: string, emitted: seq<(string, nat)>)
    ensures apiKey == "" ==> transcript == "" && emitted == []
    ensures apiKey != "" ==> transcript == Join(Texts(Contributions(replies)), "\n")
    ensures apiKey != "" ==> emitted == Emissions(Contributions(replies))
  {
    if apiKey == "" {
      return "", [];
    }
    ghost var outs := Outcomes(replies);
    assert AllTight(outs);
    var fullTranscript := "";
    emitted := [];
    for i := 0 to |replies|
      invariant fullTranscript == Terminated(Texts(Collect(outs[..i])))
      invariant emitted == Emissions(Collect(outs[..i]))
    {
      var piece := ChunkPiece(replies[i]);
      assert piece == outs[i];
      CollectSnoc(outs, i);
      if piece.Some? {
        AccumulateStep(outs, i, fullTranscript, emitted);
        fullTranscript := fullTranscript + piece.value + "\n";
        emitted := emitted + [(Trim(fullTranscript), i + 1)];
      } else {
        assert Collect(outs[..i + 1]) == Collect(outs[..i]);
      }
    }
    assert outs[..|replies|] == outs;
    CollectTight(outs);
    TrimTerminated(Texts(Collect(outs)));
    transcript := Trim(fullTranscript);
  }

  /** The body of the loop for one chunk, up to the update of the transcript: the polls,
      the text of a completed job and the test that it is not blank. */
  method ChunkPiece(reply: ChunkReply) returns (piece: Option<string>)
    ensures piece == Contribution(reply)
  {
    piece := None;
    match reply
    case Submitted(polls) =>
      var result := PollJob(polls);
      if result.Completed? {
        var chunkText := result.text;
        if result.utterances != [] {
          chunkText := LabelUtterances(result.utterances);
        }
        if !IsBlank(chunkText) {
          piece := Some(Trim(chunkText));
        }
      }
    case _ =>
  }

  // ---------------------------------------------------------------- lemmas

  lemma AddContribution(cs: seq<(nat, string)>, n: nat, t: string)
    ensures Texts(cs + [(n, t)]) == Texts(cs) + [t]
    ensures Terminated(Texts(cs + [(n, t)])) == Terminated(Texts(cs)) + t + "\n"
  {
    assert Texts(cs + [(n, t)]) == Texts(cs) + [t];
    assert (Texts(cs) + [t])[..|cs|] == Texts(cs);
  }

  lemma EmissionsSnoc(cs: seq<(nat, string)>, c: (nat, string))
    ensures Emissions(cs + [c]) == Emissions(cs) + [(Join(Texts(cs + [c]), "\n"), c.0)]
  {
    var cs' := cs + [c];
    forall k | 0 <= k < |cs| ensures Emissions(cs')[k] == Emissions(cs)[k] {
      assert cs'[..k + 1] == cs[..k + 1];
    }
    assert cs'[..|cs| + 1] == cs';
  }

  /** The texts are trimmed and not empty, so trimming the terminated concatenation
      leaves them joined by single line feeds. */
  lemma TrimTerminated(ts: seq<string>)
    requires forall k :: 0 <= k < |ts| ==> Tight(ts[k])
    ensures Trim(Terminated(ts)) == Join(ts, "\n")
  {
    if ts != [] {
      TerminatedJoin(ts);
      var j := Join(ts, "\n");
      JoinEnds(ts);
      TrimNewline(j);
    }
  }

  lemma {:induction false} TerminatedJoin(ts: seq<string>)
    requires ts != []
    ensures Terminated(ts) == Join(ts, "\n") + "\n"
    decreases |ts|
  {
    if |ts| > 1 {
      var init := ts[..|ts| - 1];
      TerminatedJoin(init);
      JoinSnoc(init, ts[|ts| - 1], "\n");
      assert init + [ts[|ts| - 1]] == ts;
    } else {
      assert ts[..0] == [];
    }
  }

  /** A join of trimmed, non-empty texts starts and ends with a non-space character. */
  lemma {:induction false} JoinEnds(ts: seq<string>)
    requires ts != []
    requires forall k :: 0 <= k < |ts| ==> Tight(ts[k])
    ensures Tight(Join(ts, "\n"))
    decreases |ts|
  {
    if |ts| > 1 {
      var r := Join(ts[1..], "\n");
      JoinEnds(ts[1..]);
      var j := Join(ts, "\n");
      assert j == ts[0] + "\n" + r;
      assert j[0] == ts[0][0];
      assert j[|j| - 1] == r[|r| - 1];
    }
  }

  lemma TrimNewline(j: string)
    requires Tight(j)
    ensures Trim(j + "\n") == j
  {
    var s := j + "\n";
    assert TrimStart(s) == s;
    assert s[..|s| - 1] == j;
    assert TrimEnd(s) == TrimEnd(j);
  }

  /** Every piece is a trimmed, non-blank text. */
  predicate AllTight(outs: seq<Option<string>>) {
    forall j :: 0 <= j < |outs| && outs[j].Some? ==> Tight(outs[j].value)
  }

  /** A chunk that adds a piece extends the accumulated text by the piece and a line
      feed, and the events by the trimmed text so far. */
  lemma AccumulateStep(outs: seq<Option<string>>, i: nat, full: string, emitted: seq<(string, nat)>)
    requires i < |outs| && outs[i].Some? && AllTight(outs)
    requires full == Terminated(Texts(Collect(outs[..i])))
    requires emitted == Emissions(Collect(outs[..i]))
    ensures var next := full + outs[i].value + "\n";
      && next == Terminated(Texts(Collect(outs[..i + 1])))
      && emitted + [(Trim(next), i + 1)] == Emissions(Collect(outs[..i + 1]))
  {
    var before := Collect(outs[..i]);
    var piece := outs[i].value;
    CollectSnoc(outs, i);
    AddContribution(before, i + 1, piece);
    assert AllTight(outs[..i + 1]) by {
      var prefix := outs[..i + 1];
      forall j | 0 <= j < |prefix| && prefix[j].Some? ensures Tight(prefix[j].value) {
        assert prefix[j] == outs[j];
      }
    }
    CollectTight(outs[..i + 1]);
    TrimTerminated(Texts(before + [(i + 1, piece)]));
    EmissionsSnoc(before, (i + 1, piece));
  }

  /** One more chunk adds its piece, if any, at the end. */
  lemma CollectSnoc(outs: seq<Option<string>>, i: nat)
    requires i < |outs|
    ensures Collect(outs[..i + 1]) ==
      Collect(outs[..i]) + (if outs[i].Some? then [(i + 1, outs[i].value)] else [])
  {
    assert outs[..i + 1][..i] == outs[..i];
  }

  /** The pieces of contributions are trimmed non-blank texts. */
  lemma CollectTight(outs: seq<Option<string>>)
    requires AllTight(outs)
    ensures forall k :: 0 <= k < |Collect(outs)| ==> Tight(Texts(Collect(outs))[k])
  {
    var cs := Collect(outs);
    CollectOrdered(outs);
    forall k | 0 <= k < |cs| ensures Tight(Texts(cs)[k]) {
      assert outs[cs[k].0 - 1] == Some(cs[k].1);
    }
  }

  /** Chunk numbers only grow. */
  predicate Ascending(cs: seq<(nat, string)>) {
    forall a, b :: 0 <= a < b < |cs| ==> cs[a].0 < cs[b].0
  }

  /** Each entry is the piece of the chunk it names. */
  predicate Named(cs: seq<(nat, string)>, outs: seq<Option<string>>) {
    forall k :: 0 <= k < |cs| ==> 1 <= cs[k].0 <= |outs| && outs[cs[k].0 - 1] == Some(cs[k].1)
  }

  /** The pieces the chunks add, in chunk order, without chunk numbers. */
  function Pieces(outs: seq<Option<string>>): seq<string>
  {
    if outs == [] then []
    else
      Pieces(outs[..|outs| - 1]) + (if outs[|outs| - 1].Some? then [outs[|outs| - 1].value] else [])
  }

  /** The transcript is exactly the pieces of the contributing chunks, in chunk order;
      each entry names the chunk it comes from and the numbers only grow; the last event
      carries the whole transcript. */
  lemma TranscriptFacts(replies: seq<ChunkReply>)
    ensures var cs := Contributions(replies);
      && Texts(cs) == Pieces(Outcomes(replies))
      && Ascending(cs)
      && (forall k :: 0 <= k < |cs| ==> 1 <= cs[k].0 <= |replies| && Contribution(replies[cs[k].0 - 1]) == Some(cs[k].1))
      && (cs != [] ==> Emissions(cs)[|cs| - 1].0 == Join(Texts(cs), "\n"))
  {
    var cs := Contributions(replies);
    LastEmission(cs);
    CollectOrdered(Outcomes(replies));
    NamedReplies(replies);
    CollectPieces(Outcomes(replies));
  }

  /** The last event carries the whole transcript. */
  lemma LastEmission(cs: seq<(nat, string)>)
    ensures cs != [] ==> Emissions(cs)[|cs| - 1].0 == Join(Texts(cs), "\n")
  {
    if cs != [] {
      assert cs[..|cs|] == cs;
    }
  }

  /** Each contribution names the reply it comes from. */
  lemma NamedReplies(replies: seq<ChunkReply>)
    requires Named(Contributions(replies), Outcomes(replies))
    ensures var cs := Contributions(replies);
      forall k :: 0 <= k < |cs| ==> 1 <= cs[k].0 <= |replies| && Contribution(replies[cs[k].0 - 1]) == Some(cs[k].1)
  {
    var cs := Contributions(replies);
    forall k | 0 <= k < |cs|
      ensures 1 <= cs[k].0 <= |replies| && Contribution(replies[cs[k].0 - 1]) == Some(cs[k].1)
    {
      NamedReply(replies, Outcomes(replies), cs[k].0, cs[k].1);
    }
  }

  lemma NamedReply(replies: seq<ChunkReply>, outs: seq<Option<string>>, n: nat, text: string)
    requires outs == Outcomes(replies) && 1 <= n <= |outs| && outs[n - 1] == Some(text)
    ensures n <= |replies| && Contribution(replies[n - 1]) == Some(text)
  {
  }

  lemma {:induction false} CollectPieces(outs: seq<Option<string>>)
    ensures Texts(Collect(outs)) == Pieces(outs)
    decreases |outs|
  {
    if outs != [] {
      var m := |outs|;
      CollectPieces(outs[..m - 1]);
      assert outs[..m - 1] == outs[..m - 1 + 1][..m - 1];
      CollectSnoc(outs, m - 1);
      assert outs[..m] == outs;
      if outs[m - 1].Some? {
        AddContribution(Collect(outs[..m - 1]), m, outs[m - 1].value);
      }
    }
  }

  lemma {:induction false} CollectOrdered(outs: seq<Option<string>>)
    ensures Ascending(Collect(outs)) && Named(Collect(outs), outs)
    decreases |outs|
  {
    if outs != [] {
      var m := |outs|;
      var init := outs[..m - 1];
      CollectOrdered(init);
      var rest := Collect(init);
      var cs := Collect(outs);
      assert cs == rest + (if outs[m - 1].Some? then [(m, outs[m - 1].value)] else []);
      forall k | 0 <= k < |cs| ensures 1 <= cs[k].0 <= m && outs[cs[k].0 - 1] == Some(cs[k].1) {
        if k < |rest| {
          assert cs[k] == rest[k];
          assert outs[rest[k].0 - 1] == init[rest[k].0 - 1];
        }
      }
      assert Ascending(cs) by {
        forall a, b | 0 <= a < b < |cs| ensures cs[a].0 < cs[b].0 {
          assert cs[a] == rest[a];
          if b < |rest| {
            assert cs[b] == rest[b];
          }
        }
      }
    }
  }

  /** A chunk that threw, got no upload URL, stayed queued for sixty polls or whose first
      answer within them was a failure adds nothing. (A missing key gives an empty
      transcript whatever the chunks: `TranscribeChunks` states it.) */
  lemma SilentChunks(polls: seq<Poll>)
    ensures Contribution(Threw) == None && Contribution(NoUploadUrl) == None
    ensures (forall j :: 0 <= j < Min(MaxPolls, |polls|) ==> polls[j].Queued?)
              ==> Contribution(Submitted(polls)) == None
    ensures (exists j :: 0 <= j < Min(MaxPolls, |polls|) && polls[j].Failed?
                         && forall i :: 0 <= i < j ==> polls[i].Queued?)
              ==> Contribution(Submitted(polls)) == None
  {
    var window := Take(polls, MaxPolls);
    assert window == polls[..Min(MaxPolls, |polls|)];
    FirstAnswerIsFirst(window);
    var r := FirstAnswer(window);
    if j :| 0 <= j < Min(MaxPolls, |polls|) && polls[j].Failed? && forall i :: 0 <= i < j ==> polls[i].Queued? {
      assert !window[j].Queued?;
      var k :| 0 <= k < |window| && window[k] == r && forall i :: 0 <= i < k ==> window[i].Queued?;
      assert k == j;
      assert Settled(polls) == Failed;
    }
  }
}
