# scribeAI recording pipeline and session listings, modelled in Dafny

scribeAI records meetings in the browser. It streams audio chunks over a socket to a recording server, joins live speech-recognition text into a transcript, and on stop turns the transcript into a summary with keywords and action items. The session is then stored and listed on several pages. This project models that core and proves its properties:

- **Client session** (`transcript_merge.dfy`, `client_session.dfy`, `voice_command.dfy`, `transcript_export.dfy`): the recording panel of `app/components/RecordingPanel.tsx`.
  - the overlap-aware merge of final and interim text (`getCombinedTranscript`, `appendUniqueFinal`);
  - the status reducer;
  - the recorder's chunk counter, reconnect and socket handlers, as a class;
  - the voice-command classifier;
  - the SRT and Markdown exports.
- **Recording server** (`recording_server.dfy`, `recording_server_legacy.dfy`): the `startSession` / `audioChunk` / `stopSession` handlers, as a registry class.
  - `server/sockets/recording.ts` and its older variant `server/sockets/recording.js` are modelled separately, because they finalize differently.
- **Transcription and summaries** (`chunk_transcription.dfy`, `summarizer.dfy`, `keywords.dfy`):
  - the per-chunk transcription loop of `server/gemini.js`;
  - the fallbacks of `generateSummary` and its text renderer;
  - the placeholders of `lib/gemini.ts`;
  - `extractKeywords`.
- **Session store** (`session_store.dfy`): the file-backed POST/GET of `app/api/sessions/route.ts`, and its database update-or-create path as a class over rows.
- **Listings** (`titles.dfy`, `session_history.dfy`, `transcripts_page.dfy`, `summaries_page.dfy`, `minutes.dfy`, `sessions_page.dfy`, `toast.dfy`, `paging.dfy`): titles, excerpts, search, paging, statistics, keyword tallies, the meeting-minutes text, and the toast list.
- `strings.dfy` holds the JavaScript string built-ins these use: `trim`, `split`, `toLowerCase`, `\s`, `includes`, `slice`, decimal formatting.

Conventions of the model:
- Remote services are parameters: AssemblyAI polling, Gemini/OpenAI summaries, the persistence POST and the minutes service.
  - The replies come as oracle values, per chunk or per call.
  - Each model proves what the code does with every possible reply.
- A missing, `null` or `undefined` text field is `""` where the code only tests it for truthiness or falls back with `||`. Three places do otherwise and are modelled as they are:
  - `generateSummary`'s text renderer writes an action item's description into a template string, so a missing one prints `undefined` and a `null` one prints `null` (`Summarizer.Interpolated`).
  - The database path of the store defaults a missing title to "Untitled session" (`SessionStore.BodyTitle`).
  - The sessions page builds a card's audio source and the history item's id from `id` with no test, so a missing id reads `undefined` (`SessionsPage.Render`).
  - The minutes text is the exception that is not modelled; see `Minutes.MinutesText` under "## Left out".
- `extractKeywords` is modelled once, with its limit as a parameter. It is identical in `server/gemini.js` and `lib/gemini.ts` (limit 8), and in the summaries page's `clientExtractKeywords` (limit 6).
  - Its tie order is exact for words that are not names of `Object.prototype`. `Object.keys` lists integer-like keys first, in ascending numeric order, then the others in insertion order, and the sort by count is stable.
  - The tally is a plain object, so the inherited names behave differently in the code. `__proto__` never becomes a key. The count of `constructor`, the only such name a token can be, starts from the inherited function and ends up a string, and the comparator then gives `NaN`. `Keywords.ObjectTally` models this as written; `Keywords.ExtractionExact` proves that without the word `constructor` it agrees with the counting tally the rest of the model uses.
- `sanitizeTitle` has identical copies in `SessionHistory.tsx`, the transcripts, summaries and sessions pages. It is modelled once, as `Titles`.
- `formatMinutesAsText` is defined twice: once in `app/minutes/page.tsx` and once in `MeetingMinutes.tsx`. Both copies are modelled, and both are proved to produce `Minutes.MinutesText`.

Behaviour of the code that the model keeps as written:
- The server has no guard against a repeated stop. `stopSession` never clears the registry, so a second stop finalizes the same chunks again.
- `startSession` overwrites an existing id's chunk list with an empty one.
- The client's reconnect resets the chunk counter to 0 and emits `startSession` again.
- With no recorded chunks, the `.js` handler completes at once even when the client sent a transcript. The `.ts` handler goes on and uses that transcript.
- In the `.js` handler, a chunk whose transcription throws contributes nothing. An empty result contributes `(no transcription)`.
- In the `.ts` handler, `ERROR` is emitted only for an uncaught exception. Every modelled path ends in `COMPLETED`.
- The file store's POST returns an existing record unchanged. The database path updates it instead.

## Model

| member | source | states |
|---|---|---|
| TranscriptMerge.OverlapFrom | app/components/RecordingPanel.tsx:116-120 | the overlap search from a given length down: the result overlaps and no longer length up to the start does |
| TranscriptMerge.Overlap | app/components/RecordingPanel.tsx:116-120 | the overlap chosen is the longest suffix of the base that is also a prefix of the new text, bounded by both lengths |
| TranscriptMerge.Merge | app/components/RecordingPanel.tsx:112-121 | the merged text starts with the base and ends with the new text; an empty side yields the other side |
| TranscriptMerge.FindOverlap | app/components/RecordingPanel.tsx:116-120 | the descending search loop finds exactly the longest overlap |
| TranscriptMerge.OverlapUnique | app/components/RecordingPanel.tsx:116-120 | any overlap with no longer overlap above it is the one the search finds |
| TranscriptMerge.MergePieces | app/components/RecordingPanel.tsx:112-121 | the method's result is the merge of base and new text |
| TranscriptMerge.GetCombinedTranscript | app/components/RecordingPanel.tsx:109-122 | the displayed transcript is the merge of the trimmed final and interim texts |
| TranscriptMerge.Combined | app/components/RecordingPanel.tsx:109-122 | the displayed transcript starts with the trimmed final text and ends with the trimmed interim text |
| TranscriptMerge.AppendUniqueFinal | app/components/RecordingPanel.tsx:125-139 | a blank chunk leaves the final transcript as it is; otherwise the trimmed chunk is merged onto the trimmed transcript |
| TranscriptMerge.AppendUnique | app/components/RecordingPanel.tsx:125-139 | a blank chunk leaves the final transcript unchanged; otherwise the result starts with the trimmed transcript and ends with the trimmed chunk |
| TranscriptMerge.EndsWithMeansFullOverlap | app/components/RecordingPanel.tsx:114 | a base that already ends with the new text overlaps it completely |
| TranscriptMerge.OverlapIsMaximal | app/components/RecordingPanel.tsx:116-121 | every text that starts with the base and ends with the new text is at least as long as base plus new text minus the overlap |
| TranscriptMerge.MergeLength | app/components/RecordingPanel.tsx:121 | the merged length is base plus new text minus the overlap, plus one for the line feed when nothing overlaps |
| TranscriptMerge.NoOverlapJoinsWithNewline | app/components/RecordingPanel.tsx:121 | with no overlap the two texts are joined by one line feed |
| TranscriptMerge.OverlapMergeIsShortest | app/components/RecordingPanel.tsx:116-121 | when the texts overlap, the merge is the shortest text that starts with the base and ends with the new text |
| TranscriptMerge.MergeTrimmed | app/components/RecordingPanel.tsx:110-121 | merging two trimmed texts gives a trimmed text |
| TranscriptMerge.AppendUniqueIdempotent | app/components/RecordingPanel.tsx:125-139 | delivering the same final chunk twice changes nothing the second time |
| TranscriptMerge.MergedIsTrimmed | app/components/RecordingPanel.tsx:126-137 | the result of appending a chunk has no surrounding blanks |
| TranscriptMerge.MergeAbsorbsSuffix | app/components/RecordingPanel.tsx:114 | a chunk the transcript already ends with adds nothing |
| TranscriptMerge.AppendUniqueIsCombined | app/components/RecordingPanel.tsx:109-139 | for a non-blank chunk, appending it gives the same text as displaying it as the interim part |
| TranscriptMerge.ExampleOverlap | app/components/RecordingPanel.tsx:116-121 | "hello wor" then "world" merges to "hello world" |
| TranscriptMerge.ExampleNoOverlap | app/components/RecordingPanel.tsx:121 | "abc" then "xyz" merges to "abc", a line feed, "xyz" |
| ClientSession.Reducer | app/components/RecordingPanel.tsx:21-31 | the status is Recording exactly for START and RESUME, and Idle exactly for an action outside the six known ones |
| ClientSession.UpperOfLower | app/components/RecordingPanel.tsx:221 | upper-casing undoes lower-casing on the upper-case status names |
| ClientSession.StatusNameRoundTrip | app/components/RecordingPanel.tsx:219-228 | a `statusChange` carrying any status name, in upper or lower case, sets exactly that status |
| ClientSession.StatusAfterChange | app/components/RecordingPanel.tsx:219-228 | a `statusChange` makes the panel Recording exactly for "RECORDING" in any case, and Idle exactly for a payload that is none of the five other status names ("IDLE" and unknown names alike) |
| ClientSession.ChunkAppend | app/components/RecordingPanel.tsx:203-208 | a server chunk becomes the transcript when there is none, else is appended after one blank; the result ends with the trimmed chunk |
| ClientSession.OneTo | app/components/RecordingPanel.tsx:632-635 | the chunk numbers sent since a (re)start are 1, 2, ... in order |
| ClientSession.WakeCommands | app/components/RecordingPanel.tsx:683-690 | the commands handed on are at most one per result, and each holds the wake word |
| ClientSession.SpeechKeepsFinal | app/components/RecordingPanel.tsx:677-700 | a recognition event never loses earlier final text; it ends with the trimmed new final text, and leaves the transcript alone exactly when that text is blank |
| ClientSession.InterimOnlyHasNoFinal | app/components/RecordingPanel.tsx:680-693 | an event with only interim results adds no final text and triggers no command |
| ClientSession.QuickSummary | app/components/RecordingPanel.tsx:457-461 | a quick summary is put in front of the previous summary behind a separator, and an empty reply changes nothing |
| ClientSession.Or | app/components/RecordingPanel.tsx:234-235 | the JavaScript `a \|\| b` on strings: the first when it is not empty |
| ClientSession.SavedSummary | app/components/RecordingPanel.tsx:238-241 | the summary after `sessionSaved` is the previous one or one of the two summaries the payload carries |
| ClientSession.SavedItems | app/components/RecordingPanel.tsx:243-247 | the action items after `sessionSaved` are the previous ones or a non-empty list from the payload |
| ClientSession.SavedUrl | app/components/RecordingPanel.tsx:249-251 | the download link is kept or becomes the payload's link, else the session's |
| ClientSession.CommandStatus | app/components/RecordingPanel.tsx:465-482 | pause acts only from Recording, resume only from Paused, stop always gives Processing; no other status change |
| ClientSession.CommandOutcome | app/components/RecordingPanel.tsx:408-491 | a voice command records at most one bookmark or action item, never changes the summary, title or download link, sends at most one event and never retracts one, and requests a summary exactly for "summarize" |
| ClientSession.RecordKeepsStatus | app/components/RecordingPanel.tsx:408-462 | bookmark, action item, summarize and unknown commands leave the status, the events sent and the recogniser as they were |
| ClientSession.SpokenBookmark | app/components/RecordingPanel.tsx:401-416 | saying "scribeai" and a command with a bookmark phrase appends exactly one bookmark of the transcript the closure saw, requests no summary, sends nothing and keeps the status and the recogniser |
| ClientSession.SpokenStop | app/components/RecordingPanel.tsx:401-485 | saying "scribeai" and a command with a stop phrase (and no earlier phrase) sets Processing from any status, sends exactly one stopSession with the transcript and releases the recogniser, recording nothing |
| ClientSession.ClientRecorder.constructor | app/components/RecordingPanel.tsx:34-43 | a new panel is Idle with empty transcripts, no session, sequence 0 and nothing sent |
| ClientSession.ClientRecorder.StartRecording | app/components/RecordingPanel.tsx:499-770 | a denied permission changes nothing; a capture failure sets Error; a start names a new session, resets the sequence, sends startSession and sets Recording |
| ClientSession.ClientRecorder.SendChunk | app/components/RecordingPanel.tsx:631-635 | each chunk sent carries the next sequence number, one more than the last |
| ClientSession.ClientRecorder.Reconnect | app/components/RecordingPanel.tsx:642-661 | a reacquired stream resets the sequence to 0 and sends startSession again; a failure sets Error and sends nothing |
| ClientSession.ClientRecorder.OnTranscriptUpdate | app/components/RecordingPanel.tsx:189-214 | with speech recognition active a full update is ignored; a chunk is appended; otherwise the update replaces the transcript and clears the interim text |
| ClientSession.ClientRecorder.OnStatusChange | app/components/RecordingPanel.tsx:219-228 | the status follows the upper-cased payload through the reducer |
| ClientSession.ClientRecorder.OnSessionSaved | app/components/RecordingPanel.tsx:229-259 | with a session the transcript is the payload's (else the session's), the interim text is cleared and the status is Completed; without one only the summary and action items are cleared |
| ClientSession.ClientRecorder.OnSpeechResult | app/components/RecordingPanel.tsx:677-700 | the transcripts and the wake-word commands are those of the results from `resultIndex` on |
| ClientSession.ClientRecorder.HandleVoiceCommand | app/components/RecordingPanel.tsx:401-497 | for a command already classified by `VoiceCommands.Classify`, the results, status, emitted events and recogniser state afterwards are the ones `CommandOutcome` gives on the transcript the speech closure saw (final plus interim, at the status of the render that started recording) |
| ClientSession.ClientRecorder.ApplyCommand | app/components/RecordingPanel.tsx:408-491 | every command kind has exactly the effect `CommandOutcome` describes |
| ClientSession.ClientRecorder.ApplyRecord | app/components/RecordingPanel.tsx:408-462 | bookmark, action item, summarize and unknown commands change only the results and the summary request |
| ClientSession.ClientRecorder.ApplyControl | app/components/RecordingPanel.tsx:465-485 | pause, resume and stop change only the status, what is sent and the recognizer |
| ClientSession.ClientRecorder.OnQuickSummary | app/components/RecordingPanel.tsx:457-461 | the summary becomes the quick summary placed before the previous one |
| ClientSession.ClientRecorder.Pause | app/components/RecordingPanel.tsx:810-813 | pausing sets Paused |
| ClientSession.ClientRecorder.Resume | app/components/RecordingPanel.tsx:815-818 | resuming sets Recording |
| ClientSession.ClientRecorder.Stop | app/components/RecordingPanel.tsx:820-833 | stopping sets Processing and sends stopSession with the session id and the displayed transcript |
| ClientSession.ClientRecorder.StopWith | app/components/RecordingPanel.tsx:820-833 | stopping with a given transcript sends exactly one stopSession carrying it |
| ClientSession.ClientRecorder.Reset | app/components/RecordingPanel.tsx:1546-1561 | "New recording" from Completed clears transcripts, results and session, resets the sequence and returns to Idle |
| ClientSession.ScanResults | app/components/RecordingPanel.tsx:678-693 | the loop over results collects the final text, the interim text and the wake-word commands of the results from `resultIndex` on |
| ClientSession.ScanStep | app/components/RecordingPanel.tsx:680-693 | one more result adds its text to the final or to the interim part, and a command only when it is final and holds the wake word |
| ClientSession.ScanOne | app/components/RecordingPanel.tsx:681-692 | the loop body adds one result as `ScanStep` says |
| Strings.IndexOf | app/components/RecordingPanel.tsx:406 | `indexOf` is -1 exactly when the word does not occur, and otherwise the first position where it occurs |
| VoiceCommands.CommandStart | app/components/RecordingPanel.tsx:406 | the command starts right after the first "scribeai" (no earlier position starts one); without "scribeai" it starts right after the first "scribe ai"; with neither, the `indexOf` of -1 puts it at 8 |
| VoiceCommands.CommandText | app/components/RecordingPanel.tsx:402-408 | the command words have no white space at either end and no upper-case letter, and are no longer than the spoken text |
| VoiceCommands.KeywordAt | app/components/RecordingPanel.tsx:422 | the keyword alternative matched at a position has one of the three keyword lengths, or none |
| VoiceCommands.SepRun | app/components/RecordingPanel.tsx:422 | the `[:\s]+` run is maximal: all separators, followed by the end or a non-separator |
| VoiceCommands.LineEnd | app/components/RecordingPanel.tsx:422 | `.+` stops at the first line terminator or the end of the text |
| VoiceCommands.GroupFrom | app/components/RecordingPanel.tsx:422 | a capture is non-empty and holds no line terminator |
| VoiceCommands.ActionMatchFrom | app/components/RecordingPanel.tsx:422 | the leftmost match's capture is non-empty and holds no line terminator |
| VoiceCommands.ActionDescription | app/components/RecordingPanel.tsx:422-423 | the description is the trimmed capture, or the fixed default when the pattern does not match |
| VoiceCommands.DigitRun | app/components/RecordingPanel.tsx:440 | `(\d+)` takes the maximal run of digits |
| VoiceCommands.SpaceRun | app/components/RecordingPanel.tsx:440 | `\s*` takes the maximal run of white space |
| VoiceCommands.Classify | app/components/RecordingPanel.tsx:409-491 | an action item carries `ActionDescription` of the command, a summary carries `SummaryMinutes`, an unknown command its own words; a command is unknown exactly when none of the six phrase tests holds |
| VoiceCommands.ClassifyOrder | app/components/RecordingPanel.tsx:409-491 | each kind is chosen exactly when its own phrase test holds and every earlier test fails, in the source's order: bookmark, action item, summarize, pause, resume, stop, then unknown; action items and summaries carry their captured description and minutes |
| VoiceCommands.BookmarkText | app/components/RecordingPanel.tsx:414 | a bookmark's text is at most 100 characters |
| VoiceCommands.BookmarkOfSingleLine | app/components/RecordingPanel.tsx:414 | for a one-line transcript the bookmark text is its first 100 characters |
| VoiceCommands.SummaryExcerpt | app/components/RecordingPanel.tsx:447 | the text sent for a quick summary is the whole transcript up to 20 lines, else its last 20 lines joined by line feeds |
| VoiceCommands.IndexOfAfterPrefix | app/components/RecordingPanel.tsx:406 | a prefix that cannot start a match only shifts `indexOf` by its length |
| VoiceCommands.CommandAfterWakeWord | app/components/RecordingPanel.tsx:402-407 | the command is the lowered, trimmed text after the wake word |
| VoiceCommands.SpokenCommand | app/components/RecordingPanel.tsx:402-408 | the wake word, one blank and a trimmed lower-case command, after anything without an "s", give exactly that command |
| VoiceCommands.SpokenClassified | app/components/RecordingPanel.tsx:402-485 | such a spoken command is a bookmark when it holds a bookmark phrase, and a stop when it holds a stop phrase and none of the phrases tried before stop |
| VoiceCommands.ActionOfKeywordAndText | app/components/RecordingPanel.tsx:421-423 | "add task" (or either other keyword) followed by a blank and a one-line description yields that description, trimmed |
| VoiceCommands.CaptureAfterKeyword | app/components/RecordingPanel.tsx:422 | the pattern captures the text after keyword and blank |
| VoiceCommands.SummaryMinutes | app/components/RecordingPanel.tsx:441-442 | a command without any digit asks for the default 5 minutes |
| VoiceCommands.NoDigitsDefaultMinutes | app/components/RecordingPanel.tsx:440-441 | without digits the minutes pattern does not match, so the default of 5 is used |
| VoiceCommands.MinutesAtFront | app/components/RecordingPanel.tsx:440-441 | digits followed by " min" give their decimal value |
| VoiceCommands.DigitRunOfPrefix | app/components/RecordingPanel.tsx:440 | the digit run inside a leading digit string ends where the digits end |
| TranscriptExport.PadValue | app/components/RecordingPanel.tsx:147 | `padStart` with zeros keeps the decimal value, has the wider of the two lengths, and gives two digits below 100 |
| TranscriptExport.SecondsToSrt | app/components/RecordingPanel.tsx:142-149 | an SRT time stamp is at least 12 characters long and ends in ",000" |
| TranscriptExport.StampRoundTrip | app/components/RecordingPanel.tsx:142-149 | reading an SRT time stamp back gives the whole seconds it was made from; below 100 hours it is 12 characters long |
| TranscriptExport.ClockDigits | app/components/RecordingPanel.tsx:143-145 | hours, minutes and seconds put back together give the seconds |
| TranscriptExport.ReadStamp | app/components/RecordingPanel.tsx:148 | a stamp of the form hh:mm:ss,000 reads back as its clock value |
| TranscriptExport.Group | app/components/RecordingPanel.tsx:157-158 | a cue holds between 1 and 12 words |
| TranscriptExport.Cues | app/components/RecordingPanel.tsx:157-164 | there is one cue per started group of 12 words |
| TranscriptExport.ToSrt | app/components/RecordingPanel.tsx:151-166 | the loop builds exactly the cues of the words, numbered from 1, each 4 seconds long, joined by blank lines |
| TranscriptExport.Srt | app/components/RecordingPanel.tsx:151-166 | a text without words gives an empty subtitle file |
| TranscriptExport.NextCue | app/components/RecordingPanel.tsx:157-163 | the loop's word offset i gives cue number i / 12 + 1 covering words i to i + 12 |
| TranscriptExport.AllCues | app/components/RecordingPanel.tsx:157-165 | when the loop stops, the cues built are all the cues of the text |
| TranscriptExport.CueCountBounds | app/components/RecordingPanel.tsx:157 | the loop runs while 12 times the cue count is below the number of words |
| TranscriptExport.Groups | app/components/RecordingPanel.tsx:157-158 | the word groups are as many as the cues |
| TranscriptExport.GroupsCoverWords | app/components/RecordingPanel.tsx:153-158 | the cues' word groups put together are the words of the text, in order: nothing lost or repeated |
| TranscriptExport.GroupsCons | app/components/RecordingPanel.tsx:157-158 | the first cue takes the first 12 words and the rest are cut the same way |
| TranscriptExport.CueTextWords | app/components/RecordingPanel.tsx:158 | a cue's text splits back into exactly its words |
| TranscriptExport.CueCounts | app/components/RecordingPanel.tsx:151-166 | a text without words gives an empty file; the cue count is the number of words divided by 12, rounded up; every cue but the last has 12 words |
| TranscriptExport.SkipLineFeeds | app/components/RecordingPanel.tsx:170 | skipping a run of line feeds leaves no line feed in front |
| TranscriptExport.Paragraphs | app/components/RecordingPanel.tsx:170 | `split(/\n{2,}/)` always yields at least one piece |
| TranscriptExport.SingleParagraph | app/components/RecordingPanel.tsx:170 | a text without a blank line is one paragraph |
| TranscriptExport.ParagraphsHaveNoBlankLine | app/components/RecordingPanel.tsx:170 | no paragraph contains two line feeds in a row |
| TranscriptExport.FirstParagraphNoBlankLine | app/components/RecordingPanel.tsx:170 | the step of the split that extends the first paragraph keeps it free of blank lines |
| TranscriptExport.FirstParagraphHead | app/components/RecordingPanel.tsx:170 | a non-empty first paragraph begins with the text's first character, which does not start a blank line |
| TranscriptExport.HardBreaksHead | app/components/RecordingPanel.tsx:171 | a paragraph with hard breaks neither starts with a line feed nor with a hard break |
| TranscriptExport.SoftOfHard | app/components/RecordingPanel.tsx:171 | turning the hard breaks back into line feeds gives the paragraph back |
| TranscriptExport.HardBreaks | app/components/RecordingPanel.tsx:171 | hard breaks never shorten a paragraph, and a paragraph without line feeds is left as it is |
| TranscriptExport.MarkdownParagraphs | app/components/RecordingPanel.tsx:170-171 | blank paragraphs are dropped, so there are never more Markdown paragraphs than pieces |
| TranscriptExport.MarkdownOfOneParagraph | app/components/RecordingPanel.tsx:168-173 | a one-paragraph text becomes the heading "# Transcript" followed by the trimmed text with hard breaks |
| TranscriptExport.Markdown | app/components/RecordingPanel.tsx:168-173 | an empty text exports as empty, any other starts with the heading "# Transcript" and a blank line |
| TranscriptExport.FormatTranscript | app/components/RecordingPanel.tsx:176-181 | an empty text exports as empty; plain export is the text itself; Markdown export starts with the heading |
| RecordingServer.LastIndexAt | server/sockets/recording.ts:164 | the last occurrence of a character is where it occurs with none after it |
| RecordingServer.ChunkPathSequence | server/sockets/recording.ts:163-165 | the number read back from the base name of a chunk path is the sequence it was written with |
| RecordingServer.InsertElements | server/sockets/recording.ts:163-165 | inserting a path into the sorted list keeps every path and adds that one |
| RecordingServer.InsertSorted | server/sockets/recording.ts:163-165 | inserting into a list sorted by sequence keeps it sorted |
| RecordingServer.WithKeyAppend | server/sockets/recording.ts:163-165 | the paths with one sequence number, taken from a concatenation, are those of each part in turn |
| RecordingServer.NoneWithSmaller | server/sockets/recording.ts:163-165 | a sorted list whose first sequence is above n has no path numbered n |
| RecordingServer.InsertStable | server/sockets/recording.ts:163-165 | insertion places a path after the paths with the same sequence number |
| RecordingServer.SortFacts | server/sockets/recording.ts:163-165 | the chunk list is sorted by sequence number and is a permutation of the arrival order; equal numbers keep their arrival order, as JavaScript's stable sort does |
| RecordingServer.ThreeOutOfOrder | server/sockets/recording.ts:163-165 | three paths arriving out of order are put in order of their numbers |
| RecordingServer.SortBy | server/sockets/recording.ts:163-165 | sorting keeps the number of chunk paths (order and permutation are stated by `SortFacts`) |
| RecordingServer.OutOfOrderChunks | server/sockets/recording.ts:163-165 | chunks 2, 0, 1 in arrival order are finalized as 0, 1, 2 |
| RecordingServer.BoundSession | server/sockets/recording.ts:144-147 | `stopSession` uses the explicit id when it is registered, else the id bound to the socket |
| RecordingServer.ChunkSession | server/sockets/recording.ts:40-46 | `audioChunk` resolves to the explicit id when it is registered, else the socket's id, else a fresh non-empty `session-<time>` id |
| RecordingServer.ChunkAfterStart | server/sockets/recording.ts:23-57 | a chunk sent after `startSession` without a registered explicit id lands in the started session, which then holds exactly that chunk |
| RecordingServer.WithChunk | server/sockets/recording.ts:47-51 | the resolved session keeps its directory and gains exactly one path `<dir>/<sequence>.webm` at the end; an unknown id gets a new directory |
| RecordingServer.SavedTitle | server/sockets/recording.ts:243 | the stored title is the trimmed summary title when that is not empty; otherwise exactly "Session " followed by the session id, or "Session undefined" when the id did not resolve |
| RecordingServer.Partials | server/sockets/recording.ts:180-183 | each partial transcript the transcriber reports becomes one chunk update, in order |
| RecordingServer.PublicBase | server/sockets/recording.ts:210 | the link base is `SOCKET_PUBLIC_URL` when set, else `http://localhost:` and `SOCKET_PORT`, else port 4000 |
| RecordingServer.DownloadUrl | server/sockets/recording.ts:210-212 | the link ends in "/transcript.txt" and starts with the base and "/recordings/", one trailing slash of the base dropped |
| RecordingServer.Registry.constructor | server/sockets/recording.ts:12-13 | both maps start empty |
| RecordingServer.Registry.StartSession | server/sockets/recording.ts:23-34 | the id's entry is overwritten with an empty chunk list, the socket is bound to it, and RECORDING is emitted |
| RecordingServer.Registry.AudioChunk | server/sockets/recording.ts:36-57 | exactly one chunk path is appended to the resolved session and the socket is rebound; no other session changes; a failed write changes nothing and emits ERROR |
| RecordingServer.Registry.StopSession | server/sockets/recording.ts:141-300 | PROCESSING comes first and COMPLETED last; the handler stops early exactly when there are no chunks and the client transcript is blank; otherwise the POST carries the final transcript, the summary, the title and the trimmed owner email; `sessionSaved` is emitted exactly when the store answered; the registry is not changed, so a second stop finalizes again |
| RecordingServer.Stop | server/sockets/recording.ts:141-300 | on the registry's maps, the stop reports PROCESSING first and COMPLETED last, stops early exactly when there is nothing to finalize, and otherwise posts the settled transcript, its summary, title, session id and trimmed owner email |
| RecordingServer.FinishStop | server/sockets/recording.ts:167-300 | once past the early exit the events run from PROCESSING to COMPLETED, the payload holds the settled transcript and what is derived from it, no partial update follows a client transcript, and `sessionSaved` is reported exactly when the store answered |
| RecordingServer.SettleTranscript | server/sockets/recording.ts:167-191 | a non-blank client transcript is used trimmed, sent as one full update, and no chunk is transcribed; otherwise the server transcribes the chunks, and a failure leaves "" |
| RecordingServer.Persist | server/sockets/recording.ts:193-254 | the payload holds the transcript, summary text and title, the owner email only when non-blank, and the download link only when the directory could be made |
| RecordingServer.ReportSaved | server/sockets/recording.ts:278-293 | `sessionSaved` is emitted whatever the store's answer, with the stored record or a local one, followed by a full transcript update; nothing is emitted when the POST threw |
| RecordingServer.StopEvents | server/sockets/recording.ts:141-300 | the events of a stop contain a `sessionSaved` exactly when the store answered, and no partial updates when a client transcript was given |
| RecordingServer.ConcatEvents | server/sockets/recording.ts:141-300 | the event properties of a concatenation are those of its parts |
| LegacyRecordingServer.LegacyAudioChunk | server/sockets/recording.js:32-56 | the chunk is stored exactly as in the TypeScript handler, then acknowledged with a placeholder naming its sequence; a failed write changes nothing and emits ERROR |
| LegacyRecordingServer.SafePart | server/sockets/recording.js:89-90 | a chunk contributes its answer when that is not blank, else "(no transcription)"; never an empty string |
| LegacyRecordingServer.Kept | server/sockets/recording.js:85-98 | only chunks whose transcription did not throw contribute, each with a non-empty text |
| LegacyRecordingServer.Outcomes | server/sockets/recording.js:85-89 | the transcriber is asked once per chunk, in sorted order |
| LegacyRecordingServer.TranscribeEach | server/sockets/recording.js:85-98 | the loop's transcript is the contributions joined by line feeds, and it emits exactly one update per chunk, the error marker for a chunk that threw |
| LegacyRecordingServer.KeptCount | server/sockets/recording.js:85-98 | the transcript has one contribution per chunk that did not throw |
| LegacyRecordingServer.NullTranscriber | server/gemini.js:29-31 | with the transcriber that always answers `null`, every chunk reads "(no transcription)" |
| LegacyRecordingServer.LegacyStopSession | server/sockets/recording.js:58-160 | PROCESSING first and COMPLETED last; it completes at once exactly when the session has no chunks, even with a client transcript; otherwise it posts the transcript, the summary object and the title "Session <sid>", and emits `sessionSaved` exactly when the store answered `ok` |
| LegacyRecordingServer.LegacySettle | server/sockets/recording.js:71-99 | the transcript is the trimmed client transcript, else the sorted chunks transcribed one by one; no `sessionSaved` is emitted here |
| LegacyRecordingServer.LegacyTranscript | server/sockets/recording.js:71-99 | a non-blank client transcript wins and is used trimmed: non-empty and without blanks at either end |
| LegacyRecordingServer.LegacyReport | server/sockets/recording.js:138-150 | `sessionSaved` and a full update follow an `ok` answer; any other answer emits nothing |
| LegacyRecordingServer.StoredEvents | server/sockets/recording.js:58-160 | the stop's events hold a `sessionSaved` exactly when the store answered `ok` |
| ChunkTranscription.FirstAnswer | server/gemini.js:97-112 | polling stops on the first completed or failed answer, which is one of the answers received |
| ChunkTranscription.PollJob | server/gemini.js:96-112 | the polling loop ends with the first settled answer among at most 60 polls, else still queued |
| ChunkTranscription.Settled | server/gemini.js:96-112 | a settled answer is one received within the first 60 polls |
| ChunkTranscription.FirstAnswerIsFirst | server/gemini.js:97-112 | the answer kept is queued exactly when every poll was, and otherwise is the earliest answer that is not queued |
| ChunkTranscription.GivesUpAfterSixtyPolls | server/gemini.js:97 | after 60 queued polls, later answers are never looked at |
| ChunkTranscription.LabelUtterances | server/gemini.js:118-127 | each non-blank utterance becomes a line "Speaker X: text", or "Speaker: text" without a label |
| ChunkTranscription.SpeakerLines | server/gemini.js:118-127 | the speaker lines end with a line feed, and are empty when every utterance is blank |
| ChunkTranscription.Contribution | server/gemini.js:114-142 | what a chunk contributes, when anything, is non-empty and has no blank at either end |
| ChunkTranscription.Outcomes | server/gemini.js:53-148 | each chunk's contribution is decided by its own reply alone |
| ChunkTranscription.Collect | server/gemini.js:134-142 | only chunks that contribute are collected |
| ChunkTranscription.Texts | server/gemini.js:135 | one text per collected chunk |
| ChunkTranscription.Emissions | server/gemini.js:139-141 | one emitter call per contributing chunk |
| ChunkTranscription.TranscribeChunks | server/gemini.js:33-158 | without a key the transcript is "" and nothing is emitted; otherwise the transcript is the contributions joined by line feeds, and the emitter receives the growing transcript with chunk number i + 1 |
| ChunkTranscription.ChunkPiece | server/gemini.js:57-147 | the loop body computes one chunk's contribution |
| ChunkTranscription.AddContribution | server/gemini.js:135 | a contribution adds its text and one line feed to the accumulator |
| ChunkTranscription.EmissionsSnoc | server/gemini.js:139-141 | a new contribution adds one emitter call carrying the whole transcript so far |
| ChunkTranscription.TrimTerminated | server/gemini.js:135-150 | trimming the accumulator gives the contributions joined by line feeds |
| ChunkTranscription.TerminatedJoin | server/gemini.js:135 | the accumulator is the join plus a final line feed |
| ChunkTranscription.JoinEnds | server/gemini.js:135-150 | joining tight pieces gives a tight text |
| ChunkTranscription.TrimNewline | server/gemini.js:140 | trimming a tight text plus a line feed gives the text |
| ChunkTranscription.AccumulateStep | server/gemini.js:134-142 | one contributing chunk moves the accumulator and the emissions on by exactly its piece |
| ChunkTranscription.CollectSnoc | server/gemini.js:53-148 | one more chunk adds its numbered contribution, or nothing |
| ChunkTranscription.CollectTight | server/gemini.js:134 | every collected text is tight |
| ChunkTranscription.TranscriptFacts | server/gemini.js:53-152 | the transcript's pieces are the chunks' contributions in chunk order; each emitter number names the chunk that produced it; the last emission is the whole transcript |
| ChunkTranscription.LastEmission | server/gemini.js:140-150 | the last emission is the final transcript |
| ChunkTranscription.NamedReplies | server/gemini.js:140 | each emission number names the chunk whose reply gave that piece |
| ChunkTranscription.CollectPieces | server/gemini.js:134-135 | the collected texts are the contributions, in order |
| ChunkTranscription.CollectOrdered | server/gemini.js:140 | emission numbers are strictly increasing and each names its chunk |
| ChunkTranscription.SilentChunks | server/gemini.js:72-147 | a chunk whose upload or request threw, that got no upload URL, that stayed queued for all 60 polls, or whose first answer within them is a failure, whatever the later answers, contributes nothing |
| Summarizer.Candidate | server/gemini.js:407-409 | the text parsed is never longer than the reply, and when it is not the whole reply it is empty or runs from a `{` to a `}` |
| Summarizer.CandidateWithoutBraces | server/gemini.js:407-409 | without both braces the whole reply is parsed |
| Summarizer.CandidateStretch | server/gemini.js:407-409 | the text parsed runs from the first `{` to the last `}`, and is empty when the last `}` comes before the first `{` |
| Summarizer.FirstIndex | server/gemini.js:407 | `indexOf` finds the first occurrence |
| Summarizer.LastIndex | server/gemini.js:408 | `lastIndexOf` finds the last occurrence |
| Summarizer.BulletLines | server/gemini.js:418 | one line per bullet |
| Summarizer.ItemLines | server/gemini.js:422-427 | one line per action item |
| Summarizer.Interpolated | server/gemini.js:426 | a field written into a template string prints its text, "undefined" when missing and "null" when null |
| Summarizer.ItemLine | server/gemini.js:423-426 | an item line starts with its type, "TASK" by default, and a colon, and is one line when its fields are |
| Summarizer.SummaryLines | server/gemini.js:411-428 | there are no lines exactly when the reply has no title, no bullets and no items |
| Summarizer.RenderSummary | server/gemini.js:414-429 | the pushes into `sb`, joined by line feeds, give the summary lines |
| Summarizer.Regroup | server/gemini.js:414-428 | appending three groups of lines in turn is the same as appending them at once |
| Summarizer.PushBullets | server/gemini.js:418 | the bullet loop appends exactly the bullet lines |
| Summarizer.PushItems | server/gemini.js:422-427 | the item loop appends exactly the item lines |
| Summarizer.SummaryLinesLayout | server/gemini.js:411-428 | the lines are "Title: t" when there is a title, then "Bullets:" and "- b" per bullet when there are bullets, then "\nAction Items:" and one line per item when there are items, and nothing else |
| Summarizer.ItemLineShape | server/gemini.js:423-426 | an item line is "TYPE: description", TYPE defaulting to TASK and a missing description printed as "undefined", followed by " (@assignee)" and " [Due: deadline]" only when those are set |
| Summarizer.MissingDescription | server/gemini.js:426 | an item without a description is rendered "TASK: undefined" |
| Summarizer.SummaryKeywordsBound | server/gemini.js:429-438 | the summary's keywords number at most six |
| Summarizer.GenerateSummary | server/gemini.js:260-440 | whatever the key, the reply and the parse, the summary carries the six keywords of the transcript |
| Summarizer.SummaryAlwaysHasKeywords | server/gemini.js:260-440 | every path returns the keywords of the transcript; a title, bullets or items come only from a parsed reply; an unparseable reply is returned as text |
| Summarizer.NoKeyFallback | server/gemini.js:262-265 | without a key: empty title, bullets and items, and "(placeholder) summary: " followed by the first 160 characters |
| Summarizer.NoKeySummary | server/gemini.js:262-265 | the placeholder has no title, bullets or items, and its text is "(placeholder) summary: " and the first 160 characters |
| Summarizer.ErrorSummary | server/gemini.js:436-439 | the error summary has no title, bullets or items, and its text is "(error generating summary: ", the message and one more character |
| Summarizer.ErrorFallback | server/gemini.js:436-439 | an exception yields empty title, bullets and items and the text "(error generating summary: message)" |
| Summarizer.NoChoicesFallback | server/gemini.js:435 | a reply without a usable choice yields the first 400 characters of the transcript, with "..." when cut |
| Summarizer.PlaceholderSummary | lib/gemini.ts:22-30 | the title is the first line of the transcript cut to 80 (the 400-character preview does not change it), or "Untitled session summary" for an empty transcript; the text is the fixed lead and the preview; the keywords are the six keywords of the transcript |
| Summarizer.FirstLineOfPreview | lib/gemini.ts:26-27 | cutting the text to a preview before taking the first line's first `m` characters changes nothing when the preview is at least `m` long |
| Summarizer.TranscribeAudioChunk | lib/gemini.ts:3-7 | the transcription is the fixed placeholder naming the session, whatever the audio |
| Keywords.NormalizeChar | server/gemini.js:11 | each character becomes a lower-case letter, a digit or white space |
| Keywords.Normalize | server/gemini.js:11 | the cleaned text has the same length, character for character |
| Keywords.KeepCandidates | server/gemini.js:12 | exactly the words longer than two characters that are not stop words are kept |
| Keywords.Tokens | server/gemini.js:10-12 | every candidate is longer than two characters and not a stop word |
| Keywords.TokenOrSpaceSuffix | server/gemini.js:11-12 | every suffix of the cleaned text is still made of token characters and white space |
| Keywords.TokenWord | server/gemini.js:12 | a blank-free prefix of the cleaned text is made of token characters |
| Keywords.ConsTokenWords | server/gemini.js:12 | adding a word of token characters keeps the word list so |
| Keywords.WordsOfTokenText | server/gemini.js:12 | splitting the cleaned text on white space gives words of letters and digits only |
| Keywords.TokensAreKeywords | server/gemini.js:10-12 | every candidate is a lower-case word of letters and digits, longer than two and not a stop word |
| Keywords.DistinctFacts | server/gemini.js:14 | the keys of the frequency object are the candidates, each once |
| Keywords.TallyFacts | server/gemini.js:14 | the frequency object maps exactly the candidates to their number of occurrences |
| Keywords.Tally | server/gemini.js:13-14 | the frequency object is empty exactly when there are no candidates |
| Keywords.PlusOne | server/gemini.js:14 | `+ 1` adds one to a number and leaves a concatenated string a string |
| Keywords.ObjectTally | server/gemini.js:13-14 | the plain object as written: "__proto__" never becomes a key, and only candidates are keys |
| Keywords.ObjectTallyAgrees | server/gemini.js:13-14 | with no name of `Object.prototype` among the candidates, the plain object has the keys and the counts of the counting tally |
| Keywords.InheritedNotCounted | server/gemini.js:14 | any other inherited name among the candidates ends up with a string, not a count |
| Keywords.OnlyConstructorIsToken | server/gemini.js:11-14 | "constructor" is the only inherited name made of lower-case letters and digits, so the only one a candidate can be |
| Keywords.ExtractionExact | server/gemini.js:8-17 | for a text without the word "constructor" the source's plain object and the model's tally agree key for key and count for count |
| Keywords.ConstructorNotCounted | server/gemini.js:13-15 | for the candidates "budget constructor constructor" the object holds a string for "constructor" where the intended count is 2 |
| Keywords.IndexKeys | server/gemini.js:15 | the keys that JavaScript enumerates first are the array-index keys |
| Keywords.KeysPartition | server/gemini.js:15 | index keys and other keys together are all the keys |
| Keywords.InsertByValue | server/gemini.js:15 | inserting an index key keeps every key |
| Keywords.InsertByValueAscending | server/gemini.js:15 | index keys stay in ascending numeric order |
| Keywords.SortByValue | server/gemini.js:15 | index keys are enumerated in ascending numeric order, all of them |
| Keywords.ObjectKeys | server/gemini.js:15 | `Object.keys` yields every key once: index keys first, ascending, then the rest in insertion order |
| Keywords.InsertByCount | server/gemini.js:15 | inserting by count keeps every key |
| Keywords.InsertByCountSorted | server/gemini.js:15 | the keys stay in non-increasing count order |
| Keywords.SortByCount | server/gemini.js:15 | the keys sorted by count are a permutation in non-increasing count order |
| Keywords.InsertByCountLast | server/gemini.js:15 | a key counted no more than all before it goes last: the sort is stable |
| Keywords.SortByCountStable | server/gemini.js:15 | a list already in count order is left as it is |
| Keywords.Ranked | server/gemini.js:15 | the ranking is a permutation of the distinct candidates in non-increasing count order |
| Keywords.TopCounted | server/gemini.js:15-16 | the top keys are at most `limit` long and a prefix of the ranking |
| Keywords.Keywords | server/gemini.js:8-17 | empty text gives no keywords, and never more than `limit` |
| Keywords.ExtractKeywords | server/gemini.js:8-17 | the loop computes the keywords of the text: the same copy is lib/gemini.ts:9-20 with limit 8 and the summaries page's `clientExtractKeywords` with limit 6 |
| Keywords.CountAndRank | server/gemini.js:13-16 | counting in a loop and ranking gives the top `limit` keys by count |
| Keywords.KeywordLists | app/tools/transcripts/page.tsx:210-213 | the tally reads one keyword list per session, each the session's stored list, a missing one as empty (the same code is at app/tools/summaries/page.tsx:181-184) |
| Keywords.TallyLists | app/tools/transcripts/page.tsx:209-216 | the keyword tally of the transcripts and summaries pages gives the twelve most used keywords, in count order |
| Keywords.CountOne | app/tools/transcripts/page.tsx:213 | counting one more keyword updates the counts and the key order as one more word of the input |
| Keywords.NoDupsCount | server/gemini.js:14-15 | a list without duplicates is one where each word occurs at most once |
| Keywords.RankedFacts | server/gemini.js:14-15 | the ranking holds each candidate once, in non-increasing frequency |
| Keywords.TopCountedFacts | server/gemini.js:13-16 | at most `limit` distinct candidates in non-increasing frequency; a candidate left out is no more frequent than any kept, and then the list is full |
| Keywords.PrefixOfRanking | server/gemini.js:15-16 | a prefix of a duplicate-free ranking in count order, cut at `limit`, keeps those properties, and what it leaves out is counted no more than anything kept |
| Keywords.KeywordsFacts | server/gemini.js:8-17 | empty text gives no keywords; otherwise at most `limit` distinct keywords, all tokens of the cleaned text, in non-increasing frequency, and none left out that is more frequent than one kept |
| Keywords.ExampleIntegerKeysFirst | server/gemini.js:15 | with equal counts "42" and "2024" come first, in numeric order, then "meeting" and "budget" in first-occurrence order |
| Keywords.ExampleDistinct | server/gemini.js:14 | four different words are four keys |
| Keywords.ExampleObjectKeys | server/gemini.js:15 | `Object.keys` puts "42" and "2024" before "meeting" and "budget" |
| Keywords.ExamplePartition | server/gemini.js:15 | "2024" and "42" are index keys, the words are not |
| Keywords.ExampleSortByValue | server/gemini.js:15 | "42" precedes "2024" |
| Keywords.KeysCons | server/gemini.js:15 | the partition of keys goes word by word |
| Keywords.ExampleIndexKeys | server/gemini.js:15 | "42" and "2024" are array indexes with those values; "meeting" and "budget" are not |
| Keywords.ExampleTally | server/gemini.js:15 | the example keys are in count order |
| SessionStore.FirstWithClient | app/api/sessions/route.ts:150-152 | finds the first stored session with the posted `clientSessionId`, and none when the id is empty or no session carries it |
| SessionStore.NewRecord | app/api/sessions/route.ts:158-159 | a new record keeps the whole body; without an `id` in the body its id is `s_` followed by the timestamp |
| SessionStore.FileStore.constructor | app/api/sessions/route.ts:148 | the file store starts empty |
| SessionStore.FileStore.Post | app/api/sessions/route.ts:7-24 | a `clientSessionId` in the list as read answers 200 with that record and stores nothing; otherwise the answer is 201 with the new record, and the file becomes the list as read plus that record when the write succeeds (an unreadable file reads as empty), and stays as it was when the write fails |
| SessionStore.FailedFileAccess | app/api/sessions/route.ts:7-24 | a failed write answers as usual but keeps the file; an unreadable file is replaced by the new record alone; with both working the file is the deduplicating append |
| SessionStore.FinalSaveKeepsPreliminary | app/api/sessions/route.ts:149-155 | once a record with a `clientSessionId` is stored, a later POST with that id, whatever its other fields, leaves the store as it was |
| SessionStore.PostAppendsAtMostOne | app/api/sessions/route.ts:147-162 | a POST keeps the stored sessions as a prefix and adds at most one, and adds one exactly when the `clientSessionId` is not yet stored |
| SessionStore.NoClientIdAppends | app/api/sessions/route.ts:150-151 | without a `clientSessionId` every POST appends a new record |
| SessionStore.RepeatedPostIsDeduplicated | app/api/sessions/route.ts:149-155 | posting the same body with a `clientSessionId` twice stores it once |
| SessionStore.NewIsFound | app/api/sessions/route.ts:152 | once appended, a session is found by its `clientSessionId` |
| SessionStore.ClampPage | app/api/sessions/route.ts:173 | the page is at least 1, 1 when absent, and not a number when the parameter is not numeric |
| SessionStore.ClampPageSize | app/api/sessions/route.ts:174 | the page size lies between 1 and 100, is 10 when absent, and an in-range value is kept |
| SessionStore.Reverse | app/api/sessions/route.ts:223 | the reversed list holds the same sessions in the opposite order |
| SessionStore.GetPage | app/api/sessions/route.ts:222-227 | the total is the number of stored sessions and the page holds at most a page size of them; a non-numeric parameter gives an empty page |
| SessionStore.GetPageStart | app/api/sessions/route.ts:225-226 | page `p` of size `n` is the slice from `(p-1)*n` of the newest-first list |
| SessionStore.PageItems | app/api/sessions/route.ts:223-226 | item `i` of a page is the session `start + i` places from the newest; past the end the page is empty and inside it the page is full |
| SessionStore.ListingFetch | app/api/sessions/route.ts:174 | the listings' `page=1&pageSize=1000` fetch is clamped to 100: it returns the newest 100 records, newest first, or all of them when fewer |
| SessionStore.NewestFirst | app/api/sessions/route.ts:223 | the session posted last opens the first page |
| SessionStore.ToDbItem | app/api/sessions/route.ts:72-81 | an item's kind defaults to TASK; an empty assignee or deadline is stored as null |
| SessionStore.ToDbItems | app/api/sessions/route.ts:113-125 | every posted item is converted, in order |
| SessionStore.RowWithClient | app/api/sessions/route.ts:44-47 | finds the database row with the `clientSessionId`, or states that none carries it |
| SessionStore.BodyTitle | app/api/sessions/route.ts:39 | a body without a title gets "Untitled session"; a posted title is kept |
| SessionStore.Updated | app/api/sessions/route.ts:53-87 | an update keeps the row's id and client id, marks it completed, replaces transcript and summary, sets the posted title or "Untitled session" when none is posted, and replaces the items only when some are posted |
| SessionStore.Database.constructor | app/api/sessions/route.ts:44-47 | the database starts with no rows |
| SessionStore.Database.Save | app/api/sessions/route.ts:44-140 | a known `clientSessionId` updates that row in place; otherwise a new completed row is appended; either way the row's title is the posted one or "Untitled session"; a new row's id differs from every earlier row's |
| SessionStore.UpdateKeepsCount | app/api/sessions/route.ts:53-62 | updating a row keeps the number of rows and which client ids are stored |
| SessionStore.NotNone | app/api/sessions/route.ts:44-49 | a row that carries the client id is found |
| SessionHistory.Derived | app/components/SessionHistory.tsx:475-476 | a title derived from a text is its first line cut to 60 characters, on one line, with an ellipsis exactly when the whole text is longer than 60 |
| SessionHistory.GetSessionTitle | app/components/SessionHistory.tsx:473-478 | a non-blank title is shown as is; otherwise the summary's, then the transcript's, derived title; otherwise "Untitled session" |
| SessionHistory.Heading | app/components/SessionHistory.tsx:302 | the card shows the sanitized title when it is not empty, and the session title otherwise |
| SessionHistory.GetExcerpt | app/components/SessionHistory.tsx:493-497 | the excerpt is the summary, else the transcript, cut to 220 characters with an ellipsis, else empty; never longer than 221 |
| SessionHistory.DerivedOfOneLine | app/components/SessionHistory.tsx:475 | for a one-line text the derived title is the text cut to 60 with an ellipsis when longer |
| SessionHistory.EllipsisAfterWholeLine | app/components/SessionHistory.tsx:475 | a short first line of a long text is shown whole and still gets an ellipsis |
| SessionHistory.EmptyTitle | app/components/SessionHistory.tsx:473-478 | the session title is empty only for a blank title and a short text that starts with a line feed |
| SessionHistory.BulletTitleShownRaw | app/components/SessionHistory.tsx:302 | a title made of a bullet only sanitizes to nothing, so the raw title "-" is shown |
| SessionHistory.Shift | app/components/SessionHistory.tsx:97 | the total moves by the delta when it is known and stays unknown otherwise |
| SessionHistory.OnSessionSaved | app/components/SessionHistory.tsx:84-98 | a saved session already listed leaves the list alone; a new one is prepended and the list cut to the page size; the known total grows by one either way |
| SessionHistory.SavedKeepsIdsDistinct | app/components/SessionHistory.tsx:88-92 | the list keeps its session ids distinct across `sessionSaved` events |
| SessionHistory.SavedTwice | app/components/SessionHistory.tsx:84-98 | a session saved twice is listed once, but the total counts it twice |
| SessionHistory.OnDeleted | app/components/SessionHistory.tsx:58-75 | a failed delete changes nothing; a successful one removes that id, keeps every other session and lowers the known total by one |
| SessionHistory.Without | app/components/SessionHistory.tsx:65 | the updater keeps exactly the sessions with another id |
| SessionHistory.DeleteUnlisted | app/components/SessionHistory.tsx:64-66 | deleting a session that is not on the page keeps the page and still lowers the total |
| SessionHistory.SaveThenDelete | app/components/SessionHistory.tsx:58-98 | saving a new session and deleting it restores the total but loses the session cut off by the page size |
| SessionHistory.WithoutNewcomer | app/components/SessionHistory.tsx:65 | removing a prepended session leaves the list it was prepended to |
| SessionHistory.Search | app/components/SessionHistory.tsx:134-170 | a blank query shows the current page; otherwise exactly the sessions of the list searched (the newest 100 the store returned at the first search, see `SessionStore.ListingFetch`) whose title, transcript or summary contains the lower-cased query |
| SessionHistory.SearchInOrder | app/components/SessionHistory.tsx:150-170 | for a non-blank query the matches keep the stored order: one more stored session is appended to the result exactly when it matches |
| SessionHistory.ContainsPrefixOf | app/components/SessionHistory.tsx:160-164 | a text that contains a string contains every prefix of it |
| SessionHistory.LowerAppend | app/components/SessionHistory.tsx:158 | lower-casing distributes over concatenation |
| SessionHistory.NarrowingQuery | app/components/SessionHistory.tsx:134-170 | typing more of a query never brings in a session that the shorter query excluded |
| Titles.FirstNonBlank | app/components/SessionHistory.tsx:483-485 | picks the first line that is not blank after trimming, or states that every line is blank |
| Titles.StripBullets | app/components/SessionHistory.tsx:488 | removes a leading run of `-`, `*`, `•` and white space: the result is a suffix that does not start with one |
| Titles.Collapse | app/components/SessionHistory.tsx:490 | every run of white space becomes one space; nothing else changes, so the first character is kept or becomes a space |
| Titles.CollapsedFactor | app/components/SessionHistory.tsx:490 | any slice of collapsed text is still collapsed |
| Titles.TrimKeepsFirst | app/components/SessionHistory.tsx:490 | trimming text that starts with a non-space only cuts its end |
| Titles.SanitizedShape | app/components/SessionHistory.tsx:480-491 | a sanitized title is one line of single spaces, neither starting with a bullet or space nor ending with a space |
| Titles.SanitizeTitle | app/components/SessionHistory.tsx:480-491 | a missing title sanitizes to nothing, and a sanitized title has no white space at either end |
| Titles.CollapsedHasNoLineFeed | app/components/SessionHistory.tsx:490 | collapsed text holds no line feed |
| Titles.TrimIsFactor | app/components/SessionHistory.tsx:490 | a trimmed text is a contiguous slice of the original |
| Titles.CollapseOfCollapsed | app/components/SessionHistory.tsx:490 | collapsing collapsed text changes nothing |
| Titles.SanitizeIdempotent | app/components/SessionHistory.tsx:480-491 | sanitizing a sanitized title gives it back |
| Titles.SanitizeOfSanitized | app/components/SessionHistory.tsx:480-491 | every title of the sanitized shape is left unchanged |
| Titles.SanitizeOneLine | app/components/SessionHistory.tsx:480-491 | a one-line title is trimmed, stripped of bullets, collapsed and trimmed again |
| Titles.BulletLineHidesTheNext | app/components/SessionHistory.tsx:484-488 | "-\nWeekly sync" sanitizes to nothing: only the first non-blank line is looked at, even when it is all bullets |
| Titles.BulletsOnly | app/components/SessionHistory.tsx:488 | a line of bullets only sanitizes to nothing |
| Titles.TrimAllBullets | app/components/SessionHistory.tsx:483 | trimming a line of bullets leaves bullets |
| Titles.StripAllBullets | app/components/SessionHistory.tsx:488-490 | a line of bullets strips, collapses and trims to nothing |
| Titles.NothingLeftOfBullets | app/components/SessionHistory.tsx:488 | stripping a line of bullets leaves nothing |
| Titles.BlankTitle | app/components/SessionHistory.tsx:481-485 | a blank title sanitizes to nothing |
| Titles.LinesOfBlank | app/components/SessionHistory.tsx:483 | every line of a blank text is blank |
| TranscriptsPage.WithTranscripts | app/tools/transcripts/page.tsx:24-25 | exactly the fetched sessions with a non-blank transcript are kept |
| TranscriptsPage.WithTranscriptsInOrder | app/tools/transcripts/page.tsx:24-25 | the kept sessions keep their order: one more fetched session is appended exactly when its transcript is not blank |
| TranscriptsPage.Filtered | app/tools/transcripts/page.tsx:36-40 | a query that is blank after trimming shows every session; otherwise exactly the sessions whose title, transcript or joined keywords contain the lower-cased, trimmed query |
| TranscriptsPage.QueryCaseAndBlanks | app/tools/transcripts/page.tsx:37 | upper-casing the query or padding it with spaces does not change the result |
| TranscriptsPage.LowerUpper | app/tools/transcripts/page.tsx:37 | lower-casing an upper-cased text is lower-casing the text |
| TranscriptsPage.TrimPadded | app/tools/transcripts/page.tsx:37 | trimming ignores one space added at each end |
| TranscriptsPage.TrimEndPadded | app/tools/transcripts/page.tsx:37 | trimming the end after a space was appended gives the trimmed text |
| TranscriptsPage.TrimStartAppend | app/tools/transcripts/page.tsx:37 | trimming the start of a text that is not all spaces leaves what follows it alone |
| TranscriptsPage.OnQuery | app/tools/transcripts/page.tsx:83 | typing a query stores it and goes back to page 1 |
| TranscriptsPage.QueryShowsFirstMatches | app/tools/transcripts/page.tsx:42-43 | after a query the table shows the first ten matching sessions |
| TranscriptsPage.OnDeleted | app/tools/transcripts/page.tsx:160-176 | a failed delete keeps the list; a successful one removes that id and keeps every other session |
| TranscriptsPage.RowTitle | app/tools/transcripts/page.tsx:131 | a row shows the sanitized title, else the first 60 characters of the transcript, else "Untitled" |
| TranscriptsPage.Chips | app/tools/transcripts/page.tsx:136 | a row shows the first five keywords, all of them when there are no more |
| TranscriptsPage.Lengths | app/tools/transcripts/page.tsx:46 | the statistics use the positive transcript lengths |
| TranscriptsPage.MaxOf | app/tools/transcripts/page.tsx:48 | the longest is one of the lengths and no length exceeds it |
| TranscriptsPage.MinOf | app/tools/transcripts/page.tsx:49 | the shortest is one of the lengths and no length is below it |
| TranscriptsPage.RoundedMean | app/tools/transcripts/page.tsx:47 | the average is the mean rounded half up, as `Math.round` does for positive values |
| TranscriptsPage.GetStats | app/tools/transcripts/page.tsx:45-51 | with no transcripts every statistic is 0 |
| TranscriptsPage.SumBounds | app/tools/transcripts/page.tsx:47 | the sum of lengths between two bounds lies between the count times each bound |
| TranscriptsPage.RoundedMeanBetween | app/tools/transcripts/page.tsx:47 | the rounded mean of values between two bounds stays between them |
| TranscriptsPage.StatsBounds | app/tools/transcripts/page.tsx:45-51 | shortest, average and longest are in that order, and shortest and longest are actual positive lengths |
| SummariesPage.GetTotals | app/tools/summaries/page.tsx:57-63 | the counts of sessions with a summary, with keywords, waiting for a summary and failed are each at most the number of sessions, and summarised plus waiting never exceed it |
| SummariesPage.TotalsSnoc | app/tools/summaries/page.tsx:57-63 | one more session raises each count by one exactly when it has a summary, has keywords, waits for a summary or has failed |
| SummariesPage.TotalsSplit | app/tools/summaries/page.tsx:58-60 | every session either has a summary or has a blank one, and the waiting ones are among the blank ones |
| SummariesPage.PendingAreBlank | app/tools/summaries/page.tsx:60 | a session waiting for a summary has a blank summary |
| SummariesPage.Summaries | app/tools/summaries/page.tsx:65 | the cards are exactly the sessions with a non-blank summary, as many as the total counts |
| SummariesPage.PageCards | app/tools/summaries/page.tsx:66-67 | a page shows at most a page size of cards, each with a summary |
| SummariesPage.EverySummaryListed | app/tools/summaries/page.tsx:65-67 | every summary appears on some page between 1 and the page count |
| SummariesPage.CardHeading | app/tools/summaries/page.tsx:146 | a card is headed by the sanitized title, else by exactly the first 80 characters of the summary's first line (all of it when shorter), on one line |
| SummariesPage.Preview | app/tools/summaries/page.tsx:148 | the preview is the summary, cut to 280 characters with an ellipsis when longer |
| SummariesPage.ShownKeywords | app/tools/summaries/page.tsx:150 | a card shows the stored keywords, and the six keywords extracted from the summary when there are none |
| SummariesPage.FallbackKeywords | app/tools/summaries/page.tsx:150 | fallback keywords are at most six distinct keywords that occur in the summary, and none for an empty summary |
| Minutes.FormatMinutesAsText | app/minutes/page.tsx:137-176 | the page's serialiser builds, step by step, exactly the minutes text: banner, title, date, the three fixed sections, then decisions, numbered action items and next steps when present |
| Minutes.FormatPanelText | app/components/MeetingMinutes.tsx:81-121 | the panel's serialiser produces the same text as the page's |
| Minutes.AppendSections | app/minutes/page.tsx:150-173 | appending key points, decisions, action items and next steps to a text gives those sections after it |
| Minutes.AppendBullets | app/minutes/page.tsx:143 | the loop appends one "  • item" line per item, in order |
| Minutes.AppendActions | app/minutes/page.tsx:162-166 | the loop appends each action item numbered from 1, with its assignee and due date lines only when given |
| Minutes.AddBulletsIs | app/minutes/page.tsx:143 | appending bullets is concatenating the bullet lines to the text |
| Minutes.AddActionIs | app/minutes/page.tsx:163-165 | appending one action item is concatenating its block to the text |
| Minutes.AddActionsExtends | app/minutes/page.tsx:162-166 | appending action items only extends the text |
| Minutes.LineListed | app/minutes/page.tsx:143 | every item has its own bullet line in the list |
| Minutes.ActionListed | app/minutes/page.tsx:162-166 | every action item's numbered block occurs in the text |
| Minutes.TailExtends | app/minutes/page.tsx:154-173 | the optional sections only extend what comes before them |
| Minutes.ListedIn | app/minutes/page.tsx:143 | an item listed in a prefix of the text is listed in the text |
| Minutes.OpensWithPreamble | app/minutes/page.tsx:138-140 | the text opens with the banner, the title and the date |
| Minutes.EveryItemListed | app/minutes/page.tsx:142-152 | every attendee, agenda item and key point appears as a bullet line |
| Minutes.ActionItemListed | app/minutes/page.tsx:160-168 | action item `k` appears numbered `k + 1` with its details |
| Minutes.ActionListedIn | app/minutes/page.tsx:162-166 | an action block inside a prefix of the text is inside the text |
| Minutes.ActionsBeginText | app/minutes/page.tsx:160-161 | with action items, the text up to the decisions is followed by the ACTION ITEMS heading and the numbered items |
| Minutes.NextStepsExtend | app/minutes/page.tsx:170-173 | the next-steps section only appends |
| Minutes.EmptyMinutes | app/minutes/page.tsx:137-176 | empty minutes still print the banner, title, date and the three empty fixed sections, and nothing else |
| Minutes.NextStepsLast | app/minutes/page.tsx:170-173 | the text without next steps is a prefix of the text with them |
| Minutes.WithContent | app/minutes/page.tsx:64-67 | exactly the sessions with a transcript or a summary are listed |
| Minutes.WithContentInOrder | app/minutes/page.tsx:64-67 | the listed sessions keep their order: one more session is appended exactly when it has a transcript or a summary |
| Minutes.Update | app/minutes/page.tsx:80-84 | only the session with the given id is changed, and the list keeps its length |
| Minutes.GenerateMinutesEffect | app/minutes/page.tsx:77-119 | a request is sent exactly when the session has a transcript or summary; afterwards only that session changes, it is no longer generating, and it holds the reply's minutes and is expanded, or keeps its minutes with the error "Failed to generate minutes" |
| Minutes.PanelFileName | app/components/MeetingMinutes.tsx:74 | the download is named `meeting-minutes-<id>.txt`, with "session" standing in for a missing id, as on the page |
| Minutes.MinutesPanel.constructor | app/components/MeetingMinutes.tsx:30-33 | the panel starts closed, idle, without minutes or error |
| Minutes.MinutesPanel.Generate | app/components/MeetingMinutes.tsx:35-64 | without a transcript and summary only the error is set; otherwise the dialog opens, the panel is busy during the request, then holds the reply's minutes or keeps its old ones with the failure message |
| Minutes.MinutesPanel.Close | app/components/MeetingMinutes.tsx:149 | closing the dialog changes nothing else |
| Minutes.MinutesPanel.Download | app/components/MeetingMinutes.tsx:66-79 | with minutes the file holds their text under the panel's file name; without minutes nothing is downloaded |
| SessionsPage.Items | app/sessions/page.tsx:37-47 | the list is the reply's `sessions` array, else the reply itself when it is an array, else its `data`, else its `results`, else empty; no reply gives an empty list |
| SessionsPage.ItemsComeFromReply | app/sessions/page.tsx:40-46 | a non-empty list is always one of the arrays of the reply |
| SessionsPage.CountLabel | app/sessions/page.tsx:62 | while loading the label is "Loading…"; afterwards it starts with the number of recordings in decimal, then a space, and ends with " recording" for one and " recordings" otherwise |
| SessionsPage.CountLabelReadsBack | app/sessions/page.tsx:62 | the leading digits of the label read back as the number of recordings |
| SessionsPage.Heading | app/sessions/page.tsx:87 | a card is headed by the sanitized title, else the raw title, else the id, else the client session id, else "Untitled"; never empty |
| SessionsPage.TitleWins | app/sessions/page.tsx:87 | a card with a title is headed by it, sanitized when that leaves something, and then on one line |
| SessionsPage.Owner | app/sessions/page.tsx:90 | the owner line is the owner e-mail, else the signed-in user's e-mail or name, else "Unknown owner"; never empty |
| SessionsPage.Chips | app/sessions/page.tsx:93-97 | a card shows the first eight keywords, none exactly when it has none |
| SessionsPage.Preview | app/sessions/page.tsx:101-105 | a summary preview is shown exactly when there is a summary: the whole summary up to 220 characters, else its first 220 characters followed by an ellipsis |
| SessionsPage.PreviewMatchesHistory | app/sessions/page.tsx:103 | the preview is the session list's excerpt of the same summary |
| SessionsPage.AudioSource | app/sessions/page.tsx:109-122 | an audio player appears exactly when the card has an id or a client session id, and it always plays `/api/sessions/<id>/audio` |
| SessionsPage.DetailsLink | app/sessions/page.tsx:125 | the details link uses the id, else the client session id |
| SessionsPage.LinkFollowsClientId | app/sessions/page.tsx:109-125 | a card with only a client session id links to its details, but its audio source reads `/api/sessions/undefined/audio` |
| Toast.Emit | app/components/Toast.tsx:7-10 | the event carries the message and the given type, "info" by default |
| Toast.Make | app/components/Toast.tsx:16-20 | an empty message makes no toast; otherwise the toast has the given id and message, and its type, "info" when none is given |
| Toast.OnExpired | app/components/Toast.tsx:23-25 | a fired timer removes exactly the toast with its id |
| Toast.OnExpiredRemovesOne | app/components/Toast.tsx:23-25 | when ids are distinct, a fired timer removes its toast and keeps the others in order |
| Toast.ClassName | app/components/Toast.tsx:35 | a toast's class is exactly "toast " followed by its type, or "toast info" when it has none |
| Toast.NewestFirst | app/components/Toast.tsx:21 | a new toast goes first and the list keeps at most `max` toasts, dropping the oldest |
| Toast.OnEvent | app/components/Toast.tsx:16-21 | an event leaves the list as it was or makes it hold the smaller of `max` and one more toast; a list within `max` stays within it; an event without a message changes nothing |
| Toast.EmptyMessageIgnored | app/components/Toast.tsx:17-19 | an event without a message leaves the list unchanged |
| Toast.EventKeepsInvariant | app/components/Toast.tsx:21 | with fresh ids the list keeps at most `max` toasts and distinct ids |
| Toast.ShowThenExpire | app/components/Toast.tsx:21-25 | showing a toast and letting its timer fire leaves the older toasts that fitted beside it |
| Paging.PageCount | app/tools/transcripts/page.tsx:42 | the page count is at least 1 and is the least number of pages that hold every item |
| Paging.PageItems | app/tools/transcripts/page.tsx:43 | page `p` shows at most a page size of items, item `i` being item `(p-1)*size + i` of the list |
| Paging.ItemPage | app/tools/summaries/page.tsx:66-67 | item `k` is on page `k / size + 1`, which is a page the buttons reach, at position `k % size` |
| Paging.PrevPage | app/tools/transcripts/page.tsx:188 | Prev goes back one page and never below page 1 |
| Paging.NextPage | app/tools/transcripts/page.tsx:190 | Next never goes past the page count and moves one page on from any earlier page |
| Paging.PagesStayInRange | app/tools/transcripts/page.tsx:188-190 | Prev and Next keep the page between 1 and the page count, and Next advances until the last page |
| Paging.NextMeansMore | app/components/SessionHistory.tsx:398-399 | Next is enabled exactly when the next page the store serves holds sessions |
| Paging.PrevStopsAtFirst | app/components/SessionHistory.tsx:384-385 | Prev is disabled exactly on page 1, and otherwise goes back one page |

## Left out
- Keywords.TallyFacts: states the counting the code intends. The code counts in a plain object, so a candidate "constructor" gets a string instead of a count (see "## Findings"); the fact holds of the code for every text without that word (`Keywords.ExtractionExact`).
- Keywords.ExtractKeywords: for a text whose candidates include "constructor", the code's order is whatever the engine's sort makes of `NaN` comparisons; the model ranks that word by its count.
- Keywords.CountAndRank: the same as for `ExtractKeywords`: exact for every list without "constructor".
- Keywords.TallyLists: the pages' tally counts keywords in a plain object too. A keyword "__proto__" is never counted there and "constructor" (or any other inherited name) gets a string; the model counts both. Stored keywords come from `extractKeywords` and so are never "__proto__".
- Keywords.RankedFacts: exact for lists without "constructor", as above.
- Keywords.TopCountedFacts: exact for lists without "constructor", as above.
- Keywords.KeywordsFacts: exact for texts without the word "constructor", as above.
- Minutes.MinutesText: the minutes' title, date, list items and action-item tasks are strings. The code writes them into template strings with no test, so a missing one prints `undefined`, and a missing list makes `forEach` throw; neither case is modelled.
- SessionStore.BodyTitle: a posted `null` title is not modelled. Destructuring defaults apply to a missing field only, so the code would store `null`; the model's posted title is always a string.
- ClientSession.ClientRecorder.HandleVoiceCommand: takes the command already classified rather than its text; the classification is `VoiceCommands.Classify` of `VoiceCommands.CommandText`, stated separately by `VoiceCommands.ClassifyOrder`.

- Browser capture: media streams, `MediaRecorder`, the audio-context fallback, the level meter (floating point) and speech-recognition internals. A recognition event enters the model as its list of results, each a final or interim text.
- The live per-chunk transcription inside the `.ts` `audioChunk` handler (`server/sockets/recording.ts:61-134`). It is a remote call whose only effect is socket events; the registry update it follows is modelled.
- The network itself: AssemblyAI upload and polling, the Deepgram path, Gemini and OpenAI requests, the minutes service. Their replies are oracle parameters. The Google and OpenAI branches of `generateSummary` are one reply oracle, because they share the parsing and rendering that follow.
- Prisma reads on GET, with their metadata augmentation from `recordings/`, and the owner `connectOrCreate`. These are external database calls. The database save is modelled as a list of rows.
- Analytics, authentication, Socket.IO wiring, timers and debounces, `fetch`/`localStorage` plumbing and the other API routes: outside the recording and listing core.
- Interleaving of asynchronous handlers: each handler is modelled as one atomic step.
- `highlightText` and the regex-driven HTML and Markdown rendering in the panels: presentation built from user-supplied regular expressions.
- JavaScript strings are UTF-16 and their case mapping is full Unicode. Here a character is one unit and `toLowerCase`/`toUpperCase` map ASCII letters only.
- Query parameters that are not integers, such as `NaN`, `1.5` or `Infinity`, are collapsed into one "not a number" case. A non-numeric page gives an empty page.
- Dates, `toLocaleString` and `Date.now()`. Timestamps and toast ids are parameters.
- Toast timers: a fired timer is the `OnExpired` update, applied whenever the caller chooses.
- The JavaScript regular-expression engine in general. Each pattern the core uses is written out as a function: the two voice-command patterns, the keyword cleaner, `\s+` splitting and the bullet stripper.

## Findings

| source | as written | input that shows it | evidently intended | confidence | as-written member | corrected member |
|---|---|---|---|---|---|---|
| server/gemini.js:13-15 | the frequency object is a plain `{}`, so for the word "constructor" the first lookup finds the inherited `Object` function; `+ 1` makes a string of it, and the sort comparator then subtracts a string and gives `NaN` | a transcript whose candidates are "budget constructor constructor" | "constructor" counted 2 like any other word and ranked by that count | not executed | Keywords.ConstructorNotCounted | Keywords.TallyFacts |
