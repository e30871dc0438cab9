/** The voice-command classifier of the recording panel (`handleVoiceCommand`): the words
    after the wake word "scribeai" (or "scribe ai") are matched against a fixed list of
    phrases, first match wins, in the order bookmark, action item, summarize, pause,
    resume, stop. The two regular expressions the handler uses are modelled by the
    functions `ActionMatch` and `MinutesMatch`, with the leftmost-match and backtracking
    behaviour of JavaScript regular expressions. */
module VoiceCommands {
  import opened Strings

  datatype VoiceCommand =
    | Bookmark
    | AddActionItem(description: string)
    | Summarize(minutes: nat)
    | PauseCommand
    | ResumeCommand
    | StopCommand
    | Unknown(command: string)

  const WakeWord: string := "scribeai"
  const SpacedWakeWord: string := "scribe ai"
  const DefaultActionDescription: string := "Action item from voice command"
  const DefaultSummaryMinutes: nat := 5

  /** Where the command starts: after the first "scribeai", else after the first
      "scribe ai"; when neither occurs, `indexOf` gives -1 and the command starts at 8. */
  function CommandStart(text: string): (k: nat)
    ensures Contains(text, WakeWord) ==>
      && |WakeWord| <= k <= |text| && text[k - |WakeWord|..k] == WakeWord
      && forall j :: 0 <= j < k - |WakeWord| ==> !(WakeWord <= text[j..])
    ensures !Contains(text, WakeWord) && Contains(text, SpacedWakeWord) ==>
      && |SpacedWakeWord| <= k <= |text| && text[k - |SpacedWakeWord|..k] == SpacedWakeWord
      && forall j :: 0 <= j < k - |SpacedWakeWord| ==> !(SpacedWakeWord <= text[j..])
    ensures !Contains(text, WakeWord) && !Contains(text, SpacedWakeWord) ==> k == 8
  {
    var i := IndexOf(text, WakeWord);
    if i != -1 then i + 8 else IndexOf(text, SpacedWakeWord) + 9
  }

  /** The command words: lowercased text after the wake word, trimmed. */
  function CommandText(commandText: string): (r: string)
    ensures |r| <= |commandText|
    ensures r == [] || (!IsSpace(r[0]) && !IsSpace(r[|r| - 1]))
    ensures NoUpper(r)
  {
    var text := Lower(commandText);
    var k := CommandStart(text);
    var t := Drop(text, k);
    assert NoUpper(t) by {
      LowerHasNoUpper(commandText);
      if k <= |text| {
        SuffixNoUpper(text, k);
      }
    }
    TrimKeepsLower(t);
    Trim(t)
  }

  predicate NoUpper(s: string) { forall i :: 0 <= i < |s| ==> !('A' <= s[i] <= 'Z') }

  lemma TrimKeepsLower(t: string)
    requires NoUpper(t)
    ensures NoUpper(Trim(t))
  {
    var u := TrimStart(t);
    SuffixNoUpper(t, |t| - |u|);
    assert NoUpper(u);
    var r := TrimEnd(u);
    assert r == u[..|r|];
    assert Trim(t) == r;
  }

  lemma LowerHasNoUpper(s: string)
    ensures NoUpper(Lower(s))
  {
    forall i | 0 <= i < |s| ensures !('A' <= Lower(s)[i] <= 'Z') {
      assert Lower(s)[i] == LowerChar(s[i]);
    }
  }

  lemma LowerOfNoUpper(s: string)
    requires NoUpper(s)
    ensures Lower(s) == s
  {
    forall i | 0 <= i < |s| ensures Lower(s)[i] == s[i] {
      assert !('A' <= s[i] <= 'Z');
    }
  }

  lemma SuffixNoUpper(t: string, d: nat)
    requires NoUpper(t) && d <= |t|
    ensures NoUpper(t[d..])
  {
    forall i | 0 <= i < |t| - d ensures !('A' <= t[d..][i] <= 'Z') {
      assert t[d..][i] == t[d + i];
    }
  }

  // ---------------------------------------------------------------- phrases

  predicate IsBookmarkPhrase(command: string) {
    Contains(command, "mark this as important") || Contains(command, "bookmark")
    || Contains(command, "mark important")
  }

  predicate IsActionPhrase(command: string) {
    Contains(command, "create action item") || Contains(command, "add task")
    || Contains(command, "add action")
  }

  predicate IsResumePhrase(command: string) {
    Contains(command, "resume") || Contains(command, "continue")
  }

  predicate IsStopPhrase(command: string) {
    Contains(command, "stop recording") || Contains(command, "end session")
  }

  // ---------------------------------------------------------------- /(?:create action item|add task|add action)[:\s]+(.+)/

  predicate IsSeparator(c: char) { c == ':' || IsSpace(c) }

  /** Length of the keyword alternative matching at `p`, or 0. */
  function KeywordAt(s: string, p: nat): (n: nat)
    requires p <= |s|
    ensures n in {0, 8, 10, 18}
    ensures n > 0 ==> p + n <= |s|
  {
    var rest := s[p..];
    if "create action item" <= rest then 18
    else if "add task" <= rest then 8
    else if "add action" <= rest then 10
    else 0
  }

  /** Number of separator characters (`[:\s]`) starting at `i`. */
  function SepRun(s: string, i: nat): (n: nat)
    requires i <= |s|
    ensures i + n <= |s|
    ensures forall j :: i <= j < i + n ==> IsSeparator(s[j])
    ensures i + n == |s| || !IsSeparator(s[i + n])
    decreases |s| - i
  {
    if i < |s| && IsSeparator(s[i]) then 1 + SepRun(s, i + 1) else 0
  }

  /** The end of the line holding position `q`: what `.+` consumes from `q`. */
  function LineEnd(s: string, q: nat): (e: nat)
    requires q <= |s|
    ensures q <= e <= |s|
    ensures forall j :: q <= j < e ==> !IsLineTerminator(s[j])
    ensures e == |s| || IsLineTerminator(s[e])
    decreases |s| - q
  {
    if q < |s| && !IsLineTerminator(s[q]) then LineEnd(s, q + 1) else q
  }

  /** The capture `(.+)` after `m` separators following `start`, giving separators back
      one at a time as the greedy `[:\s]+` backtracks. */
  function GroupFrom(s: string, start: nat, m: nat): (g: Option<string>)
    requires start + m <= |s|
    ensures g.Some? ==> g.value != [] && forall j :: 0 <= j < |g.value| ==> !IsLineTerminator(g.value[j])
  {
    if m == 0 then None
    else
      var q := start + m;
      if q < |s| && !IsLineTerminator(s[q]) then Some(s[q..LineEnd(s, q)])
      else GroupFrom(s, start, m - 1)
  }

  /** The first capture of the action regular expression, trying start positions from `p`. */
  function ActionMatchFrom(s: string, p: nat): (g: Option<string>)
    requires p <= |s|
    ensures g.Some? ==> g.value != [] && forall j :: 0 <= j < |g.value| ==> !IsLineTerminator(g.value[j])
    decreases |s| - p
  {
    var n := KeywordAt(s, p);
    var here := if n > 0 then GroupFrom(s, p + n, SepRun(s, p + n)) else None;
    if here.Some? then here
    else if p == |s| then None
    else ActionMatchFrom(s, p + 1)
  }

  function ActionMatch(s: string): Option<string> { ActionMatchFrom(s, 0) }

  /** The description of an action-item command: the trimmed capture, or the fixed default. */
  function ActionDescription(command: string): (d: string)
    ensures ActionMatch(command).None? ==> d == DefaultActionDescription
    ensures ActionMatch(command).Some? ==> d == Trim(ActionMatch(command).value)
  {
    var m := ActionMatch(command);
    if m.Some? then Trim(m.value) else DefaultActionDescription
  }

  // ---------------------------------------------------------------- /(\d+)\s*(?:minute|min)/

  function DigitRun(s: string, i: nat): (n: nat)
    requires i <= |s|
    ensures i + n <= |s| && AllDigits(s[i..i + n])
    ensures i + n == |s| || !IsDigit(s[i + n])
    decreases |s| - i
  {
    if i < |s| && IsDigit(s[i]) then
      var n := DigitRun(s, i + 1);
      assert s[i..i + 1 + n] == [s[i]] + s[i + 1..i + 1 + n];
      1 + n
    else 0
  }

  function SpaceRun(s: string, i: nat): (n: nat)
    requires i <= |s|
    ensures i + n <= |s|
    ensures i + n == |s| || !IsSpace(s[i + n])
    decreases |s| - i
  {
    if i < |s| && IsSpace(s[i]) then 1 + SpaceRun(s, i + 1) else 0
  }

  /** The number captured by the minutes regular expression, trying start positions from
      `p`. Backtracking cannot help: a shorter digit run is followed by a digit, a shorter
      space run by a space, and neither is the `m` that "min" needs. */
  function MinutesFrom(s: string, p: nat): (v: Option<nat>)
    requires p <= |s|
    decreases |s| - p
  {
    if p == |s| then None
    else if MinutesAt(s, p).Some? then MinutesAt(s, p)
    else MinutesFrom(s, p + 1)
  }

  /** The match starting exactly at `p`, if any: digits, then spaces, then "min". */
  function MinutesAt(s: string, p: nat): (v: Option<nat>)
    requires p < |s|
  {
    var d := DigitRun(s, p);
    if IsDigit(s[p]) && "min" <= s[p + d + SpaceRun(s, p + d)..] then Some(DigitsValue(s[p..p + d]))
    else None
  }

  function MinutesMatch(s: string): Option<nat> { MinutesFrom(s, 0) }

  /** Minutes requested by a summarize command: the captured number, else 5. */
  function SummaryMinutes(command: string): (n: nat)
    ensures (forall j :: 0 <= j < |command| ==> !IsDigit(command[j])) ==> n == DefaultSummaryMinutes
  {
    if forall j :: 0 <= j < |command| ==> !IsDigit(command[j]) then
      NoDigitsDefaultMinutes(command, 0);
      DefaultSummaryMinutes
    else
    var m := MinutesMatch(command);
    if m.Some? then m.value else DefaultSummaryMinutes
  }

  // ---------------------------------------------------------------- the classifier

  /** The first matching phrase decides the command. */
  function Classify(command: string): (c: VoiceCommand)
    ensures c.AddActionItem? ==> c.description == ActionDescription(command)
    ensures c.Summarize? ==> c.minutes == SummaryMinutes(command)
    ensures c.Unknown? ==> c.command == command
    ensures c.Unknown? <==>
      (!IsBookmarkPhrase(command) && !IsActionPhrase(command)
       && !Contains(command, "summarize") && !Contains(command, "pause")
       && !IsResumePhrase(command) && !IsStopPhrase(command))
  {
    if IsBookmarkPhrase(command) then Bookmark
    else if IsActionPhrase(command) then AddActionItem(ActionDescription(command))
    else if Contains(command, "summarize") then Summarize(SummaryMinutes(command))
    else if Contains(command, "pause") then PauseCommand
    else if IsResumePhrase(command) then ResumeCommand
    else if IsStopPhrase(command) then StopCommand
    else Unknown(command)
  }

  /** The phrases are tried in order, first match wins: bookmark, action item, summarize,
      pause, resume, stop; a command is unknown exactly when no phrase occurs. An action
      item carries the description its regular expression captures, a summary the minutes
      its number gives, and an unknown command its own words. */
  lemma ClassifyOrder(command: string)
    ensures var c := Classify(command);
      var bookmark := IsBookmarkPhrase(command);
      var action := IsActionPhrase(command);
      var summarize := Contains(command, "summarize");
      var pause := Contains(command, "pause");
      var resume := IsResumePhrase(command);
      var stop := IsStopPhrase(command);
      && (c == Bookmark <==> bookmark)
      && (c == AddActionItem(ActionDescription(command)) <==> !bookmark && action)
      && (c.AddActionItem? <==> !bookmark && action)
      && (c == Summarize(SummaryMinutes(command)) <==> !bookmark && !action && summarize)
      && (c.Summarize? <==> !bookmark && !action && summarize)
      && (c == PauseCommand <==> !bookmark && !action && !summarize && pause)
      && (c == ResumeCommand <==> !bookmark && !action && !summarize && !pause && resume)
      && (c == StopCommand <==>
            !bookmark && !action && !summarize && !pause && !resume && stop)
      && (c == Unknown(command) <==>
            !bookmark && !action && !summarize && !pause && !resume && !stop)
      && (c.Unknown? <==>
            !bookmark && !action && !summarize && !pause && !resume && !stop)
  {
  }

  /** The text a bookmark records: the last three lines of the combined transcript joined
      by spaces, cut to 100 characters. */
  function BookmarkText(combined: string): (r: string)
    ensures |r| <= 100
  {
    Take(Join(Last(Split(combined, '\n'), 3), " "), 100)
  }

  /** The transcript a "summarize" command posts: the last twenty lines of the combined
      transcript; a transcript of at most twenty lines is posted whole, a longer one loses
      exactly its earlier lines. */
  function SummaryExcerpt(combined: string): (r: string)
    ensures |Split(combined, '\n')| <= 20 ==> r == combined
    ensures |Split(combined, '\n')| > 20 ==>
      var lines := Split(combined, '\n');
      r == Join(lines[|lines| - 20..], "\n")
  {
    JoinSplit(combined, '\n');
    Join(Last(Split(combined, '\n'), 20), "\n")
  }

  // ---------------------------------------------------------------- properties

  /** A one-line transcript is bookmarked by its first 100 characters. */
  lemma BookmarkOfSingleLine(combined: string)
    requires '\n' !in combined
    ensures BookmarkText(combined) == Take(combined, 100)
  {
    SplitWithoutSeparator(combined, '\n');
  }

  /** Text in front of the first occurrence of a word's first letter does not change
      where the word is found, other than shifting it. */
  lemma {:induction false} IndexOfAfterPrefix(pre: string, t: string, sub: string)
    requires sub != [] && sub[0] !in pre
    ensures IndexOf(pre + t, sub) == if IndexOf(t, sub) == -1 then -1 else |pre| + IndexOf(t, sub)
    decreases |pre|
  {
    if pre != [] {
      assert !(sub <= pre + t);
      assert (pre + t)[1..] == pre[1..] + t;
      IndexOfAfterPrefix(pre[1..], t, sub);
    } else {
      assert pre + t == t;
    }
  }

  /** Whatever comes before the wake word is ignored: with no 's' in front of it, the
      command is the trimmed text after "scribeai". */
  lemma CommandAfterWakeWord(pre: string, rest: string)
    requires 's' !in pre && 'S' !in pre
    ensures CommandText(pre + WakeWord + rest) == Trim(Lower(rest))
  {
    var text := Lower(pre + WakeWord + rest);
    var lpre := Lower(pre);
    assert text == lpre + (WakeWord + Lower(rest)) by {
      assert Lower(WakeWord) == WakeWord;
      assert |text| == |lpre| + |WakeWord| + |Lower(rest)|;
      forall i | 0 <= i < |text| ensures text[i] == (lpre + (WakeWord + Lower(rest)))[i] {
        if i < |pre| {
        } else if i < |pre| + |WakeWord| {
        } else {
        }
      }
    }
    assert 's' !in lpre by {
      forall i | 0 <= i < |lpre| ensures lpre[i] != 's' {
        assert pre[i] != 's' && pre[i] != 'S';
      }
    }
    assert IndexOf(WakeWord + Lower(rest), WakeWord) == 0;
    IndexOfAfterPrefix(lpre, WakeWord + Lower(rest), WakeWord);
    assert Drop(text, CommandStart(text)) == Lower(rest);
  }

  /** Spoken as the wake word, one space and a trimmed lower-case command, after anything
      without an 's', the command text is exactly that command. */
  lemma SpokenCommand(pre: string, cmd: string)
    requires 's' !in pre && 'S' !in pre
    requires cmd != [] && !IsSpace(cmd[0]) && !IsSpace(cmd[|cmd| - 1]) && NoUpper(cmd)
    ensures CommandText(pre + WakeWord + " " + cmd) == cmd
  {
    var rest := [' '] + cmd;
    assert pre + WakeWord + " " + cmd == pre + WakeWord + rest;
    assert CommandText(pre + WakeWord + rest) == Trim(Lower(rest)) by { CommandAfterWakeWord(pre, rest); }
    assert Lower(rest) == rest by {
      forall i | 0 <= i < |rest| ensures !('A' <= rest[i] <= 'Z') {
        if i > 0 {
          assert rest[i] == cmd[i - 1];
        }
      }
      LowerOfNoUpper(rest);
    }
    assert Trim(rest) == cmd by {
      TrimLeadingSpace(' ', cmd);
      TrimOfTrimmed(cmd);
    }
  }

  /** A spoken command is classified by its own words. */
  lemma SpokenClassified(pre: string, cmd: string)
    requires 's' !in pre && 'S' !in pre
    requires cmd != [] && !IsSpace(cmd[0]) && !IsSpace(cmd[|cmd| - 1]) && NoUpper(cmd)
    ensures IsBookmarkPhrase(cmd) ==> Classify(CommandText(pre + WakeWord + " " + cmd)) == Bookmark
    ensures IsStopPhrase(cmd) && !IsBookmarkPhrase(cmd) && !IsActionPhrase(cmd)
         && !Contains(cmd, "summarize") && !Contains(cmd, "pause") && !IsResumePhrase(cmd)
         ==> Classify(CommandText(pre + WakeWord + " " + cmd)) == StopCommand
  {
    SpokenCommand(pre, cmd);
  }

  /** A keyword followed by a space and a one-line description yields that description. */
  lemma ActionOfKeywordAndText(keyword: string, d: string)
    requires keyword in {"create action item", "add task", "add action"}
    requires d != [] && !IsSeparator(d[0])
    requires forall j :: 0 <= j < |d| ==> !IsLineTerminator(d[j])
    ensures ActionDescription(keyword + " " + d) == Trim(d)
  {
    var s := keyword + " " + d;
    assert s[0..] == s;
    assert s[..|keyword|] == keyword;
    if keyword == "create action item" {
      assert KeywordAt(s, 0) == |keyword|;
    } else if keyword == "add task" {
      assert s[1] == 'd';
      assert KeywordAt(s, 0) == |keyword|;
    } else {
      assert s[1] == 'd' && s[4] == 'a';
      assert KeywordAt(s, 0) == |keyword|;
    }
    CaptureAfterKeyword(s, |keyword|, d);
  }

  lemma CaptureAfterKeyword(s: string, n: nat, d: string)
    requires n + 1 + |d| == |s| && KeywordAt(s, 0) == n > 0
    requires s[n] == ' ' && s[n + 1..] == d
    requires d != [] && !IsSeparator(d[0])
    requires forall j :: 0 <= j < |d| ==> !IsLineTerminator(d[j])
    ensures ActionMatch(s) == Some(d)
  {
    assert s[n + 1] == d[0];
    assert SepRun(s, n + 1) == 0;
    assert SepRun(s, n) == 1;
    var e := LineEnd(s, n + 1);
    assert e == |s|;
    assert !IsLineTerminator(s[n + 1]);
    assert s[n + 1..e] == d;
    assert GroupFrom(s, n, 1) == Some(d);
  }

  /** Without any digit in the command, a summary covers the default five minutes. */
  lemma {:induction false} NoDigitsDefaultMinutes(s: string, p: nat)
    requires p <= |s|
    requires forall j :: p <= j < |s| ==> !IsDigit(s[j])
    ensures MinutesFrom(s, p).None?
    decreases |s| - p
  {
    if p < |s| {
      assert MinutesAt(s, p).None?;
      NoDigitsDefaultMinutes(s, p + 1);
    }
  }

  /** "<number> min" at the front of a command is the number read. */
  lemma MinutesAtFront(digits: string, rest: string)
    requires digits != [] && AllDigits(digits)
    ensures MinutesMatch(digits + " min" + rest) == Some(DigitsValue(digits))
  {
    var tail := " min" + rest;
    var s := digits + tail;
    var n := |digits|;
    assert digits + " min" + rest == s;
    assert s[..n] == digits;
    assert s[n] == ' ' && "min" <= s[n + 1..] by {
      assert s[n..] == tail;
      assert s[n + 1..][..3] == "min";
    }
    MinutesAtStart(s, n);
  }

  /** Digits at the very start, one space and "min" give the number the digits spell. */
  lemma MinutesAtStart(s: string, n: nat)
    requires 0 < n < |s| && AllDigits(s[..n]) && s[n] == ' ' && "min" <= s[n + 1..]
    ensures MinutesMatch(s) == Some(DigitsValue(s[..n]))
  {
    assert DigitRun(s, 0) == n by {
      DigitRunOfPrefix(s, s[..n], 0);
    }
    assert SpaceRun(s, n) == 1 by {
      assert s[n + 1] == 'm';
      assert SpaceRun(s, n + 1) == 0;
    }
    assert s[0..n] == s[..n];
    assert MinutesAt(s, 0) == Some(DigitsValue(s[..n]));
  }

  lemma {:induction false} DigitRunOfPrefix(s: string, digits: string, i: nat)
    requires digits <= s && AllDigits(digits) && i <= |digits|
    requires |digits| < |s| && !IsDigit(s[|digits|])
    ensures DigitRun(s, i) == |digits| - i
    decreases |digits| - i
  {
    if i < |digits| {
      DigitRunOfPrefix(s, digits, i + 1);
      assert s[i] == digits[i];
    }
  }
}
