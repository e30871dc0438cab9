/** The transcript download of the recording panel (`formatTranscript`): plain text as is,
    Markdown with a heading and hard line breaks (`toMarkdown`), or SubRip subtitles with
    twelve words per four-second cue (`toSrt`, `secondsToSrt`). */
module TranscriptExport {
  import opened Strings

  const WordsPerCue: nat := 12
  const CueSeconds: nat := 4

  // ---------------------------------------------------------------- timestamps

  /** `String(n).padStart(width, '0')`. */
  function Pad(n: nat, width: nat): string
  {
    PadStart(NatToString(n), width, '0')
  }

  /** Padding keeps the number: the result is all digits and reads back as `n`; below 100
      a two-wide pad is exactly two characters. */
  lemma PadValue(n: nat, width: nat)
    ensures |Pad(n, width)| == Max(width, |NatToString(n)|)
    ensures AllDigits(Pad(n, width)) && DigitsValue(Pad(n, width)) == n
    ensures n < 100 && width == 2 ==> |Pad(n, width)| == 2
  {
    var s := NatToString(n);
    var z := Repeat('0', if width > |s| then width - |s| else 0);
    assert Pad(n, width) == z + s;
    NatToStringValue(n);
    LeadingZerosValue(z, s);
    if n < 100 {
      BelowHundredDigits(n);
    }
  }

  lemma BelowHundredDigits(n: nat)
    requires n < 100
    ensures |NatToString(n)| <= 2
  {
    if n >= 10 {
      assert NatToString(n) == NatToString(n / 10) + [DigitChar(n % 10)];
      assert |NatToString(n / 10)| == 1;
    }
  }

  /** `secondsToSrt` for a whole number of seconds (every cue boundary is a multiple of
      four, so the milliseconds are always 0, padded to "000"): hours, minutes and seconds
      padded to two digits. */
  function SecondsToSrt(ts: nat): (r: string)
    ensures |r| >= 12 && EndsWith(r, ",000")
  {
    Pad(ts / 3600, 2) + ":" + Pad(ts % 3600 / 60, 2) + ":" + Pad(ts % 60, 2) + ",000"
  }

  /** Reads an `H:MM:SS,000` stamp back as a number of seconds; the hours are everything
      in front of the last ten characters. */
  function StampSeconds(t: string): Option<nat>
  {
    if |t| < 12 then None
    else
      var h := t[..|t| - 10];
      var m := t[|t| - 9..|t| - 7];
      var s := t[|t| - 6..|t| - 4];
      if AllDigits(h) && AllDigits(m) && AllDigits(s)
         && t[|t| - 10] == ':' && t[|t| - 7] == ':' && t[|t| - 4..] == ",000"
      then Some(ClockValue(h, m, s))
      else None
  }

  function ClockValue(h: string, m: string, s: string): nat
    requires AllDigits(h) && AllDigits(m) && AllDigits(s)
  {
    DigitsValue(h) * 3600 + DigitsValue(m) * 60 + DigitsValue(s)
  }

  /** A stamp reads back as the seconds it was made from, with minutes and seconds below
      60; below 100 hours it is the twelve characters `HH:MM:SS,000`. */
  lemma StampRoundTrip(ts: nat)
    ensures StampSeconds(SecondsToSrt(ts)) == Some(ts)
    ensures ts < 360000 ==> |SecondsToSrt(ts)| == 12
  {
    var h, m, s := Pad(ts / 3600, 2), Pad(ts % 3600 / 60, 2), Pad(ts % 60, 2);
    assert |h| >= 2 && AllDigits(h) && DigitsValue(h) == ts / 3600 && (ts < 360000 ==> |h| == 2) by {
      PadValue(ts / 3600, 2);
    }
    assert |m| == 2 && AllDigits(m) && DigitsValue(m) == ts % 3600 / 60 by {
      PadValue(ts % 3600 / 60, 2);
    }
    assert |s| == 2 && AllDigits(s) && DigitsValue(s) == ts % 60 by {
      PadValue(ts % 60, 2);
    }
    assert ClockValue(h, m, s) == ts by {
      ClockDigits(ts);
    }
    ReadStamp(h, m, s);
  }

  lemma ClockDigits(ts: nat)
    ensures ts / 3600 * 3600 + ts % 3600 / 60 * 60 + ts % 60 == ts
  {
    assert ts % 3600 % 60 == ts % 60;
  }

  lemma ReadStamp(h: string, m: string, s: string)
    requires |h| >= 2 && |m| == 2 && |s| == 2
    requires AllDigits(h) && AllDigits(m) && AllDigits(s)
    ensures StampSeconds(h + ":" + m + ":" + s + ",000") == Some(ClockValue(h, m, s))
  {
    var t := h + ":" + m + ":" + s + ",000";
    assert t[..|t| - 10] == h;
    assert t[|t| - 9..|t| - 7] == m;
    assert t[|t| - 6..|t| - 4] == s;
    assert t[|t| - 4..] == ",000";
  }

  // ---------------------------------------------------------------- cues

  /** The number of cues for `n` words: `n / 12` rounded up. */
  function CueCount(n: nat): nat
  {
    (n + WordsPerCue - 1) / WordsPerCue
  }

  /** The words of cue `k` (counting from 0): `words.slice(12k, 12k + 12)`. */
  function Group(ws: seq<string>, k: nat): (g: seq<string>)
    requires k < CueCount(|ws|)
    ensures 1 <= |g| <= WordsPerCue
  {
    ws[k * WordsPerCue .. Min(k * WordsPerCue + WordsPerCue, |ws|)]
  }

  /** Cue number `idx` (counting from 1): the number, its four-second span, its text. */
  function Cue(idx: nat, part: string): string
    requires idx >= 1
  {
    var start := (idx - 1) * CueSeconds;
    NatToString(idx) + "\n" + SecondsToSrt(start) + " --> " + SecondsToSrt(start + CueSeconds) + "\n" + part
  }

  function CueAt(ws: seq<string>, k: nat): string
    requires k < CueCount(|ws|)
  {
    Cue(k + 1, Join(Group(ws, k), " "))
  }

  function Cues(ws: seq<string>): (cs: seq<string>)
    ensures |cs| == CueCount(|ws|)
  {
    seq(CueCount(|ws|), k requires 0 <= k < CueCount(|ws|) => CueAt(ws, k))
  }

  /** The subtitle file: the cues of the transcript's words, separated by blank lines. */
  function Srt(text: string): (r: string)
    ensures Words(text) == [] ==> r == ""
  {
    if text == [] then "" else Join(Cues(Words(text)), "\n\n")
  }

  /** `toSrt`: the loop steps through the words twelve at a time. */
  method ToSrt(text: string) returns (r: string)
    ensures r == Srt(text)
  {
    if text == [] {
      return "";
    }
    var words := Words(text);
    var chunks: seq<string> := [];
    var i := 0;
    while i < |words|
      invariant i == WordsPerCue * |chunks|
      invariant |chunks| <= CueCount(|words|)
      invariant forall k :: 0 <= k < |chunks| ==> chunks[k] == CueAt(words, k)
      decreases |words| - i
    {
      var part := Join(words[i..Min(i + WordsPerCue, |words|)], " ");
      var idx := i / WordsPerCue + 1;
      NextCue(words, |chunks|, i, idx);
      var cue := Cue(idx, part);
      CuesSnoc(words, chunks, cue);
      chunks := chunks + [cue];
      i := i + WordsPerCue;
    }
    AllCues(words, chunks);
    r := Join(chunks, "\n\n");
  }

  /** One turn of the `toSrt` loop builds the next cue. */
  lemma NextCue(ws: seq<string>, c: nat, i: nat, idx: nat)
    requires i == WordsPerCue * c < |ws| && idx == i / WordsPerCue + 1
    ensures c < CueCount(|ws|) && idx == c + 1
    ensures Cue(idx, Join(ws[i..Min(i + WordsPerCue, |ws|)], " ")) == CueAt(ws, c)
  {
    CueCountBounds(|ws|, c);
    assert c * WordsPerCue == i;
    assert i / WordsPerCue == c;
    assert Group(ws, c) == ws[i..Min(i + WordsPerCue, |ws|)];
  }

  /** Appending the next cue keeps every built cue the one its index names. */
  lemma CuesSnoc(ws: seq<string>, chunks: seq<string>, cue: string)
    requires |chunks| < CueCount(|ws|)
    requires forall k :: 0 <= k < |chunks| ==> chunks[k] == CueAt(ws, k)
    requires cue == CueAt(ws, |chunks|)
    ensures forall k :: 0 <= k <= |chunks| ==> (chunks + [cue])[k] == CueAt(ws, k)
  {
  }

  /** When the loop stops it has built every cue. */
  lemma AllCues(ws: seq<string>, chunks: seq<string>)
    requires WordsPerCue * |chunks| >= |ws| && |chunks| <= CueCount(|ws|)
    requires forall k :: 0 <= k < |chunks| ==> chunks[k] == CueAt(ws, k)
    ensures chunks == Cues(ws)
  {
    CueCountBounds(|ws|, |chunks|);
  }

  /** `CueCount(n)` is the least `c` with `12 c >= n`. */
  lemma CueCountBounds(n: nat, c: nat)
    ensures WordsPerCue * c < n ==> c < CueCount(n)
    ensures WordsPerCue * c >= n ==> c >= CueCount(n)
  {
  }

  /** The cue groups, in order. */
  function Groups(ws: seq<string>): (gs: seq<seq<string>>)
    ensures |gs| == CueCount(|ws|)
  {
    seq(CueCount(|ws|), k requires 0 <= k < CueCount(|ws|) => Group(ws, k))
  }

  function Concat(gs: seq<seq<string>>): seq<string>
  {
    if gs == [] then [] else gs[0] + Concat(gs[1..])
  }

  /** Read one after the other, the cues' words are exactly the transcript's words. */
  lemma {:induction false} GroupsCoverWords(ws: seq<string>)
    ensures Concat(Groups(ws)) == ws
    decreases |ws|
  {
    if 0 < |ws| <= WordsPerCue {
      assert CueCount(|ws|) == 1;
      assert Groups(ws)[0] == ws;
      assert Groups(ws) == [ws];
      assert Concat([ws]) == ws + Concat([]);
    } else if |ws| > WordsPerCue {
      var rest := ws[WordsPerCue..];
      GroupsCoverWords(rest);
      GroupsCons(ws);
      assert ws == ws[..WordsPerCue] + rest;
    }
  }

  lemma GroupsCons(ws: seq<string>)
    requires |ws| > WordsPerCue
    ensures Groups(ws) == [ws[..WordsPerCue]] + Groups(ws[WordsPerCue..])
  {
    var rest := ws[WordsPerCue..];
    assert CueCount(|ws|) == CueCount(|rest|) + 1;
    forall k | 0 <= k < CueCount(|rest|)
      ensures Groups(ws)[k + 1] == Groups(rest)[k]
    {
      GroupShift(ws, k);
    }
  }

  /** Cue `k + 1` of the words is cue `k` of the words after the first cue. */
  lemma GroupShift(ws: seq<string>, k: nat)
    requires |ws| > WordsPerCue && k < CueCount(|ws| - WordsPerCue)
    ensures k + 1 < CueCount(|ws|)
    ensures Group(ws, k + 1) == Group(ws[WordsPerCue..], k)
  {
    var rest := ws[WordsPerCue..];
    var lo := k * WordsPerCue;
    assert (k + 1) * WordsPerCue == WordsPerCue + lo;
    var hi := Min(lo + WordsPerCue, |rest|);
    assert Min(WordsPerCue + lo + WordsPerCue, |ws|) == WordsPerCue + hi;
    assert Group(rest, k) == rest[lo..hi];
    SliceOfSuffix(ws, WordsPerCue, lo, hi);
  }

  /** Each cue's text splits back into that cue's words, so no word is cut or merged. */
  lemma CueTextWords(text: string, k: nat)
    requires k < CueCount(|Words(text)|)
    ensures Words(Join(Group(Words(text), k), " ")) == Group(Words(text), k)
  {
    var ws := Words(text);
    var g := Group(ws, k);
    assert AreWords(g) by {
      forall i | 0 <= i < |g| ensures g[i] != [] && NoSpace(g[i]) {
        assert g[i] == ws[k * WordsPerCue + i];
      }
    }
    WordsOfJoin(g);
  }

  /** A transcript without words gives an empty subtitle file; `n` words give `n / 12`
      cues rounded up, every cue but the last holding twelve words. */
  lemma CueCounts(text: string)
    ensures Words(text) == [] ==> Srt(text) == ""
    ensures |Cues(Words(text))| * WordsPerCue >= |Words(text)|
    ensures |Cues(Words(text))| * WordsPerCue < |Words(text)| + WordsPerCue
    ensures forall k :: 0 <= k < CueCount(|Words(text)|) - 1 ==> |Group(Words(text), k)| == WordsPerCue
  {
  }

  // ---------------------------------------------------------------- Markdown

  /** Drops the line feeds at the front. */
  function SkipLineFeeds(s: string): (r: string)
    ensures |r| <= |s| && (r == [] || r[0] != '\n')
    ensures s != [] && s[0] == '\n' ==> |r| < |s|
  {
    if s != [] && s[0] == '\n' then SkipLineFeeds(s[1..]) else s
  }

  /** `s.split(/\n{2,}/)`: the pieces between runs of two or more line feeds. */
  function Paragraphs(s: string): (ps: seq<string>)
    ensures |ps| >= 1
    decreases |s|
  {
    if s == [] then [""]
    else if |s| >= 2 && s[0] == '\n' && s[1] == '\n' then [""] + Paragraphs(SkipLineFeeds(s))
    else
      var rest := Paragraphs(s[1..]);
      [[s[0]] + rest[0]] + rest[1..]
  }

  /** No two line feeds in a row. */
  predicate NoBlankLine(s: string)
  {
    forall i :: 0 <= i < |s| - 1 ==> !(s[i] == '\n' && s[i + 1] == '\n')
  }

  /** Text without a blank line is one paragraph. */
  lemma {:induction false} SingleParagraph(s: string)
    requires NoBlankLine(s)
    ensures Paragraphs(s) == [s]
    decreases |s|
  {
    if s != [] {
      assert NoBlankLine(s[1..]) by {
        forall i | 0 <= i < |s[1..]| - 1 ensures !(s[1..][i] == '\n' && s[1..][i + 1] == '\n') {
          assert s[1..][i] == s[i + 1] && s[1..][i + 1] == s[i + 2];
        }
      }
      SingleParagraph(s[1..]);
      assert [s[0]] + s[1..] == s;
    }
  }

  /** No paragraph holds a blank line. */
  lemma {:induction false} ParagraphsHaveNoBlankLine(s: string)
    ensures forall i :: 0 <= i < |Paragraphs(s)| ==> NoBlankLine(Paragraphs(s)[i])
    decreases |s|
  {
    if s == [] {
      assert NoBlankLine("");
    } else if |s| >= 2 && s[0] == '\n' && s[1] == '\n' {
      var t := SkipLineFeeds(s);
      ParagraphsHaveNoBlankLine(t);
      assert NoBlankLine("");
      forall i | 0 <= i < |Paragraphs(s)| ensures NoBlankLine(Paragraphs(s)[i]) {
        if i > 0 {
          assert Paragraphs(s)[i] == Paragraphs(t)[i - 1];
        }
      }
    } else {
      var rest := Paragraphs(s[1..]);
      ParagraphsHaveNoBlankLine(s[1..]);
      FirstParagraphNoBlankLine(s);
      forall i | 0 <= i < |Paragraphs(s)| ensures NoBlankLine(Paragraphs(s)[i]) {
        if i > 0 {
          assert Paragraphs(s)[i] == rest[i];
        }
      }
    }
  }

  /** A character put in front of the first paragraph adds no blank line: a line feed is
      only added when the text does not go on with another line feed. */
  lemma FirstParagraphNoBlankLine(s: string)
    requires s != [] && !(|s| >= 2 && s[0] == '\n' && s[1] == '\n')
    requires NoBlankLine(Paragraphs(s[1..])[0])
    ensures NoBlankLine([s[0]] + Paragraphs(s[1..])[0])
  {
    var p := Paragraphs(s[1..])[0];
    var q := [s[0]] + p;
    if p != [] {
      FirstParagraphHead(s[1..]);
    }
    forall i | 0 <= i < |q| - 1 ensures !(q[i] == '\n' && q[i + 1] == '\n') {
      if i > 0 {
        assert q[i] == p[i - 1] && q[i + 1] == p[i];
      } else {
        assert q[1] == p[0] == s[1];
      }
    }
  }

  /** The first paragraph begins with the text's first character unless the text opens
      with a blank line. */
  lemma FirstParagraphHead(s: string)
    requires Paragraphs(s)[0] != []
    ensures s != [] && Paragraphs(s)[0][0] == s[0]
    ensures !(|s| >= 2 && s[0] == '\n' && s[1] == '\n')
  {
  }

  /** `p.replace(/\n/g, '  \n')`: every line break becomes a Markdown hard break. */
  function HardBreaks(p: string): (r: string)
    ensures |r| >= |p|
    ensures '\n' !in p ==> r == p
  {
    if p == [] then ""
    else (if p[0] == '\n' then "  \n" else [p[0]]) + HardBreaks(p[1..])
  }

  /** Turns hard breaks back into plain line feeds. */
  function SoftBreaks(s: string): string
  {
    if s == [] then ""
    else if |s| >= 3 && s[..3] == "  \n" then "\n" + SoftBreaks(s[3..])
    else [s[0]] + SoftBreaks(s[1..])
  }

  lemma {:induction false} HardBreaksHead(p: string)
    ensures HardBreaks(p) == [] || HardBreaks(p)[0] != '\n'
    ensures |HardBreaks(p)| >= 2 ==> HardBreaks(p)[..2] != " \n"
  {
    if p != [] {
      var rest := HardBreaks(p[1..]);
      if p[0] == '\n' {
        var h := "  \n" + rest;
        assert HardBreaks(p) == h;
        assert h[0] == ' ' && h[1] == ' ';
      } else {
        var h := [p[0]] + rest;
        assert HardBreaks(p) == h;
        if p[0] == ' ' && |rest| >= 1 {
          assert rest[0] != '\n' by { HardBreaksHead(p[1..]); }
          assert h[1] == rest[0];
        }
      }
    }
  }

  /** The hard breaks can be undone: the paragraph's own text is kept. */
  lemma {:induction false} SoftOfHard(p: string)
    ensures SoftBreaks(HardBreaks(p)) == p
    decreases |p|
  {
    if p != [] {
      var rest := HardBreaks(p[1..]);
      SoftOfHard(p[1..]);
      if p[0] == '\n' {
        assert SoftBreaks(HardBreaks(p)) == "\n" + SoftBreaks(rest) by {
          assert HardBreaks(p) == "  \n" + rest;
          assert ("  \n" + rest)[3..] == rest;
        }
      } else {
        assert SoftBreaks(HardBreaks(p)) == [p[0]] + SoftBreaks(rest) by {
          var s := [p[0]] + rest;
          assert HardBreaks(p) == s;
          HardBreaksHead(p[1..]);
          if |s| >= 3 {
            assert s[..3] != "  \n" by {
              if p[0] == ' ' {
                assert s[1..3] == rest[..2];
              }
            }
          }
          assert s[1..] == rest;
        }
      }
      assert [p[0]] + p[1..] == p;
    }
  }

  /** The Markdown paragraphs: each piece trimmed, blank ones dropped, breaks made hard. */
  function MarkdownParagraphs(ps: seq<string>): (r: seq<string>)
    ensures |r| <= |ps|
  {
    if ps == [] then []
    else
      var t := Trim(ps[0]);
      (if t == [] then [] else [HardBreaks(t)]) + MarkdownParagraphs(ps[1..])
  }

  /** `toMarkdown`. */
  function Markdown(text: string): (r: string)
    ensures text == [] ==> r == ""
    ensures text != [] ==> "# Transcript\n\n" <= r
  {
    if text == [] then ""
    else "# Transcript\n\n" + Join(MarkdownParagraphs(Paragraphs(text)), "\n\n")
  }

  /** A one-paragraph transcript is its trimmed text, with hard breaks, under the heading. */
  lemma MarkdownOfOneParagraph(text: string)
    requires NoBlankLine(text) && !IsBlank(text)
    ensures Markdown(text) == "# Transcript\n\n" + HardBreaks(Trim(text))
  {
    SingleParagraph(text);
    assert MarkdownParagraphs([text]) == [HardBreaks(Trim(text))] + MarkdownParagraphs([]);
  }

  // ---------------------------------------------------------------- the download

  datatype ExportFormat = Plain | Md | SubRip

  /** `formatTranscript`: an empty transcript gives an empty file in every format. */
  function FormatTranscript(fmt: ExportFormat, text: string): (r: string)
    ensures text == [] ==> r == []
    ensures fmt == Plain ==> r == text
    ensures fmt == Md && text != [] ==> "# Transcript\n\n" <= r
  {
    if text == [] then ""
    else
      match fmt
      case Md => Markdown(text)
      case SubRip => Srt(text)
      case Plain => text
  }
}
