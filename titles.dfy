/** `sanitizeTitle`, which four listing views share word for word
    (app/components/SessionHistory.tsx, app/tools/transcripts/page.tsx,
    app/tools/summaries/page.tsx, app/sessions/page.tsx): the first non-blank line of a
    stored title, without leading bullet markers, with its white space collapsed. */
module Titles {
  import opened Strings

  /** The characters of `[\-\*•\s]`. */
  predicate IsBulletOrSpace(c: char) {
    c == '-' || c == '*' || c == '•' || IsSpace(c)
  }

  /** No white space but single blanks: every white-space character is ' ' and is not
      followed by another white-space character. */
  predicate Collapsed(s: string) {
    && (forall i :: 0 <= i < |s| && IsSpace(s[i]) ==> s[i] == ' ')
    && (forall i, j :: 0 <= i < |s| && j == i + 1 && j < |s| ==> !(IsSpace(s[i]) && IsSpace(s[j])))
  }

  /** `lines.map(l => l.trim()).filter(Boolean)[0]`, as the index of the first line that
      is not blank. */
  function FirstNonBlank(lines: seq<string>): (k: Option<nat>)
    ensures k.Some? ==> k.value < |lines| && !IsBlank(lines[k.value])
    ensures k.Some? ==> forall j :: 0 <= j < k.value ==> IsBlank(lines[j])
    ensures k.None? ==> forall j :: 0 <= j < |lines| ==> IsBlank(lines[j])
  {
    if lines == [] then None
    else if !IsBlank(lines[0]) then Some(0)
    else match FirstNonBlank(lines[1..])
      case Some(k) => Some(k + 1)
      case None => None
  }

  /** `t.replace(/^[\-\*•\s]+/, '')`. */
  function StripBullets(t: string): (r: string)
    ensures |r| <= |t| && r == t[|t| - |r|..]
    ensures r == [] || !IsBulletOrSpace(r[0])
  {
    if t != [] && IsBulletOrSpace(t[0]) then StripBullets(t[1..]) else t
  }

  /** `t.replace(/\s+/g, ' ')`: every run of white space becomes one blank. */
  function Collapse(s: string): (r: string)
    ensures |r| <= |s| && (r == [] <==> s == [])
    ensures s != [] && !IsSpace(s[0]) ==> r[0] == s[0]
    ensures s != [] && IsSpace(s[0]) ==> r[0] == ' '
    ensures Collapsed(r)
    decreases |s|
  {
    if s == [] then []
    else if IsSpace(s[0]) then
      var rest := TrimStart(s);
      assert |rest| < |s| by { assert rest == s[|s| - |rest|..]; }
      [' '] + Collapse(rest)
    else [s[0]] + Collapse(s[1..])
  }

  /** `sanitizeTitle`; a missing title is "". */
  function SanitizeTitle(title: string): (r: string)
    ensures title == "" ==> r == ""
    ensures r == [] || (!IsSpace(r[0]) && !IsSpace(r[|r| - 1]))
  {
    if title == "" then ""
    else
      var lines := Split(title, '\n');
      match FirstNonBlank(lines)
      case None => ""
      case Some(k) => Trim(Collapse(StripBullets(Trim(lines[k]))))
  }

  // ---------------------------------------------------------------- properties

  lemma {:induction false} CollapsedFactor(s: string, a: nat, b: nat)
    requires Collapsed(s) && a <= b <= |s|
    ensures Collapsed(s[a..b])
  {
    var f := s[a..b];
    forall i | 0 <= i < |f| && IsSpace(f[i]) ensures f[i] == ' ' {
      assert f[i] == s[a + i];
    }
    forall i, j | 0 <= i && j == i + 1 && j < |f| ensures !(IsSpace(f[i]) && IsSpace(f[j])) {
      assert f[i] == s[a + i] && f[j] == s[a + j];
    }
  }

  /** Trimming a string that starts with a visible character keeps that character first. */
  lemma TrimKeepsFirst(s: string)
    requires s != [] && !IsSpace(s[0])
    ensures Trim(s) != [] && Trim(s)[0] == s[0]
    ensures Trim(s) == s[..|Trim(s)|]
  {
    assert !AllSpace(s);
  }

  /** A sanitized title is empty or starts with a visible character other than a bullet,
      ends with a visible character, holds no line feed and no run of white space. */
  lemma SanitizedShape(title: string)
    ensures var r := SanitizeTitle(title);
      && (r == [] || (!IsBulletOrSpace(r[0]) && !IsSpace(r[|r| - 1])))
      && Collapsed(r) && '\n' !in r
  {
    var r := SanitizeTitle(title);
    if r != [] {
      var lines := Split(title, '\n');
      assert FirstNonBlank(lines).Some?;
      var k := FirstNonBlank(lines).value;
      var u := StripBullets(Trim(lines[k]));
      assert r == Trim(Collapse(u));
      CleanedShape(u);
      CollapsedHasNoLineFeed(r);
    }
  }

  /** The shape of one stripped line once its white space is collapsed and trimmed. */
  lemma CleanedShape(u: string)
    requires u == [] || !IsBulletOrSpace(u[0])
    ensures var r := Trim(Collapse(u));
      && (r == [] || (!IsBulletOrSpace(r[0]) && !IsSpace(r[|r| - 1])))
      && Collapsed(r)
  {
    var c := Collapse(u);
    var r := Trim(c);
    TrimIsFactor(c);
    CollapsedFactor(c, |c| - |TrimStart(c)|, |c| - |TrimStart(c)| + |r|);
    if u != [] {
      TrimKeepsFirst(c);
    }
  }

  lemma CollapsedHasNoLineFeed(s: string)
    requires Collapsed(s)
    ensures '\n' !in s
  {
    forall i | 0 <= i < |s| ensures s[i] != '\n' {
      if s[i] == '\n' {
        assert IsSpace(s[i]);
      }
    }
  }

  /** `Trim(s)` is the factor of `s` that `TrimStart` leaves, cut by `TrimEnd`. */
  lemma {:induction false} TrimIsFactor(s: string)
    ensures var d := |s| - |TrimStart(s)|;
      d + |Trim(s)| <= |s| && Trim(s) == s[d..d + |Trim(s)|]
  {
    var t := TrimStart(s);
    PrefixOfSuffix(s, |s| - |t|, t, TrimEnd(t));
  }

  lemma PrefixOfSuffix(s: string, d: nat, t: string, r: string)
    requires d <= |s| && t == s[d..] && |r| <= |t| && r == t[..|r|]
    ensures d + |r| <= |s| && r == s[d..d + |r|]
  {
    assert t[..|r|] == t[0..|r|];
    SliceOfSuffix(s, d, 0, |r|);
  }

  /** A collapsed string is left as it is by `Collapse`. */
  lemma {:induction false} CollapseOfCollapsed(s: string)
    requires Collapsed(s)
    ensures Collapse(s) == s
    decreases |s|
  {
    if s != [] {
      CollapsedFactor(s, 1, |s|);
      assert s[1..] == s[1..|s|];
      if IsSpace(s[0]) {
        assert s[0] == ' ';
        assert TrimStart(s) == TrimStart(s[1..]) == s[1..] by {
          if |s| > 1 {
            assert !IsSpace(s[1]);
          }
        }
      }
      CollapseOfCollapsed(s[1..]);
    }
  }

  /** Sanitizing a sanitized title changes nothing. */
  lemma SanitizeIdempotent(title: string)
    ensures SanitizeTitle(SanitizeTitle(title)) == SanitizeTitle(title)
  {
    SanitizedShape(title);
    SanitizeOfSanitized(SanitizeTitle(title));
  }

  /** A title already in sanitized shape is its own sanitization. */
  lemma SanitizeOfSanitized(r: string)
    requires r == [] || (!IsBulletOrSpace(r[0]) && !IsSpace(r[|r| - 1]))
    requires Collapsed(r) && '\n' !in r
    ensures SanitizeTitle(r) == r
  {
    if r != "" {
      assert !IsBlank(r) by { assert !IsSpace(r[0]); }
      SanitizeOneLine(r);
      TrimOfTrimmed(r);
      assert StripBullets(r) == r;
      CollapseOfCollapsed(r);
    }
  }

  /** A title of one visible line is sanitized line and all. */
  lemma SanitizeOneLine(t: string)
    requires '\n' !in t && !IsBlank(t)
    ensures SanitizeTitle(t) == Trim(Collapse(StripBullets(Trim(t))))
  {
    SplitWithoutSeparator(t, '\n');
    assert FirstNonBlank([t]) == Some(0);
  }

  /** Only the first non-blank line counts, even when it is nothing but a bullet. */
  lemma BulletLineHidesTheNext()
    ensures SanitizeTitle("-\nWeekly sync") == ""
  {
    var lines := Split("-\nWeekly sync", '\n');
    assert lines[0] == "-" by {
      FirstLineIsFirstPart("-\nWeekly sync");
      assert FirstLine("-\nWeekly sync") == "-";
    }
    assert !IsBlank("-") by { assert !IsSpace('-'); }
    assert FirstNonBlank(lines) == Some(0);
    assert Trim("-") == "-" by { TrimOfTrimmed("-"); }
  }

  /** A one-line title of bullet markers and white space sanitizes to "". */
  lemma BulletsOnly(t: string)
    requires '\n' !in t && !IsBlank(t)
    requires forall i :: 0 <= i < |t| ==> IsBulletOrSpace(t[i])
    ensures SanitizeTitle(t) == ""
  {
    SanitizeOneLine(t);
    TrimAllBullets(t);
    StripAllBullets(Trim(t));
  }

  lemma TrimAllBullets(t: string)
    requires forall i :: 0 <= i < |t| ==> IsBulletOrSpace(t[i])
    ensures forall i :: 0 <= i < |Trim(t)| ==> IsBulletOrSpace(Trim(t)[i])
  {
    var d := |t| - |TrimStart(t)|;
    TrimIsFactor(t);
    FactorAllBullets(t, d, d + |Trim(t)|);
  }

  lemma FactorAllBullets(t: string, a: nat, b: nat)
    requires a <= b <= |t|
    requires forall i :: 0 <= i < |t| ==> IsBulletOrSpace(t[i])
    ensures forall i :: 0 <= i < b - a ==> IsBulletOrSpace(t[a..b][i])
  {
    forall i | 0 <= i < b - a ensures IsBulletOrSpace(t[a..b][i]) {
      assert t[a..b][i] == t[a + i];
    }
  }

  lemma StripAllBullets(u: string)
    requires forall i :: 0 <= i < |u| ==> IsBulletOrSpace(u[i])
    ensures Trim(Collapse(StripBullets(u))) == ""
  {
    NothingLeftOfBullets(u);
    assert AllSpace([]);
  }

  lemma {:induction false} NothingLeftOfBullets(u: string)
    requires forall i :: 0 <= i < |u| ==> IsBulletOrSpace(u[i])
    ensures StripBullets(u) == []
    decreases |u|
  {
    if u != [] {
      assert IsBulletOrSpace(u[0]);
      NothingLeftOfBullets(u[1..]);
    }
  }

  /** A blank or missing title sanitizes to "". */
  lemma BlankTitle(title: string)
    requires IsBlank(title)
    ensures SanitizeTitle(title) == ""
  {
    if title != "" {
      var lines := Split(title, '\n');
      if FirstNonBlank(lines).Some? {
        var k := FirstNonBlank(lines).value;
        LinesOfBlank(title, k);
      }
    }
  }

  /** The lines of a blank string are blank. */
  lemma {:induction false} LinesOfBlank(s: string, k: nat)
    requires IsBlank(s) && k < |Split(s, '\n')|
    ensures IsBlank(Split(s, '\n')[k])
    decreases |s|
  {
    if s != [] {
      var rest := Split(s[1..], '\n');
      if s[0] == '\n' {
        if k > 0 {
          LinesOfBlank(s[1..], k - 1);
        }
      } else if k == 0 {
        LinesOfBlank(s[1..], 0);
      } else {
        LinesOfBlank(s[1..], k);
      }
    }
  }
}
