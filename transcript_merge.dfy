/** Overlap-aware joining of transcript fragments, as the recording panel does when it
    combines the final transcript with the interim one (`getCombinedTranscript`) and when it
    appends a server-provided final chunk (`appendUniqueFinal`).

    The joined text starts with the base and ends with the fragment; when the base ends in
    a prefix of the fragment, that prefix is written once, otherwise the two are separated
    by a line feed. */
module TranscriptMerge {
  import opened Strings

  /** A string without white space at either end: what `trim` returns. */
  predicate Trimmed(s: string) {
    s == [] || (!IsSpace(s[0]) && !IsSpace(s[|s| - 1]))
  }

  /** The last `i` characters of `base` are the first `i` characters of `inter`. */
  predicate OverlapsAt(base: string, inter: string, i: nat)
    requires i <= |base| && i <= |inter|
  {
    base[|base| - i..] == inter[..i]
  }

  /** The largest overlap not above `i`, found by trying `i`, `i - 1`, ... down to 1. */
  function OverlapFrom(base: string, inter: string, i: nat): (k: nat)
    requires i <= |base| && i <= |inter|
    ensures k <= i && OverlapsAt(base, inter, k)
    ensures forall j :: k < j <= i ==> !OverlapsAt(base, inter, j)
  {
    if i == 0 then 0
    else if OverlapsAt(base, inter, i) then i
    else OverlapFrom(base, inter, i - 1)
  }

  /** The longest suffix of `base` that is a prefix of `inter` (0 when there is none). */
  function Overlap(base: string, inter: string): (k: nat)
    ensures k <= |base| && k <= |inter| && OverlapsAt(base, inter, k)
    ensures forall j :: k < j <= Min(|base|, |inter|) ==> !OverlapsAt(base, inter, j)
  {
    OverlapFrom(base, inter, Min(|base|, |inter|))
  }

  /** The join of two already-trimmed transcript pieces. */
  function Merge(base: string, inter: string): (r: string)
    ensures base <= r && EndsWith(r, inter)
    ensures base == [] ==> r == inter
    ensures inter == [] ==> r == base
  {
    if base == [] then inter
    else if inter == [] then base
    else if EndsWith(base, inter) then base
    else
      var k := Overlap(base, inter);
      assert base[|base| - k..] == inter[..k];
      var r := base + (if k > 0 then "" else "\n") + inter[k..];
      assert r[|r| - |inter|..] == base[|base| - k..] + inter[k..] by {
        if k > 0 {
          assert r[|r| - |inter|..] == r[|base| - k..];
        }
      }
      r
  }

  /** `getCombinedTranscript`: both pieces are trimmed, then merged. */
  function Combined(finalText: string, interimText: string): (r: string)
    ensures Trim(finalText) <= r && EndsWith(r, Trim(interimText))
  {
    Merge(Trim(finalText), Trim(interimText))
  }

  /** The new final transcript after `appendUniqueFinal(newText)`: blank text changes nothing. */
  function AppendUnique(prev: string, newText: string): (r: string)
    ensures IsBlank(newText) ==> r == prev
    ensures !IsBlank(newText) ==> Trim(prev) <= r && EndsWith(r, Trim(newText))
  {
    if IsBlank(newText) then prev else Merge(Trim(prev), Trim(newText))
  }

  // ---------------------------------------------------------------- the source's loops

  /** The overlap search loop: counts down from the shorter length and stops at the
      first length whose suffix and prefix agree. */
  method FindOverlap(base: string, inter: string) returns (k: nat)
    ensures k == Overlap(base, inter)
  {
    var maxOverlap := Min(|base|, |inter|);
    var i := maxOverlap;
    while i > 0 && base[|base| - i..] != inter[..i]
      invariant 0 <= i <= maxOverlap
      invariant forall j :: i < j <= maxOverlap ==> !OverlapsAt(base, inter, j)
    {
      i := i - 1;
    }
    k := i;
    OverlapUnique(base, inter, k);
  }

  /** The overlap is characterised by being a match with no longer match above it. */
  lemma OverlapUnique(base: string, inter: string, k: nat)
    requires k <= Min(|base|, |inter|) && OverlapsAt(base, inter, k)
    requires forall j :: k < j <= Min(|base|, |inter|) ==> !OverlapsAt(base, inter, j)
    ensures k == Overlap(base, inter)
  {
  }

  /** The merge step shared by both source functions, with the overlap found by the loop. */
  method MergePieces(base: string, inter: string) returns (r: string)
    ensures r == Merge(base, inter)
  {
    if base == [] {
      return inter;
    }
    if inter == [] {
      return base;
    }
    if |inter| <= |base| && base[|base| - |inter|..] == inter {
      return base;
    }
    var overlap := FindOverlap(base, inter);
    r := base + (if overlap > 0 then "" else "\n") + inter[overlap..];
  }

  method GetCombinedTranscript(finalText: string, interimText: string) returns (r: string)
    ensures r == Combined(finalText, interimText)
  {
    r := MergePieces(Trim(finalText), Trim(interimText));
  }

  method AppendUniqueFinal(prev: string, newText: string) returns (next: string)
    ensures next == AppendUnique(prev, newText)
  {
    var t := Trim(newText);
    if t == [] {
      return prev;
    }
    next := MergePieces(Trim(prev), t);
  }

  // ---------------------------------------------------------------- properties

  /** When the base already ends with the fragment the overlap is the whole fragment, so
      the source's `endsWith` shortcut gives what the overlap search would have given. */
  lemma EndsWithMeansFullOverlap(base: string, inter: string)
    requires EndsWith(base, inter)
    ensures Overlap(base, inter) == |inter|
  {
    assert inter[..|inter|] == inter;
    assert OverlapsAt(base, inter, |inter|);
  }

  /** Any string that starts with `base` and ends with `inter` is at least as long as the
      merge with the overlap: the overlap search yields a shortest such string. */
  lemma OverlapIsMaximal(base: string, inter: string, s: string)
    requires base <= s && EndsWith(s, inter)
    requires |inter| <= |s|
    ensures |s| >= |base| + |inter| - Overlap(base, inter)
  {
    var k := Overlap(base, inter);
    if |s| < |base| + |inter| - k {
      var j := |base| + |inter| - |s|;
      assert k < j <= Min(|base|, |inter|);
      assert base[|base| - j..] == s[|base| - j..|base|];
      assert inter[..j] == s[|s| - |inter|..][..j];
      assert OverlapsAt(base, inter, j);
    }
  }

  /** Exact length of a merge: with an overlap `k > 0` the shared text is written once,
      with none a line feed separates the pieces. */
  lemma MergeLength(base: string, inter: string)
    requires base != [] && inter != [] && !EndsWith(base, inter)
    ensures var k := Overlap(base, inter);
      |Merge(base, inter)| == |base| + |inter| - k + (if k == 0 then 1 else 0)
  {
  }

  /** With no overlap the result is exactly `base + "\n" + inter`. */
  lemma NoOverlapJoinsWithNewline(base: string, inter: string)
    requires base != [] && inter != [] && Overlap(base, inter) == 0
    ensures Merge(base, inter) == base + "\n" + inter
  {
    assert inter[0..] == inter;
    if EndsWith(base, inter) {
      EndsWithMeansFullOverlap(base, inter);
    }
  }

  /** With a positive overlap the merge is the shortest string starting with `base` and
      ending with `inter` (no longer than either piece would allow). */
  lemma OverlapMergeIsShortest(base: string, inter: string, s: string)
    requires Overlap(base, inter) > 0
    requires base <= s && EndsWith(s, inter)
    ensures |Merge(base, inter)| <= |s|
  {
    if EndsWith(base, inter) {
      assert |Merge(base, inter)| == |base|;
    } else {
      OverlapIsMaximal(base, inter, s);
    }
  }

  /** Merging trimmed pieces gives a trimmed result. */
  lemma MergeTrimmed(base: string, inter: string)
    requires Trimmed(base) && Trimmed(inter)
    ensures Trimmed(Merge(base, inter))
  {
    var r := Merge(base, inter);
    if base != [] && inter != [] {
      assert r[0] == base[0];
      assert r[|r| - 1] == inter[|inter| - 1] by {
        assert r[|r| - |inter|..] == inter;
      }
    }
  }

  lemma TrimIsTrimmed(s: string)
    ensures Trimmed(Trim(s))
  {
  }

  /** Appending the same final chunk twice has the effect of appending it once. */
  lemma AppendUniqueIdempotent(prev: string, newText: string)
    ensures AppendUnique(AppendUnique(prev, newText), newText) == AppendUnique(prev, newText)
  {
    if !IsBlank(newText) {
      var t := Trim(newText);
      var once := Merge(Trim(prev), t);
      MergedIsTrimmed(prev, newText);
      MergeAbsorbsSuffix(once, t);
    }
  }

  lemma MergedIsTrimmed(prev: string, newText: string)
    ensures var once := Merge(Trim(prev), Trim(newText)); Trim(once) == once
  {
    TrimIsTrimmed(prev);
    TrimIsTrimmed(newText);
    MergeKeepsTrim(Trim(prev), Trim(newText));
  }

  lemma MergeKeepsTrim(a: string, b: string)
    requires Trimmed(a) && Trimmed(b)
    ensures Trim(Merge(a, b)) == Merge(a, b)
  {
    MergeTrimmed(a, b);
    TrimOfTrimmed(Merge(a, b));
  }

  /** Merging a piece the base already ends with leaves the base unchanged. */
  lemma MergeAbsorbsSuffix(base: string, inter: string)
    requires EndsWith(base, inter)
    ensures Merge(base, inter) == base
  {
  }

  /** For non-blank text, `appendUniqueFinal` produces what `getCombinedTranscript` would
      show for the same two pieces. */
  lemma AppendUniqueIsCombined(prev: string, newText: string)
    requires !IsBlank(newText)
    ensures AppendUnique(prev, newText) == Combined(prev, newText)
  {
  }

  lemma ExampleOverlap()
    ensures Merge("hello wor", "world") == "hello world"
  {
    var b, i := "hello wor", "world";
    assert OverlapsAt(b, i, 3);
    assert b[|b| - 5..][0] == 'o' != 'w' == i[..5][0];
    assert b[|b| - 4..][0] == ' ' != 'w' == i[..4][0];
    assert Overlap(b, i) == 3;
  }

  lemma ExampleNoOverlap()
    ensures Merge("abc", "xyz") == "abc\nxyz"
  {
    var b, i := "abc", "xyz";
    assert !OverlapsAt(b, i, 3) && !OverlapsAt(b, i, 2) && !OverlapsAt(b, i, 1);
    assert Overlap(b, i) == 0;
  }
}
