/** Keyword extraction (`extractKeywords`, identical in server/gemini.js, lib/gemini.ts and,
    as `clientExtractKeywords`, on the summaries page) and the keyword tallies of the
    listing pages.

    The text is lowercased, every character other than `a-z`, `0-9` and white space becomes
    a space, and the words longer than two characters that are not stop words are counted
    in a plain object. The answer is `Object.keys(freq)` stably sorted by decreasing count
    and cut to the limit. `Object.keys` lists the integer-like keys ("2024") first, in
    increasing numeric order, and then the other keys in insertion order; the stable sort
    keeps that order among equal counts. */
module Keywords {
  import opened Strings

  const StopWords: set<string> := {
    "the", "and", "is", "in", "it", "of", "to", "a", "for", "that", "on", "with", "as", "are",
    "this", "be", "or", "an", "by", "from", "at", "was", "were", "which", "have", "has", "but",
    "not"
  }

  /** The default limit of the two server copies; the summaries page's copy defaults to 6. */
  const ServerDefaultLimit: nat := 8
  const ClientDefaultLimit: nat := 6

  predicate NoDups(s: seq<string>) {
    forall i, j :: 0 <= i < j < |s| ==> s[i] != s[j]
  }

  function Count(s: seq<string>, w: string): nat { multiset(s)[w] }

  // ---------------------------------------------------------------- tokenizing

  predicate IsTokenChar(c: char) { 'a' <= c <= 'z' || IsDigit(c) }

  predicate AllTokenChars(w: string) { forall i :: 0 <= i < |w| ==> IsTokenChar(w[i]) }

  predicate TokenOrSpace(s: string) { forall i :: 0 <= i < |s| ==> IsTokenChar(s[i]) || IsSpace(s[i]) }

  /** A word that may be a keyword: over three letters or digits and not a stop word. */
  predicate IsKeyword(w: string) { |w| > 2 && w !in StopWords && AllTokenChars(w) }

  /** `toLowerCase()` followed by `replace(/[^a-z0-9\s]/g, ' ')`, one character. */
  function NormalizeChar(c: char): (d: char)
    ensures IsTokenChar(d) || IsSpace(d)
  {
    var l := LowerChar(c);
    if IsTokenChar(l) || IsSpace(l) then l else ' '
  }

  function Normalize(text: string): (r: string)
    ensures |r| == |text| && TokenOrSpace(r)
    ensures forall i :: 0 <= i < |r| ==> r[i] == NormalizeChar(text[i])
  {
    seq(|text|, i requires 0 <= i < |text| => NormalizeChar(text[i]))
  }

  /** `.filter(w => w.length > 2 && !stop.has(w))`. */
  function KeepCandidates(ws: seq<string>): (r: seq<string>)
    ensures forall w :: w in r <==> (w in ws && |w| > 2 && w !in StopWords)
  {
    if ws == [] then []
    else (if |ws[0]| > 2 && ws[0] !in StopWords then [ws[0]] else []) + KeepCandidates(ws[1..])
  }

  /** The words that are counted, in text order. */
  function Tokens(text: string): (r: seq<string>)
    ensures forall w :: w in r ==> |w| > 2 && w !in StopWords
  {
    KeepCandidates(Words(Normalize(text)))
  }

  lemma TokenOrSpaceSuffix(s: string, k: nat)
    requires TokenOrSpace(s) && k <= |s|
    ensures TokenOrSpace(s[k..])
  {
    forall i | 0 <= i < |s| - k ensures IsTokenChar(s[k..][i]) || IsSpace(s[k..][i]) {
      assert s[k..][i] == s[k + i];
    }
  }

  lemma TokenWord(t: string, w: string)
    requires TokenOrSpace(t) && w <= t && NoSpace(w)
    ensures AllTokenChars(w)
  {
    forall i | 0 <= i < |w| ensures IsTokenChar(w[i]) {
      assert w[i] == t[i];
    }
  }

  /** Every word of the list is made of `a-z0-9` only. */
  predicate AllTokenWords(ws: seq<string>) {
    forall i :: 0 <= i < |ws| ==> AllTokenChars(ws[i])
  }

  lemma ConsTokenWords(w: string, ws: seq<string>)
    requires AllTokenChars(w) && AllTokenWords(ws)
    ensures AllTokenWords([w] + ws)
  {
    forall i | 0 <= i < |[w] + ws| ensures AllTokenChars(([w] + ws)[i]) {
      if i > 0 {
        assert ([w] + ws)[i] == ws[i - 1];
      }
    }
  }

  lemma {:induction false} WordsOfTokenText(s: string)
    requires TokenOrSpace(s)
    ensures AllTokenWords(Words(s))
    decreases |s|
  {
    var t := TrimStart(s);
    if t != [] {
      TokenOrSpaceSuffix(s, |s| - |t|);
      var w := TakeWord(t);
      TokenWord(t, w);
      var rest := t[|w|..];
      TokenOrSpaceSuffix(t, |w|);
      WordsOfTokenText(rest);
      ConsTokenWords(w, Words(rest));
      assert Words(s) == [w] + Words(rest);
    }
  }

  /** Every counted word is made of `a-z0-9`, longer than two and not a stop word. */
  lemma TokensAreKeywords(text: string)
    ensures forall w :: w in Tokens(text) ==> IsKeyword(w)
  {
    var ws := Words(Normalize(text));
    WordsOfTokenText(Normalize(text));
    forall w | w in Tokens(text) ensures IsKeyword(w) {
      assert w in ws;
    }
  }

  // ---------------------------------------------------------------- the frequency object

  /** The keys of the frequency object in insertion order: first occurrences. */
  function Distinct(s: seq<string>): seq<string>
  {
    if s == [] then []
    else
      var d := Distinct(s[..|s| - 1]);
      var w := s[|s| - 1];
      if w in d then d else d + [w]
  }

  lemma {:induction false} DistinctFacts(s: seq<string>)
    ensures NoDups(Distinct(s))
    ensures forall w :: w in Distinct(s) <==> w in s
  {
    if s != [] {
      var init := s[..|s| - 1];
      DistinctFacts(init);
      assert s == init + [s[|s| - 1]];
    }
  }

  function Get(m: map<string, nat>, w: string): nat { if w in m then m[w] else 0 }

  /** The frequency object: `freq[p] = (freq[p] || 0) + 1` for every word in turn. */
  function Tally(s: seq<string>): (m: map<string, nat>)
    ensures s == [] <==> m == map[]
  {
    if s == [] then map[]
    else
      var m := Tally(s[..|s| - 1]);
      var w := s[|s| - 1];
      m[w := Get(m, w) + 1]
  }

  lemma {:induction false} TallyFacts(s: seq<string>)
    ensures forall w :: w in Tally(s) <==> w in s
    ensures forall w :: Get(Tally(s), w) == Count(s, w)
  {
    if s != [] {
      var init := s[..|s| - 1];
      var last := s[|s| - 1];
      TallyFacts(init);
      assert s == init + [last];
      assert multiset(s) == multiset(init) + multiset{last};
      forall w ensures Get(Tally(s), w) == Count(s, w) {
        if w != last {
          assert Get(Tally(s), w) == Get(Tally(init), w);
        }
      }
    }
  }

  // ---------------------------------------------------------------- the plain object as written

  /** The names a plain object `{}` inherits from `Object.prototype`. Reading one that is
      not yet an own key gives a function (or, for "__proto__", the prototype itself),
      which is truthy, so `(freq[p] || 0) + 1` concatenates instead of adding. */
  const InheritedNames: set<string> := {
    "constructor", "__proto__", "__defineGetter__", "__defineSetter__", "__lookupGetter__",
    "__lookupSetter__", "hasOwnProperty", "isPrototypeOf", "propertyIsEnumerable",
    "toLocaleString", "toString", "valueOf"
  }

  /** A value of the frequency object as the source computes it: a count, or the string
      that `+ 1` makes of an inherited function ("function Object() { [native code] }1"),
      which stays a string however often one more "1" is appended. */
  datatype JsCount = Number(n: nat) | Concatenated

  /** `v + 1` on a value of the frequency object. */
  function PlusOne(v: JsCount): (r: JsCount)
    ensures v.Number? <==> r.Number?
    ensures v.Number? ==> r.n == v.n + 1
  {
    match v
    case Number(n) => Number(n + 1)
    case Concatenated => Concatenated
  }

  /** The frequency object exactly as `freq[p] = (freq[p] || 0) + 1` builds it on `{}`: an
      inherited name gets a string, and a string assigned to "__proto__" goes to the
      prototype setter, which ignores it, so that key never appears. */
  function ObjectTally(s: seq<string>): (m: map<string, JsCount>)
    ensures "__proto__" !in m
    ensures forall w :: w in m ==> w in s
  {
    if s == [] then map[]
    else
      var m := ObjectTally(s[..|s| - 1]);
      var w := s[|s| - 1];
      if w in m then m[w := PlusOne(m[w])]
      else if w == "__proto__" then m
      else if w in InheritedNames then m[w := Concatenated]
      else m[w := Number(1)]
  }

  /** Without inherited names among the words the object holds exactly the counts
      `Tally` gives: the model of the frequency object is exact for such words. */
  lemma {:induction false} ObjectTallyAgrees(s: seq<string>)
    requires forall i :: 0 <= i < |s| ==> s[i] !in InheritedNames
    ensures forall w :: w in ObjectTally(s) <==> w in Tally(s)
    ensures forall w :: w in Tally(s) ==> ObjectTally(s)[w] == Number(Tally(s)[w])
  {
    if s != [] {
      ObjectTallyAgrees(s[..|s| - 1]);
    }
  }

  /** As written, every inherited name other than "__proto__" that occurs gets a value
      that is not a number, and "__proto__" is never counted. */
  lemma {:induction false} InheritedNotCounted(s: seq<string>, w: string)
    requires w in InheritedNames && w != "__proto__" && w in s
    ensures w in ObjectTally(s) && ObjectTally(s)[w] == Concatenated
  {
    var init := s[..|s| - 1];
    if w in init {
      InheritedNotCounted(init, w);
    } else {
      assert s[|s| - 1] == w;
    }
  }

  /** For extraction the model of the frequency object is exact unless "constructor" is
      among the words: no other inherited name can be a word. */
  lemma ExtractionExact(text: string)
    requires "constructor" !in Tokens(text)
    ensures forall w :: w in ObjectTally(Tokens(text)) <==> w in Tally(Tokens(text))
    ensures forall w :: w in Tally(Tokens(text)) ==>
      ObjectTally(Tokens(text))[w] == Number(Tally(Tokens(text))[w])
  {
    var parts := Tokens(text);
    TokensAreKeywords(text);
    forall i | 0 <= i < |parts| ensures parts[i] !in InheritedNames {
      if parts[i] in InheritedNames {
        assert parts[i] in parts;
        OnlyConstructorIsToken(parts[i]);
      }
    }
    ObjectTallyAgrees(parts);
  }

  /** "budget constructor constructor": the source's count for "constructor" is a string
      where the intended count is 2. */
  lemma ConstructorNotCounted()
    ensures ObjectTally(["budget", "constructor", "constructor"])["constructor"] == Concatenated
    ensures Tally(["budget", "constructor", "constructor"])["constructor"] == 2
  {
    var s := ["budget", "constructor", "constructor"];
    InheritedNotCounted(s, "constructor");
    TallyFacts(s);
    assert s == ["budget"] + ["constructor"] + ["constructor"];
    assert multiset(s)["constructor"] == 2;
    assert "constructor" in s && Get(Tally(s), "constructor") == 2;
  }

  /** Of the inherited names only "constructor" can be an extracted word: all the others
      hold an upper-case letter or an underscore. */
  lemma OnlyConstructorIsToken(w: string)
    requires w in InheritedNames && AllTokenChars(w)
    ensures w == "constructor"
  {
    if w != "constructor" {
      var i := NonTokenIndex(w);
    }
  }

  /** Where an inherited name other than "constructor" holds a character that no word has. */
  function NonTokenIndex(w: string): (i: nat)
    requires w in InheritedNames && w != "constructor"
    ensures i < |w| && !IsTokenChar(w[i])
  {
    if w[0] == '_' then 0
    else if w == "hasOwnProperty" then 3
    else if w == "propertyIsEnumerable" then 8
    else if w == "valueOf" then 5
    else 2
  }

  // ---------------------------------------------------------------- Object.keys order

  /** A key that objects list before the others: a canonical decimal below 2^32 - 1. */
  predicate IsArrayIndex(w: string) {
    w != [] && AllDigits(w) && (|w| == 1 || w[0] != '0') && DigitsValue(w) < 4294967295
  }

  function IndexValue(w: string): nat { if AllDigits(w) then DigitsValue(w) else 0 }

  function IndexKeys(d: seq<string>): (r: seq<string>)
    ensures forall i :: 0 <= i < |r| ==> IsArrayIndex(r[i])
  {
    if d == [] then []
    else (if IsArrayIndex(d[0]) then [d[0]] else []) + IndexKeys(d[1..])
  }

  function OtherKeys(d: seq<string>): seq<string>
  {
    if d == [] then []
    else (if IsArrayIndex(d[0]) then [] else [d[0]]) + OtherKeys(d[1..])
  }

  lemma {:induction false} KeysPartition(d: seq<string>)
    ensures multiset(IndexKeys(d)) + multiset(OtherKeys(d)) == multiset(d)
  {
    if d != [] {
      KeysPartition(d[1..]);
      assert d == [d[0]] + d[1..];
    }
  }

  predicate AscendingByValue(s: seq<string>) {
    forall i, j :: 0 <= i < j < |s| ==> IndexValue(s[i]) <= IndexValue(s[j])
  }

  function InsertByValue(x: string, s: seq<string>): (r: seq<string>)
    ensures multiset(r) == multiset(s) + multiset{x}
  {
    if s == [] then [x]
    else if IndexValue(s[0]) <= IndexValue(x) then
      assert s == [s[0]] + s[1..];
      [s[0]] + InsertByValue(x, s[1..])
    else [x] + s
  }

  lemma {:induction false} InsertByValueAscending(x: string, s: seq<string>)
    requires AscendingByValue(s)
    ensures AscendingByValue(InsertByValue(x, s))
  {
    if s != [] && IndexValue(s[0]) <= IndexValue(x) {
      AscendingTail(s);
      InsertByValueAscending(x, s[1..]);
      InsertAtLeast(x, s[1..], IndexValue(s[0]));
      ConsAscending(s[0], InsertByValue(x, s[1..]));
    } else {
      forall i | 0 <= i < |s| ensures IndexValue(s[i]) >= IndexValue(x) {
        assert IndexValue(s[0]) <= IndexValue(s[i]);
      }
      ConsAscending(x, s);
    }
  }

  /** Every key of `s` has an index value of at least `v`. */
  predicate AtLeastValue(s: seq<string>, v: nat) {
    forall i :: 0 <= i < |s| ==> IndexValue(s[i]) >= v
  }

  lemma AscendingTail(s: seq<string>)
    requires s != [] && AscendingByValue(s)
    ensures AscendingByValue(s[1..]) && AtLeastValue(s[1..], IndexValue(s[0]))
  {
    forall i | 0 <= i < |s| - 1 ensures IndexValue(s[1..][i]) >= IndexValue(s[0]) {
      assert s[1..][i] == s[i + 1];
    }
    forall i, j | 0 <= i < j < |s| - 1 ensures IndexValue(s[1..][i]) <= IndexValue(s[1..][j]) {
      assert s[1..][i] == s[i + 1] && s[1..][j] == s[j + 1];
    }
  }

  lemma ConsAscending(a: string, s: seq<string>)
    requires AscendingByValue(s) && AtLeastValue(s, IndexValue(a))
    ensures AscendingByValue([a] + s)
  {
    var r := [a] + s;
    forall i, j | 0 <= i < j < |r| ensures IndexValue(r[i]) <= IndexValue(r[j]) {
      assert r[j] == s[j - 1];
      if i > 0 {
        assert r[i] == s[i - 1];
      }
    }
  }

  /** Inserting a key of value at least `v` keeps every value at least `v`. */
  lemma InsertAtLeast(x: string, s: seq<string>, v: nat)
    requires AtLeastValue(s, v) && IndexValue(x) >= v
    ensures AtLeastValue(InsertByValue(x, s), v)
  {
    var r := InsertByValue(x, s);
    forall i | 0 <= i < |r| ensures IndexValue(r[i]) >= v {
      var y := r[i];
      assert y in multiset(r);
      if y != x {
        assert y in multiset(s);
        var k :| 0 <= k < |s| && s[k] == y;
      }
    }
  }

  function SortByValue(s: seq<string>): (r: seq<string>)
    ensures multiset(r) == multiset(s)
    ensures AscendingByValue(r)
  {
    if s == [] then []
    else
      assert s == s[..|s| - 1] + [s[|s| - 1]];
      var sorted := SortByValue(s[..|s| - 1]);
      InsertByValueAscending(s[|s| - 1], sorted);
      InsertByValue(s[|s| - 1], sorted)
  }

  /** `Object.keys` of an object whose keys were inserted in the order `d`. */
  function ObjectKeys(d: seq<string>): (r: seq<string>)
    ensures multiset(r) == multiset(d)
  {
    KeysPartition(d);
    SortByValue(IndexKeys(d)) + OtherKeys(d)
  }

  // ---------------------------------------------------------------- the stable sort by count

  predicate SortedByCount(s: seq<string>, m: map<string, nat>) {
    forall i, j :: 0 <= i < j < |s| ==> Get(m, s[i]) >= Get(m, s[j])
  }

  /** Inserts `x` after every element counted at least as often: later keys stay behind
      earlier keys of equal count. */
  function InsertByCount(x: string, s: seq<string>, m: map<string, nat>): (r: seq<string>)
    ensures multiset(r) == multiset(s) + multiset{x}
  {
    if s == [] then [x]
    else if Get(m, s[0]) >= Get(m, x) then
      assert s == [s[0]] + s[1..];
      [s[0]] + InsertByCount(x, s[1..], m)
    else [x] + s
  }

  lemma {:induction false} InsertByCountSorted(x: string, s: seq<string>, m: map<string, nat>)
    requires SortedByCount(s, m)
    ensures SortedByCount(InsertByCount(x, s, m), m)
  {
    if s == [] {
    } else if Get(m, s[0]) >= Get(m, x) {
      SortedTail(s, m);
      InsertByCountSorted(x, s[1..], m);
      InsertAtMost(x, s[1..], m, Get(m, s[0]));
      ConsSorted(s[0], InsertByCount(x, s[1..], m), m);
    } else {
      ConsSorted(x, s, m);
    }
  }

  predicate AtMost(s: seq<string>, m: map<string, nat>, c: nat) {
    forall i :: 0 <= i < |s| ==> Get(m, s[i]) <= c
  }

  /** The tail of a sorted list is sorted and counted no more than its head. */
  lemma SortedTail(s: seq<string>, m: map<string, nat>)
    requires s != [] && SortedByCount(s, m)
    ensures SortedByCount(s[1..], m) && AtMost(s[1..], m, Get(m, s[0]))
  {
    forall i | 0 <= i < |s| - 1 ensures Get(m, s[1..][i]) <= Get(m, s[0]) {
      assert s[1..][i] == s[i + 1];
    }
    forall i, j | 0 <= i < j < |s| - 1 ensures Get(m, s[1..][i]) >= Get(m, s[1..][j]) {
      assert s[1..][i] == s[i + 1] && s[1..][j] == s[j + 1];
    }
  }

  /** A head counted at least as often as a sorted tail makes a sorted list. */
  lemma ConsSorted(a: string, s: seq<string>, m: map<string, nat>)
    requires SortedByCount(s, m) && AtMost(s, m, Get(m, a))
    ensures SortedByCount([a] + s, m)
  {
    var r := [a] + s;
    forall i, j | 0 <= i < j < |r| ensures Get(m, r[i]) >= Get(m, r[j]) {
      assert r[j] == s[j - 1];
      if i > 0 {
        assert r[i] == s[i - 1];
      }
    }
  }

  /** Inserting a key keeps a bound on the counts. */
  lemma {:induction false} InsertAtMost(x: string, s: seq<string>, m: map<string, nat>, c: nat)
    requires AtMost(s, m, c) && Get(m, x) <= c
    ensures AtMost(InsertByCount(x, s, m), m, c)
  {
    if s == [] {
    } else if Get(m, s[0]) >= Get(m, x) {
      AtMostTail(s, m, c);
      InsertAtMost(x, s[1..], m, c);
      AtMostCons(s[0], InsertByCount(x, s[1..], m), m, c);
    } else {
      AtMostCons(x, s, m, c);
    }
  }

  lemma AtMostTail(s: seq<string>, m: map<string, nat>, c: nat)
    requires s != [] && AtMost(s, m, c)
    ensures AtMost(s[1..], m, c)
  {
    forall i | 0 <= i < |s| - 1 ensures Get(m, s[1..][i]) <= c {
      assert s[1..][i] == s[i + 1];
    }
  }

  lemma AtMostCons(a: string, s: seq<string>, m: map<string, nat>, c: nat)
    requires Get(m, a) <= c && AtMost(s, m, c)
    ensures AtMost([a] + s, m, c)
  {
    var r := [a] + s;
    forall i | 0 <= i < |r| ensures Get(m, r[i]) <= c {
      if i > 0 {
        assert r[i] == s[i - 1];
      }
    }
  }

  /** `keys.sort((a, b) => m[b] - m[a])`: a stable sort by decreasing count. */
  function SortByCount(s: seq<string>, m: map<string, nat>): (r: seq<string>)
    ensures multiset(r) == multiset(s)
    ensures SortedByCount(r, m)
  {
    if s == [] then []
    else
      assert s == s[..|s| - 1] + [s[|s| - 1]];
      var sorted := SortByCount(s[..|s| - 1], m);
      InsertByCountSorted(s[|s| - 1], sorted, m);
      InsertByCount(s[|s| - 1], sorted, m)
  }

  /** A key counted no more often than any key before it goes to the end. */
  lemma {:induction false} InsertByCountLast(x: string, s: seq<string>, m: map<string, nat>)
    requires forall i :: 0 <= i < |s| ==> Get(m, s[i]) >= Get(m, x)
    ensures InsertByCount(x, s, m) == s + [x]
  {
    if s != [] {
      InsertByCountLast(x, s[1..], m);
      assert s == [s[0]] + s[1..];
    }
  }

  /** The sort is stable: keys already in decreasing count order keep their order. */
  lemma {:induction false} SortByCountStable(s: seq<string>, m: map<string, nat>)
    requires SortedByCount(s, m)
    ensures SortByCount(s, m) == s
  {
    if s != [] {
      var init := s[..|s| - 1];
      SortedInit(s, m);
      SortByCountStable(init, m);
      InsertByCountLast(s[|s| - 1], init, m);
      assert init + [s[|s| - 1]] == s;
    }
  }

  /** The front of a sorted list is sorted and counted at least as much as its last key. */
  lemma SortedInit(s: seq<string>, m: map<string, nat>)
    requires s != [] && SortedByCount(s, m)
    ensures SortedByCount(s[..|s| - 1], m)
    ensures forall i :: 0 <= i < |s| - 1 ==> Get(m, s[i]) >= Get(m, s[|s| - 1])
  {
  }

  // ---------------------------------------------------------------- the results

  /** All counted words, most frequent first. */
  function Ranked(parts: seq<string>): (r: seq<string>)
    ensures multiset(r) == multiset(Distinct(parts))
    ensures SortedByCount(r, Tally(parts))
  {
    SortByCount(ObjectKeys(Distinct(parts)), Tally(parts))
  }

  /** The `limit` most frequent of `parts`: the keyword tallies of the listing pages. */
  function TopCounted(parts: seq<string>, limit: nat): (r: seq<string>)
    ensures |r| <= limit && r <= Ranked(parts)
  {
    Take(Ranked(parts), limit)
  }

  /** `extractKeywords(text, limit)`. */
  function Keywords(text: string, limit: nat): (r: seq<string>)
    ensures text == [] ==> r == []
    ensures |r| <= limit
  {
    if text == [] then [] else TopCounted(Tokens(text), limit)
  }

  /** The loop of the source fills the frequency object; the keys are then listed,
      sorted and cut. */
  method ExtractKeywords(text: string, maxKeywords: nat) returns (keywords: seq<string>)
    ensures keywords == Keywords(text, maxKeywords)
  {
    if text == [] {
      return [];
    }
    var parts := Tokens(text);
    keywords := CountAndRank(parts, maxKeywords);
  }

  /** Counts `parts` into a frequency object (`freq`, with its keys in insertion order in
      `keys`) and returns the `limit` most frequent. */
  method CountAndRank(parts: seq<string>, limit: nat) returns (top: seq<string>)
    ensures top == TopCounted(parts, limit)
  {
    var freq: map<string, nat> := map[];
    var keys: seq<string> := [];
    var i := 0;
    while i < |parts|
      invariant 0 <= i <= |parts|
      invariant freq == Tally(parts[..i])
      invariant keys == Distinct(parts[..i])
    {
      freq, keys := CountOne(freq, keys, parts[..i], parts[i]);
      assert parts[..i + 1] == parts[..i] + [parts[i]];
      i := i + 1;
    }
    assert parts[..i] == parts;
    var sorted := SortByCount(ObjectKeys(keys), freq);
    top := Take(sorted, limit);
  }

  /** The keyword lists of the sessions, one after another. */
  function Flatten(lists: seq<seq<string>>): seq<string>
  {
    if lists == [] then [] else Flatten(lists[..|lists| - 1]) + lists[|lists| - 1]
  }

  /** The keyword lists a listing page's tally reads, item by item: `keywords` picks an
      item's stored list (a missing one being empty). */
  function KeywordLists<T>(items: seq<T>, keywords: T -> seq<string>): (r: seq<seq<string>>)
    ensures |r| == |items| && forall i :: 0 <= i < |items| ==> r[i] == keywords(items[i])
  {
    seq(|items|, i requires 0 <= i < |items| => keywords(items[i]))
  }

  /** The keyword tally of the listing pages: every keyword of every session is counted
      in a plain object, and the `limit` keys counted most often are shown. */
  method TallyLists(lists: seq<seq<string>>, limit: nat) returns (keys: seq<string>)
    ensures keys == TopCounted(Flatten(lists), limit)
  {
    var counts: map<string, nat> := map[];
    var order: seq<string> := [];
    for i := 0 to |lists|
      invariant counts == Tally(Flatten(lists[..i]))
      invariant order == Distinct(Flatten(lists[..i]))
    {
      var ks := lists[i];
      var done := Flatten(lists[..i]);
      assert done + ks[..0] == done;
      for j := 0 to |ks|
        invariant counts == Tally(done + ks[..j])
        invariant order == Distinct(done + ks[..j])
      {
        counts, order := CountOne(counts, order, done + ks[..j], ks[j]);
        assert done + ks[..j + 1] == done + ks[..j] + [ks[j]];
      }
      FlattenSnoc(lists, i);
      assert ks[..|ks|] == ks;
    }
    assert lists[..|lists|] == lists;
    keys := Take(SortByCount(ObjectKeys(order), counts), limit);
  }

  lemma FlattenSnoc(lists: seq<seq<string>>, i: nat)
    requires i < |lists|
    ensures Flatten(lists[..i + 1]) == Flatten(lists[..i]) + lists[i]
  {
    assert lists[..i + 1][..i] == lists[..i];
  }

  /** `counts[k] = (counts[k] || 0) + 1`, and a new key joins the key order. */
  method CountOne(counts: map<string, nat>, order: seq<string>, seen: seq<string>, k: string)
    returns (counts': map<string, nat>, order': seq<string>)
    requires counts == Tally(seen) && order == Distinct(seen)
    ensures counts' == Tally(seen + [k]) && order' == Distinct(seen + [k])
  {
    assert (seen + [k])[..|seen|] == seen;
    assert k in counts <==> k in order by {
      TallyFacts(seen);
      DistinctFacts(seen);
    }
    if k in counts {
      counts', order' := counts[k := counts[k] + 1], order;
    } else {
      counts', order' := counts[k := 1], order + [k];
    }
  }

  // ---------------------------------------------------------------- properties

  lemma {:induction false} NoDupsCount(s: seq<string>)
    ensures NoDups(s) <==> forall w :: multiset(s)[w] <= 1
    decreases |s|
  {
    if s != [] {
      var rest := s[1..];
      NoDupsCount(rest);
      assert s == [s[0]] + rest;
      assert multiset(s) == multiset{s[0]} + multiset(rest);
      if NoDups(s) {
        assert NoDups(rest) by {
          forall i, j | 0 <= i < j < |rest| ensures rest[i] != rest[j] {
            assert rest[i] == s[i + 1] && rest[j] == s[j + 1];
          }
        }
        assert s[0] !in rest;
      }
      if forall w :: multiset(s)[w] <= 1 {
        assert multiset(s)[s[0]] <= 1;
        assert multiset(s)[s[0]] == 1 + multiset(rest)[s[0]];
        assert multiset(rest)[s[0]] == 0;
        assert forall w :: multiset(rest)[w] <= 1 by {
          forall w ensures multiset(rest)[w] <= 1 {
            assert multiset(s)[w] >= multiset(rest)[w];
          }
        }
        forall i, j | 0 <= i < j < |s| ensures s[i] != s[j] {
          if i == 0 {
            assert s[j] == rest[j - 1];
          } else {
            assert s[i] == rest[i - 1] && s[j] == rest[j - 1];
          }
        }
      }
    }
  }

  /** The ranking lists every counted word exactly once, most frequent first. */
  lemma RankedFacts(parts: seq<string>)
    ensures NoDups(Ranked(parts))
    ensures forall w :: w in Ranked(parts) <==> w in parts
    ensures forall i, j :: 0 <= i < j < |Ranked(parts)| ==>
              Count(parts, Ranked(parts)[i]) >= Count(parts, Ranked(parts)[j])
  {
    var d := Distinct(parts);
    var r := Ranked(parts);
    DistinctFacts(parts);
    TallyFacts(parts);
    assert multiset(r) == multiset(d);
    NoDupsCount(d);
    NoDupsCount(r);
    forall w ensures w in r <==> w in parts {
      assert w in r <==> w in multiset(r);
      assert w in d <==> w in multiset(d);
    }
  }

  /** The tally keeps at most `limit` distinct words in decreasing count order, and leaves
      a word out only when the list is full of words counted at least as often. */
  lemma {:induction false} TopCountedFacts(parts: seq<string>, limit: nat)
    ensures var r := TopCounted(parts, limit);
      && |r| <= limit
      && NoDups(r)
      && (forall w :: w in r ==> w in parts)
      && (forall i, j :: 0 <= i < j < |r| ==> Count(parts, r[i]) >= Count(parts, r[j]))
      && (forall w :: w in parts && w !in r ==>
            |r| == limit && forall k :: k in r ==> Count(parts, w) <= Count(parts, k))
  {
    RankedFacts(parts);
    PrefixOfRanking(Ranked(parts), TopCounted(parts, limit), limit, parts);
  }

  /** The facts about a prefix of a duplicate-free ranking of `parts`. */
  lemma PrefixOfRanking(all: seq<string>, r: seq<string>, limit: nat, parts: seq<string>)
    requires NoDups(all) && forall w :: w in all <==> w in parts
    requires forall i, j :: 0 <= i < j < |all| ==> Count(parts, all[i]) >= Count(parts, all[j])
    requires r <= all && |r| == Min(limit, |all|)
    ensures |r| <= limit
    ensures NoDups(r)
    ensures forall w :: w in r ==> w in parts
    ensures forall i, j :: 0 <= i < j < |r| ==> Count(parts, r[i]) >= Count(parts, r[j])
    ensures forall w :: w in parts && w !in r ==>
      |r| == limit && forall k :: k in r ==> Count(parts, w) <= Count(parts, k)
  {
    assert forall i :: 0 <= i < |r| ==> r[i] == all[i];
    forall w | w in parts && w !in r
      ensures |r| == limit && forall k :: k in r ==> Count(parts, w) <= Count(parts, k)
    {
      assert w in all;
      var j :| 0 <= j < |all| && all[j] == w;
      assert j >= |r|;
      forall k | k in r ensures Count(parts, w) <= Count(parts, k) {
        var i :| 0 <= i < |r| && r[i] == k;
        assert all[i] == k;
      }
    }
  }

  /** The contract of `extractKeywords`: empty text gives no keywords; otherwise at most
      `limit` distinct keywords of the text, most frequent first, and a counted word is
      left out only when the list is full of words at least as frequent. */
  lemma KeywordsFacts(text: string, limit: nat)
    ensures text == [] ==> Keywords(text, limit) == []
    ensures var r := Keywords(text, limit); var parts := Tokens(text);
      && |r| <= limit
      && NoDups(r)
      && (forall w :: w in r ==> IsKeyword(w) && w in parts)
      && (forall i, j :: 0 <= i < j < |r| ==> Count(parts, r[i]) >= Count(parts, r[j]))
      && (text != [] ==> forall w :: w in parts && w !in r ==>
            |r| == limit && forall k :: k in r ==> Count(parts, w) <= Count(parts, k))
  {
    TokensAreKeywords(text);
    TopCountedFacts(Tokens(text), limit);
  }

  /** Integer-like words come first, in increasing numeric order, among equally frequent
      keywords. */
  lemma ExampleIntegerKeysFirst()
    ensures Ranked(["meeting", "2024", "budget", "42"]) == ["42", "2024", "meeting", "budget"]
  {
    var parts := ["meeting", "2024", "budget", "42"];
    ExampleDistinct(parts);
    ExampleObjectKeys(parts);
    var keys := ["42", "2024", "meeting", "budget"];
    ExampleTally(parts);
    SortByCountStable(keys, Tally(parts));
  }

  lemma ExampleDistinct(parts: seq<string>)
    requires parts == ["meeting", "2024", "budget", "42"]
    ensures Distinct(parts) == parts
  {
    assert Distinct(parts[..1]) == parts[..1] by {
      assert parts[..1][..0] == [];
    }
    assert Distinct(parts[..2]) == parts[..2] by {
      assert parts[..2][..1] == parts[..1];
    }
    assert Distinct(parts[..3]) == parts[..3] by {
      assert parts[..3][..2] == parts[..2];
    }
    assert parts[..4][..3] == parts[..3];
    assert parts[..4] == parts;
  }

  lemma ExampleObjectKeys(parts: seq<string>)
    requires parts == ["meeting", "2024", "budget", "42"]
    ensures ObjectKeys(parts) == ["42", "2024", "meeting", "budget"]
  {
    ExamplePartition(parts);
    ExampleSortByValue();
  }

  lemma ExamplePartition(parts: seq<string>)
    requires parts == ["meeting", "2024", "budget", "42"]
    ensures IndexKeys(parts) == ["2024", "42"]
    ensures OtherKeys(parts) == ["meeting", "budget"]
  {
    ExampleIndexKeys();
    var d3: seq<string> := ["42"];
    var d2: seq<string> := ["budget"] + d3;
    var d1: seq<string> := ["2024"] + d2;
    assert parts == ["meeting"] + d1;
    KeysCons("42", []);
    assert [] + ["42"] == d3;
    assert IndexKeys(d3) == ["42"] && OtherKeys(d3) == [];
    KeysCons("budget", d3);
    assert IndexKeys(d2) == ["42"] && OtherKeys(d2) == ["budget"];
    KeysCons("2024", d2);
    assert IndexKeys(d1) == ["2024", "42"] && OtherKeys(d1) == ["budget"];
    KeysCons("meeting", d1);
  }

  lemma ExampleSortByValue()
    ensures SortByValue(["2024", "42"]) == ["42", "2024"]
  {
    ExampleIndexKeys();
    assert ["2024", "42"][..1] == ["2024"] && ["2024"][..0] == [];
    assert InsertByValue("42", ["2024"]) == ["42", "2024"];
  }

  lemma KeysCons(w: string, d: seq<string>)
    ensures IndexKeys([w] + d) == (if IsArrayIndex(w) then [w] else []) + IndexKeys(d)
    ensures OtherKeys([w] + d) == (if IsArrayIndex(w) then [] else [w]) + OtherKeys(d)
  {
    assert ([w] + d)[1..] == d;
  }

  lemma ExampleIndexKeys()
    ensures IsArrayIndex("42") && IsArrayIndex("2024")
    ensures IndexValue("42") == 42 && IndexValue("2024") == 2024
    ensures !IsArrayIndex("meeting") && !IsArrayIndex("budget")
  {
    assert DigitsValue("42") == 42 by {
      assert "42"[..1] == "4" && "4"[..0] == [];
    }
    assert DigitsValue("2024") == 2024 by {
      assert "2024"[..3] == "202" && "202"[..2] == "20";
      assert "20"[..1] == "2" && "2"[..0] == [];
    }
  }

  /** Every word of the example occurs once. */
  lemma ExampleTally(parts: seq<string>)
    requires parts == ["meeting", "2024", "budget", "42"]
    ensures SortedByCount(["42", "2024", "meeting", "budget"], Tally(parts))
  {
    ExampleDistinct(parts);
    DistinctFacts(parts);
    TallyFacts(parts);
    var keys := ["42", "2024", "meeting", "budget"];
    forall i | 0 <= i < |keys| ensures Get(Tally(parts), keys[i]) == 1 {
      NoDupsCount(parts);
      assert keys[i] in parts;
    }
  }
}
