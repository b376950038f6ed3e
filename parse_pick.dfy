/**
 * `_parse_pick` of scripts/stock_picker.py: one raw model reply becomes a
 * (ticker, reason) pair, through the `TICKER_LINE` regular expression
 * `^([A-Z$.\-]{1,12})[:\-–\s]+(.+)$`, a whitespace split, or the sentinel
 * `UNKNOWN`.
 */
module ParsePick {
  import opened Text
  import opened Wrappers

  /** The class of the regex's first group, `[A-Z$.\-]`. */
  predicate IsHeadChar(c: char) {
    ('A' <= c <= 'Z') || c == '$' || c == '.' || c == '-'
  }

  /** The separator class `[:\-–\s]` (colon, hyphen, en dash, white space). */
  predicate IsSepChar(c: char) {
    c == ':' || c == '-' || c == '\U{2013}' || IsSpace(c)
  }

  /** How many characters of `[A-Z$.-]` start at `from`. */
  function HeadRun(s: string, from: nat): (n: nat)
    requires from <= |s|
    ensures from + n <= |s|
    ensures forall i :: from <= i < from + n ==> IsHeadChar(s[i])
    ensures from + n == |s| || !IsHeadChar(s[from + n])
    decreases |s| - from
  {
    if from < |s| && IsHeadChar(s[from]) then 1 + HeadRun(s, from + 1) else 0
  }

  /** How many separator characters start at `from`. */
  function SepRun(s: string, from: nat): (n: nat)
    requires from <= |s|
    ensures from + n <= |s|
    ensures forall i :: from <= i < from + n ==> IsSepChar(s[i])
    ensures from + n == |s| || !IsSepChar(s[from + n])
    decreases |s| - from
  {
    if from < |s| && IsSepChar(s[from]) then 1 + SepRun(s, from + 1) else 0
  }

  /** How many characters other than a line feed start at `from`: how far
      `.` reaches. */
  function LineRun(s: string, from: nat): (n: nat)
    requires from <= |s|
    ensures from + n <= |s|
    ensures forall i :: from <= i < from + n ==> s[i] != '\n'
    ensures from + n == |s| || s[from + n] == '\n'
    decreases |s| - from
  {
    if from < |s| && s[from] != '\n' then 1 + LineRun(s, from + 1) else 0
  }

  /** Where `(.+)$` ends when it starts at `from`: `.` never crosses a line
      feed, and `$` holds at the end of the text or just before a line feed
      that ends it; the group must not be empty. */
  function GroupEnd(s: string, from: nat): (e: Option<nat>)
    requires from <= |s|
    ensures e.Some? ==> from < e.value <= |s| && forall i :: from <= i < e.value ==> s[i] != '\n'
    ensures e.Some? ==> e.value == |s| || (e.value == |s| - 1 && s[e.value] == '\n')
  {
    var n := LineRun(s, from);
    if n == 0 then None
    else if from + n == |s| then Some(|s|)
    else if from + n == |s| - 1 then Some(|s| - 1)
    else None
  }

  /** `(.+)$` can follow a first group and separator ending at `head + sep`. */
  predicate GroupFits(s: string, head: nat, sep: nat) {
    head + sep <= |s| && GroupEnd(s, head + sep).Some?
  }

  /** The regex matches `s` with a first group of `head` characters and a
      separator run of `sep` characters. */
  predicate MatchesAt(s: string, head: nat, sep: nat) {
    && 1 <= head <= 12 && 1 <= sep && head + sep <= |s|
    && (forall i :: 0 <= i < head ==> IsHeadChar(s[i]))
    && (forall i :: head <= i < head + sep ==> IsSepChar(s[i]))
    && GroupFits(s, head, sep)
  }

  /** Backtracking over the separator: the run lengths `sep`, `sep - 1`, ..., 1
      after a first group of `head` characters. */
  function SearchSep(s: string, head: nat, sep: nat): (r: Option<nat>)
    requires head + sep <= |s|
    ensures r.Some? ==> 1 <= r.value <= sep && GroupFits(s, head, r.value)
    ensures r.Some? ==> forall k :: r.value < k <= sep ==> !GroupFits(s, head, k)
    ensures r.None? ==> forall k :: 1 <= k <= sep ==> !GroupFits(s, head, k)
  {
    if sep == 0 then None
    else if GroupFits(s, head, sep) then Some(sep)
    else SearchSep(s, head, sep - 1)
  }

  /** Backtracking over the first group: lengths `head`, `head - 1`, ..., 1,
      each with its own separator search. */
  function SearchHead(s: string, head: nat): (r: Option<(nat, nat)>)
    requires head <= |s| && head <= 12
    requires forall i :: 0 <= i < head ==> IsHeadChar(s[i])
    ensures r.Some? ==> MatchesAt(s, r.value.0, r.value.1)
    decreases head
  {
    if head == 0 then None
    else
      match SearchSep(s, head, SepRun(s, head))
      case Some(sep) =>
        SeparatorMatches(s, head, SepRun(s, head), sep);
        Some((head, sep))
      case None => SearchHead(s, head - 1)
  }

  function Min(a: int, b: int): int {
    if a <= b then a else b
  }

  /** `TICKER_LINE.match(s)`: the lengths of the first group and of the
      separator, in the order Python's backtracking tries them. */
  function MatchTickerLine(s: string): (r: Option<(nat, nat)>)
    ensures r.Some? ==> MatchesAt(s, r.value.0, r.value.1)
  {
    var run := HeadRun(s, 0);
    SearchHead(s, Min(12, run))
  }

  /** A separator length the search found completes a match. */
  lemma SeparatorMatches(s: string, head: nat, run: nat, sep: nat)
    requires 0 < head <= 12 && head <= |s|
    requires forall i :: 0 <= i < head ==> IsHeadChar(s[i])
    requires run == SepRun(s, head) && SearchSep(s, head, run) == Some(sep)
    ensures MatchesAt(s, head, sep)
  {
    assert forall i :: head <= i < head + sep ==> IsSepChar(s[i]);
  }

  /** A match found with lengths `(a, b)` is at least as long as the match
      `(h, k)`: a longer first group, or the same one with a separator as
      long. */
  predicate AtLeast(r: Option<(nat, nat)>, h: nat, k: nat) {
    r.Some? && (h < r.value.0 || (h == r.value.0 && k <= r.value.1))
  }

  /** Whatever lengths match, `SearchHead` finds a match at least as long:
      the greatest first group and, for it, the greatest separator. */
  lemma {:induction false} SearchHeadGreedy(s: string, head: nat, h: nat, k: nat)
    requires head <= |s| && head <= 12
    requires forall i :: 0 <= i < head ==> IsHeadChar(s[i])
    requires MatchesAt(s, h, k) && h <= head
    ensures AtLeast(SearchHead(s, head), h, k)
    decreases head
  {
    var found := SearchSep(s, head, SepRun(s, head));
    SearchHeadStep(s, head, found);
    if h == head {
      SepWithinRun(s, h, k);
    }
    if found.None? {
      SearchHeadGreedy(s, head - 1, h, k);
    }
  }

  /** One step of the search over the first group. */
  lemma SearchHeadStep(s: string, head: nat, found: Option<nat>)
    requires 0 < head <= |s| && head <= 12
    requires forall i :: 0 <= i < head ==> IsHeadChar(s[i])
    requires found == SearchSep(s, head, SepRun(s, head))
    ensures SearchHead(s, head) == if found.Some? then Some((head, found.value)) else SearchHead(s, head - 1)
  {
  }

  /** A separator that matches lies within the run of separator characters. */
  lemma SepWithinRun(s: string, h: nat, k: nat)
    requires MatchesAt(s, h, k)
    ensures k <= SepRun(s, h)
  {
  }

  /** The match is exactly the greatest pair of lengths that matches, first
      by the first group, then by the separator: Python's greedy
      quantifiers with backtracking. */
  lemma MatchTickerLineGreedy(s: string, h: nat, k: nat)
    requires MatchesAt(s, h, k)
    ensures AtLeast(MatchTickerLine(s), h, k)
  {
    var run := HeadRun(s, 0);
    SearchHeadGreedy(s, Min(12, run), h, k);
  }

  /** No match means no pair of lengths matches. */
  lemma MatchTickerLineComplete(s: string)
    ensures MatchTickerLine(s).None? <==> forall h: nat, k: nat :: !MatchesAt(s, h, k)
  {
    if MatchTickerLine(s).None? {
      forall h: nat, k: nat ensures !MatchesAt(s, h, k) {
        if MatchesAt(s, h, k) {
          MatchTickerLineGreedy(s, h, k);
        }
      }
    }
  }

  /** `s.split(None, 1)`: at most two pieces, the first word and the rest
      with its leading white space removed. */
  function SplitOnce(s: string): (parts: seq<string>)
    ensures |parts| <= 2
    ensures |parts| >= 1 ==> parts[0] != []
    ensures |parts| == 2 ==> parts[1] != []
  {
    var t := TrimStart(s);
    if t == [] then []
    else
      var i := FirstSpace(t);
      assert i != 0 by { assert !IsSpace(t[0]); }
      var rest := TrimStart(t[i..]);
      if rest == [] then [t[..i]] else [t[..i], rest]
  }

  /** The pair the regex branch returns: the first group upper-cased and the
      stripped third group. */
  function MatchedPick(t: string, head: nat, sep: nat): (string, string)
    requires MatchesAt(t, head, sep)
  {
    var e := GroupEnd(t, head + sep).value;
    (Upper(Strip(t[..head])), Strip(t[head + sep..e]))
  }

  /** The pair the whitespace-split branch returns, or `("UNKNOWN", t)`
      when there is no word at all. */
  function WordsPick(t: string): (string, string) {
    var parts := SplitOnce(t);
    if |parts| > 0 then (Upper(Strip(parts[0])), if |parts| > 1 then Strip(parts[1]) else "")
    else ("UNKNOWN", t)
  }

  /** `_parse_pick(text)`. */
  function ParsePick(text: string): (string, string) {
    var t := Strip(text);
    match MatchTickerLine(t)
    case Some((head, sep)) => MatchedPick(t, head, sep)
    case None => WordsPick(t)
  }

  /** A match that no longer first group and no longer separator can
      extend is the one `TICKER_LINE` finds. */
  lemma MatchExactly(s: string, h: nat, k: nat)
    requires MatchesAt(s, h, k)
    requires h == 12 || h == |s| || !IsHeadChar(s[h])
    requires h + k == |s| || !IsSepChar(s[h + k])
    ensures MatchTickerLine(s) == Some((h, k))
  {
    MatchTickerLineGreedy(s, h, k);
    var a, b := MatchTickerLine(s).value.0, MatchTickerLine(s).value.1;
    assert MatchesAt(s, a, b);
    SomePair(MatchTickerLine(s), h, k);
  }

  lemma SomePair(m: Option<(nat, nat)>, h: nat, k: nat)
    requires m.Some? && m.value.0 == h && m.value.1 == k
    ensures m == Some((h, k))
  {
  }

  /** Blank text gives exactly `("UNKNOWN", "")`. */
  lemma ParsePickBlank(text: string)
    requires AllSpace(text)
    ensures ParsePick(text) == ("UNKNOWN", "")
  {
    StripAllSpace(text);
  }

  /** On a stripped text, `(.+)$` runs to the very end: a final line feed
      would have been stripped. */
  lemma MatchRunsToEnd(t: string, head: nat, sep: nat)
    requires IsStripped(t) && MatchesAt(t, head, sep)
    ensures GroupEnd(t, head + sep).value == |t|
  {
  }

  /** A run of `[A-Z$.-]` is left alone by `strip` and `upper`. */
  lemma HeadUnchanged(g: string)
    requires g != [] && forall i :: 0 <= i < |g| ==> IsHeadChar(g[i])
    ensures Upper(Strip(g)) == g
  {
    assert IsStripped(g) && IsUpper(g);
    StripOfStripped(g);
    UpperOfUpper(g);
  }

  /** The stripped tail of a stripped text is not empty, and has no line feed
      when the tail has none. */
  lemma TailReason(t: string, from: nat)
    requires IsStripped(t) && from < |t|
    requires forall i :: from <= i < |t| ==> t[i] != '\n'
    ensures Strip(t[from..]) != []
    ensures '\n' !in Strip(t[from..])
  {
    var rest := t[from..];
    assert rest[|rest| - 1] == t[|t| - 1];
    StripNotEmpty(rest);
    assert forall i :: 0 <= i < |rest| ==> rest[i] == t[from + i];
    StripWithout(rest, '\n');
  }

  /** On a stripped text that matches, the ticker is the first group itself
      and the reason is the rest of the text, stripped: never empty, and
      without a line feed. */
  lemma MatchedPickShape(t: string, head: nat, sep: nat)
    requires IsStripped(t) && MatchesAt(t, head, sep)
    ensures MatchedPick(t, head, sep).0 == t[..head]
    ensures MatchedPick(t, head, sep).1 == Strip(t[head + sep..])
    ensures MatchedPick(t, head, sep).1 != []
    ensures '\n' !in MatchedPick(t, head, sep).1
  {
    HeadUnchanged(t[..head]);
    MatchRunsToEnd(t, head, sep);
    assert t[head + sep..GroupEnd(t, head + sep).value] == t[head + sep..];
    TailReason(t, head + sep);
  }

  /** When `TICKER_LINE` matches, the ticker is its first group, 1 to 12
      characters of `[A-Z$.-]`, and the reason is the rest of the line,
      stripped: never empty and without a line feed. */
  lemma ParsePickMatched(text: string, head: nat, sep: nat)
    requires MatchTickerLine(Strip(text)) == Some((head, sep))
    ensures 1 <= head <= 12 && forall i :: 0 <= i < head ==> IsHeadChar(Strip(text)[i])
    ensures ParsePick(text).0 == Strip(text)[..head]
    ensures ParsePick(text).1 == Strip(Strip(text)[head + sep..])
    ensures ParsePick(text).1 != [] && '\n' !in ParsePick(text).1
  {
    MatchedPickShape(Strip(text), head, sep);
  }

  /** On a stripped non-blank text, the first piece of the split is the
      first word. */
  lemma SplitOnceWord(t: string)
    requires IsStripped(t) && t != []
    ensures |SplitOnce(t)| >= 1 && SplitOnce(t)[0] == t[..FirstSpace(t)]
  {
    assert TrimStart(t) == t;
  }

  /** The second piece, when there is one, strips to the stripped rest of
      the text; when there is none, the rest is blank. */
  /** On stripped text the split starts at the text itself. */
  lemma SplitOnceOf(t: string)
    requires IsStripped(t) && t != []
    ensures var i := FirstSpace(t);
      var rest := TrimStart(t[i..]);
      SplitOnce(t) == if rest == [] then [t[..i]] else [t[..i], rest]
  {
    assert TrimStart(t) == t;
  }

  lemma SplitOnceRest(t: string)
    requires IsStripped(t) && t != []
    ensures |SplitOnce(t)| == 2 ==> Strip(SplitOnce(t)[1]) == Strip(t[FirstSpace(t)..])
    ensures |SplitOnce(t)| < 2 ==> Strip(t[FirstSpace(t)..]) == []
  {
    var rest := t[FirstSpace(t)..];
    SplitOnceOf(t);
    if TrimStart(rest) != [] {
      StripTrimStart(rest);
    }
  }


  /** On a stripped non-blank text, the split branch gives the first word
      upper-cased and the stripped remainder, empty when there is none. */
  lemma WordsPickShape(t: string)
    requires IsStripped(t) && t != []
    ensures WordsPick(t).0 == Upper(t[..FirstSpace(t)])
    ensures WordsPick(t).1 == Strip(t[FirstSpace(t)..])
  {
    SplitOnceWord(t);
    SplitOnceRest(t);
    var word := t[..FirstSpace(t)];
    assert IsStripped(word);
    StripOfStripped(word);
  }

  /** When `TICKER_LINE` does not match a non-blank text, the ticker is its
      first word upper-cased and the reason is the stripped remainder. */
  lemma ParsePickFallback(text: string)
    requires MatchTickerLine(Strip(text)).None? && Strip(text) != []
    ensures var t := Strip(text);
      var i := FirstSpace(t);
      ParsePick(text).0 == Upper(t[..i]) && ParsePick(text).1 == Strip(t[i..])
  {
    WordsPickShape(Strip(text));
  }

  lemma ColonMatch(t: string)
    requires t == "AAPL: strong earnings beat"
    ensures MatchTickerLine(t) == Some((4, 2))
  {
    assert t[..4] == "AAPL" && t[4] == ':' && t[5] == ' ' && t[6] == 's';
    assert LineRun(t, 6) == |t| - 6;
    MatchExactly(t, 4, 2);
  }

  lemma ColonReason(t: string)
    requires t == "AAPL: strong earnings beat"
    ensures Strip(t[6..]) == "strong earnings beat"
  {
    var r := t[6..];
    assert r == "strong earnings beat";
    assert r[0] == 's' && r[|r| - 1] == 't';
    StripOfStripped(r);
  }

  /** `AAPL: strong earnings beat`: the regex branch, with a colon and a
      space as separator. */
  lemma ParsePickColon(t: string)
    requires t == "AAPL: strong earnings beat"
    ensures ParsePick(t) == ("AAPL", "strong earnings beat")
  {
    assert t[0] == 'A' && t[|t| - 1] == 't';
    StripOfStripped(t);
    ColonMatch(t);
    MatchedPickShape(t, 4, 2);
    ColonReason(t);
    assert t[..4] == "AAPL";
  }

  lemma ParsePickEmpty()
    ensures ParsePick("") == ("UNKNOWN", "")
  {
    ParsePickBlank("");
  }
}
