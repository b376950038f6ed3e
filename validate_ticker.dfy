/**
 * scripts/utils/validate_ticker.py: loading the symbols file into the
 * universe, normalising a ticker, and the exit code of the command line.
 * Finding the file on disk is left out: its state is a parameter.
 */
module ValidateTicker {
  import opened Text
  import opened Wrappers

  /** Python's universal newlines, used when a text file is iterated. */
  predicate IsNewline(c: char) {
    c == '\n' || c == '\r'
  }

  /** The lines a text file yields. A `\r\n` gives one empty line more than
      Python does, and empty lines are skipped. */
  function FileLines(text: string): seq<string> {
    SplitWhere(text, IsNewline)
  }

  /** The non-empty strings of `ts`, in order. */
  function NonEmpty(ts: seq<string>): (r: seq<string>)
    ensures |r| <= |ts|
  {
    if ts == [] then [] else NonEmpty(ts[..|ts| - 1]) + (if ts[|ts| - 1] != [] then [ts[|ts| - 1]] else [])
  }

  function StripEach(ts: seq<string>): (r: seq<string>)
    ensures |r| == |ts| && forall i :: 0 <= i < |ts| ==> r[i] == Strip(ts[i])
  {
    seq(|ts|, i requires 0 <= i < |ts| => Strip(ts[i]))
  }

  /** The tokens of a stripped line: its comma-separated, stripped parts
      when it has a comma, else the line itself. */
  function Tokenize(ln: string): seq<string> {
    if ',' in ln then StripEach(Split(ln, ',')) else [ln]
  }

  /** The tokens one line of the file contributes. */
  function LineTokens(ln: string): seq<string> {
    var s := Strip(ln);
    if s == [] then [] else NonEmpty(Tokenize(s))
  }

  /** The tokens of all the lines, in file order. */
  function Tokens(lines: seq<string>): seq<string> {
    if lines == [] then [] else Tokens(lines[..|lines| - 1]) + LineTokens(lines[|lines| - 1])
  }

  /** Only non-empty strings of `ts` pass the filter. */
  lemma {:induction false} NonEmptyShape(ts: seq<string>)
    ensures forall i :: 0 <= i < |NonEmpty(ts)| ==> NonEmpty(ts)[i] != [] && NonEmpty(ts)[i] in ts
  {
    if ts != [] {
      var init := ts[..|ts| - 1];
      NonEmptyShape(init);
      assert ts == init + [ts[|ts| - 1]];
    }
  }

  /** Every non-empty string of `ts` passes the filter. */
  lemma {:induction false} NonEmptyKeepsAll(ts: seq<string>, i: nat)
    requires i < |ts| && ts[i] != []
    ensures ts[i] in NonEmpty(ts)
  {
    if i < |ts| - 1 {
      NonEmptyKeepsAll(ts[..|ts| - 1], i);
    }
  }

  /** The filter keeps the order of the strings: filtering two runs is
      filtering each and concatenating. */
  lemma {:induction false} NonEmptyAppend(a: seq<string>, b: seq<string>)
    ensures NonEmpty(a + b) == NonEmpty(a) + NonEmpty(b)
    decreases |b|
  {
    if b == [] {
      assert a + b == a;
    } else {
      var init := b[..|b| - 1];
      assert (a + b)[..|a + b| - 1] == a + init;
      NonEmptyAppend(a, init);
    }
  }

  /** The tokens of a non-blank line: the line itself, stripped, when it
      has no comma; otherwise every comma-separated part that is not blank,
      stripped. */
  lemma LineTokensComplete(ln: string)
    ensures var s := Strip(ln); s != [] && ',' !in s ==> LineTokens(ln) == [s]
    ensures var s := Strip(ln); var parts := Split(s, ',');
      ',' in s ==> forall k :: 0 <= k < |parts| && Strip(parts[k]) != [] ==> Strip(parts[k]) in LineTokens(ln)
  {
    var s := Strip(ln);
    if s != [] && ',' !in s {
      assert NonEmpty([s]) == NonEmpty([]) + [s];
    }
    if ',' in s {
      var parts := Split(s, ',');
      forall k | 0 <= k < |parts| && Strip(parts[k]) != [] ensures Strip(parts[k]) in LineTokens(ln) {
        NonEmptyKeepsAll(StripEach(parts), k);
      }
    }
  }

  /** Every token of a line is a token of the file. */
  lemma {:induction false} TokensComplete(lines: seq<string>, i: nat, t: string)
    requires i < |lines| && t in LineTokens(lines[i])
    ensures t in Tokens(lines)
  {
    if i < |lines| - 1 {
      TokensComplete(lines[..|lines| - 1], i, t);
    }
  }

  /** Every token of a line is non-empty and stripped. */
  lemma LineTokensShape(ln: string)
    ensures forall i :: 0 <= i < |LineTokens(ln)| ==> LineTokens(ln)[i] != [] && IsStripped(LineTokens(ln)[i])
  {
    var s := Strip(ln);
    if s != [] {
      NonEmptyShape(Tokenize(s));
    }
  }

  /** Every token of the file is non-empty and stripped. */
  lemma {:induction false} TokensShape(lines: seq<string>)
    ensures forall i :: 0 <= i < |Tokens(lines)| ==> Tokens(lines)[i] != [] && IsStripped(Tokens(lines)[i])
  {
    if lines != [] {
      TokensShape(lines[..|lines| - 1]);
      LineTokensShape(lines[|lines| - 1]);
    }
  }

  /** The first token is dropped when it reads `SYMBOL` in any case. */
  function DropHeader(tokens: seq<string>): seq<string> {
    if tokens != [] && Upper(Strip(tokens[0])) == "SYMBOL" then tokens[1..] else tokens
  }

  /** What `_load_symbols` returns for a file holding `text`. */
  function SymbolSet(text: string): set<string> {
    set t | t in DropHeader(Tokens(FileLines(text))) && t != [] :: Upper(t)
  }

  /** `_load_symbols(path)` on a file holding `text`. */
  method LoadSymbols(text: string) returns (symbols: set<string>)
    ensures symbols == SymbolSet(text)
  {
    var lines := ReadTokens(FileLines(text));
    if lines != [] && Upper(Strip(lines[0])) == "SYMBOL" {
      lines := lines[1..];
    }
    symbols := set t | t in lines && t != [] :: Upper(t);
  }

  lemma TokensStep(lines: seq<string>, i: nat)
    requires i < |lines|
    ensures Tokens(lines[..i + 1]) == Tokens(lines[..i]) + LineTokens(lines[i])
  {
    assert lines[..i + 1][..i] == lines[..i];
  }

  /** The `for ln in f` loop of `_load_symbols`: the tokens of every line. */
  method ReadTokens(fileLines: seq<string>) returns (lines: seq<string>)
    ensures lines == Tokens(fileLines)
  {
    lines := [];
    for i := 0 to |fileLines|
      invariant lines == Tokens(fileLines[..i])
    {
      TokensStep(fileLines, i);
      var ln := Strip(fileLines[i]);
      if ln == [] {
        assert lines + [] == lines;
        continue;
      }
      var tokens := if ',' in ln then StripEach(Split(ln, ',')) else [ln];
      lines := AppendTokens(lines, tokens);
    }
    assert fileLines[..|fileLines|] == fileLines;
  }

  /** The `for t in tokens` loop: appends each non-empty token. */
  method AppendTokens(lines0: seq<string>, tokens: seq<string>) returns (lines: seq<string>)
    ensures lines == lines0 + NonEmpty(tokens)
  {
    lines := lines0;
    for k := 0 to |tokens|
      invariant lines == lines0 + NonEmpty(tokens[..k])
    {
      assert tokens[..k + 1][..k] == tokens[..k];
      if tokens[k] != [] {
        lines := lines + [tokens[k]];
      }
    }
    assert tokens[..|tokens|] == tokens;
  }

  /** Every symbol loaded is a non-empty, upper-case, stripped string, so it
      is its own normal form. */
  lemma SymbolSetNormal(text: string, t: string)
    requires t in SymbolSet(text)
    ensures t != [] && IsUpper(t) && IsStripped(t) && Normalize(Some(t)) == t
  {
    var u :| u in DropHeader(Tokens(FileLines(text))) && u != [] && t == Upper(u);
    assert u in Tokens(FileLines(text));
    TokensShape(FileLines(text));
    UpperStripped(u);
    UpperIsUpper(u);
    StripOfStripped(t);
    UpperOfUpper(t);
  }

  /** `normalize(t)`: `None` reads as the empty string. */
  function Normalize(t: Option<string>): (r: string)
    ensures IsStripped(r) && IsUpper(r)
  {
    var s := Strip(t.GetOr(""));
    UpperStripped(s);
    UpperIsUpper(s);
    Upper(s)
  }

  lemma NormalizeIdempotent(t: Option<string>)
    ensures Normalize(Some(Normalize(t))) == Normalize(t)
  {
    var n := Normalize(t);
    StripOfStripped(n);
    UpperOfUpper(n);
  }

  /** Padding and lower case do not change a ticker's normal form. */
  lemma NormalizePadded(a: string, t: string, b: string)
    requires AllSpace(a) && AllSpace(b) && IsStripped(t)
    ensures Normalize(Some(a + t + b)) == Normalize(Some(t)) == Upper(t)
  {
    StripPadded(a, t, b);
    StripOfStripped(t);
  }

  /** `is_valid_ticker(ticker, universe)`. */
  predicate IsValidTicker(ticker: Option<string>, universe: set<string>) {
    Normalize(ticker) in universe
  }

  /** A universe of normal forms accepts a ticker exactly when its normal
      form is a member; so every member of a loaded universe is valid. */
  lemma LoadedSymbolsValid(text: string, t: string)
    requires t in SymbolSet(text)
    ensures IsValidTicker(Some(t), SymbolSet(text))
  {
    SymbolSetNormal(text, t);
  }

  /** How the symbols file stands when `main` looks for it. */
  datatype SymbolsFile = NotFound | Unreadable | Contents(text: string)

  /** The tickers `main` checks: the arguments after the program name that
      are not blank, normalised. */
  function Requested(argv: seq<string>): (r: seq<string>)
    ensures |argv| <= 1 ==> r == []
    ensures forall i :: 0 <= i < |r| ==> IsStripped(r[i]) && IsUpper(r[i])
    decreases |argv|
  {
    if |argv| <= 1 then []
    else
      var a := argv[|argv| - 1];
      Requested(argv[..|argv| - 1]) + (if Strip(a) != [] then [Normalize(Some(a))] else [])
  }

  predicate AllIn(tickers: seq<string>, universe: set<string>) {
    forall i :: 0 <= i < |tickers| ==> tickers[i] in universe
  }

  /** `main(argv)`: 2 when no ticker is given, 1 when the symbols file is
      missing or cannot be read, else 0 exactly when every requested ticker
      is in the universe. The second result is the verdict printed for each
      requested ticker, in order. */
  method ValidateMain(argv: seq<string>, file: SymbolsFile) returns (code: int, verdicts: seq<(string, bool)>)
    ensures |argv| < 2 ==> code == 2 && verdicts == []
    ensures |argv| >= 2 && !file.Contents? ==> code == 1 && verdicts == []
    ensures |argv| >= 2 && file.Contents? ==>
      var universe := SymbolSet(file.text);
      var tickers := Requested(argv);
      && code == (if AllIn(tickers, universe) then 0 else 1)
      && |verdicts| == |tickers|
      && forall i :: 0 <= i < |tickers| ==> verdicts[i] == (tickers[i], tickers[i] in universe)
  {
    if |argv| < 2 {
      return 2, [];
    }
    if !file.Contents? {
      return 1, [];
    }
    var symbols := LoadSymbols(file.text);
    var allOk;
    allOk, verdicts := CheckAll(Requested(argv), symbols);
    code := if allOk then 0 else 1;
  }

  /** The `for t in tickers` loop of `main`. */
  method CheckAll(tickers: seq<string>, symbols: set<string>) returns (allOk: bool, verdicts: seq<(string, bool)>)
    ensures allOk <==> AllIn(tickers, symbols)
    ensures |verdicts| == |tickers|
    ensures forall i :: 0 <= i < |tickers| ==> verdicts[i] == (tickers[i], tickers[i] in symbols)
  {
    allOk := true;
    verdicts := [];
    for i := 0 to |tickers|
      invariant |verdicts| == i
      invariant forall j :: 0 <= j < i ==> verdicts[j] == (tickers[j], tickers[j] in symbols)
      invariant allOk <==> forall j :: 0 <= j < i ==> tickers[j] in symbols
    {
      var t := tickers[i];
      var ok := t in symbols;
      verdicts := verdicts + [(t, ok)];
      if !ok {
        allOk := false;
      }
    }
  }
}
