/**
 * The symbols file as both scripts see it: scripts/get_ticker_list.py
 * writes the universe, scripts/utils/validate_ticker.py reads it back.
 * Reading what was written gives back the set of symbols, upper-cased,
 * as long as no symbol holds a comma or a line break.
 */
module Universe {
  import opened Text
  import opened Wrappers
  import opened TickerList
  import opened ValidateTicker

  /** A symbol the file format carries unchanged: non-empty, stripped, and
      free of the comma and newline characters the reader splits at. */
  predicate Plain(s: string) {
    s != [] && IsStripped(s) && ',' !in s && forall j :: 0 <= j < |s| ==> !IsNewline(s[j])
  }

  lemma SplitAtFirst(a: string, c: char, rest: string)
    requires forall j :: 0 <= j < |a| ==> !IsNewline(a[j])
    requires IsNewline(c)
    ensures FileLines(a + [c] + rest) == [a] + FileLines(rest)
  {
    var s := a + [c] + rest;
    var i := FirstIndex(s, IsNewline);
    assert s[|a|] == c;
    assert i == |a|;
    assert s[..i] == a && s[i + 1..] == rest;
  }

  /** The lines of the file body are the symbols, then the empty text after
      the last newline. */
  lemma {:induction false} FileLinesOfBody(syms: seq<string>)
    requires forall i :: 0 <= i < |syms| ==> Plain(syms[i])
    ensures FileLines(LinesText(syms)) == syms + [""]
  {
    if syms == [] {
      assert FirstIndex([], IsNewline) == 0;
    } else {
      FileLinesOfBody(syms[1..]);
      SplitAtFirst(syms[0], '\n', LinesText(syms[1..]));
      assert syms == [syms[0]] + syms[1..];
    }
  }

  lemma {:induction false} TokensAppend(a: seq<string>, b: seq<string>)
    ensures Tokens(a + b) == Tokens(a) + Tokens(b)
  {
    if b == [] {
      assert a + b == a;
    } else {
      var init, last := b[..|b| - 1], b[|b| - 1];
      TokensAppend(a, init);
      assert (a + b)[..|a + b| - 1] == a + init && (a + b)[|a + b| - 1] == last;
      var lt := LineTokens(last);
      assert Tokens(a + b) == Tokens(a + init) + lt;
      assert Tokens(b) == Tokens(init) + lt;
      AppendAssoc(Tokens(a), Tokens(init), lt);
    }
  }

  lemma LineTokensOfPlain(s: string)
    requires Plain(s)
    ensures LineTokens(s) == [s]
  {
    StripOfStripped(s);
    assert Tokenize(s) == [s];
    assert [s][..0] == [];
  }

  lemma SnocSlice(s: seq<string>)
    requires s != []
    ensures s[..|s| - 1] + [s[|s| - 1]] == s
  {
  }

  /** A file whose lines are plain symbols yields those symbols as tokens. */
  lemma {:induction false} TokensOfPlain(syms: seq<string>)
    requires forall i :: 0 <= i < |syms| ==> Plain(syms[i])
    ensures Tokens(syms) == syms
  {
    if syms != [] {
      var init, last := syms[..|syms| - 1], syms[|syms| - 1];
      TokensOfPlain(init);
      LineTokensOfPlain(last);
      SnocSlice(syms);
    }
  }

  lemma HeaderIsDropped(syms: seq<string>)
    ensures DropHeader(["Symbol"] + syms) == syms
  {
    var h := "Symbol";
    assert IsStripped(h) by {
      assert h[0] == 'S' && h[|h| - 1] == 'l';
    }
    StripOfStripped(h);
    assert Upper(h) == "SYMBOL";
    assert (["Symbol"] + syms)[0] == h && (["Symbol"] + syms)[1..] == syms;
  }

  /** The lines of a universe file: the header, the symbols, and the empty
      text after the last newline. */
  lemma UniverseLines(syms: seq<string>)
    requires forall i :: 0 <= i < |syms| ==> Plain(syms[i])
    ensures FileLines(UniverseText(syms)) == ["Symbol"] + syms + [""]
  {
    assert UniverseText(syms) == "Symbol" + ['\n'] + LinesText(syms);
    SplitAtFirst("Symbol", '\n', LinesText(syms));
    FileLinesOfBody(syms);
    AppendAssoc(["Symbol"], syms, [""]);
  }

  lemma HeaderTokens()
    ensures Tokens(["Symbol"]) == ["Symbol"]
  {
    assert Plain("Symbol") by {
      assert "Symbol"[0] == 'S' && "Symbol"[5] == 'l';
    }
    TokensOfPlain(["Symbol"]);
  }

  lemma TokensOfEmptyLine()
    ensures Tokens([""]) == []
  {
    StripOfStripped("");
    assert [""][..0] == [];
  }

  /** The tokens of a universe file are its header and its symbols. */
  lemma UniverseTokens(syms: seq<string>)
    requires forall i :: 0 <= i < |syms| ==> Plain(syms[i])
    ensures Tokens(FileLines(UniverseText(syms))) == ["Symbol"] + syms
  {
    UniverseLines(syms);
    TokensAppend(["Symbol"] + syms, [""]);
    TokensAppend(["Symbol"], syms);
    TokensOfEmptyLine();
    HeaderTokens();
    TokensOfPlain(syms);
    assert ["Symbol"] + syms + [] == ["Symbol"] + syms;
  }

  /** Reading back a universe file gives the upper-cased symbols written. */
  lemma ReadWritten(syms: seq<string>)
    requires forall i :: 0 <= i < |syms| ==> Plain(syms[i])
    ensures SymbolSet(UniverseText(syms)) == set s | s in syms :: Upper(s)
  {
    UniverseTokens(syms);
    HeaderIsDropped(syms);
    assert DropHeader(Tokens(FileLines(UniverseText(syms)))) == syms;
  }

  /** The universe `main` writes from two directories reads back as the set
      of their symbols, upper-cased. */
  lemma UniverseRoundTrip(nasdaq: seq<string>, other: seq<string>)
    requires forall i :: 0 <= i < |nasdaq| ==> Plain(nasdaq[i])
    requires forall i :: 0 <= i < |other| ==> Plain(other[i])
    ensures SymbolSet(UniverseText(UniverseSymbols(nasdaq, other))) == set s | s in nasdaq + other :: Upper(s)
  {
    var u := UniverseSymbols(nasdaq, other);
    UniverseShape(nasdaq, other);
    forall i | 0 <= i < |u| ensures Plain(u[i]) {
      assert u[i] in nasdaq + other;
      var j :| 0 <= j < |nasdaq + other| && (nasdaq + other)[j] == u[i];
      if j >= |nasdaq| {
        assert (nasdaq + other)[j] == other[j - |nasdaq|];
      }
    }
    ReadWritten(u);
  }

  /** A parsed symbol without a comma can be written to the file. */
  lemma ParsedPlain(text: string, fields: seq<string>)
    requires var syms := Symbols(text, fields); forall i :: 0 <= i < |syms| ==> ',' !in syms[i]
    ensures var syms := Symbols(text, fields); forall i :: 0 <= i < |syms| ==> Plain(syms[i]) && IsUpper(syms[i])
  {
    var syms := Symbols(text, fields);
    SymbolsAvoidLineBreaks(text, fields);
    forall i | 0 <= i < |syms| ensures Plain(syms[i]) {
      assert Avoids(syms[i], IsLineBreak);
    }
  }

  /** For upper-case plain symbols the universe read back is exactly the
      set of symbols, and every one of them validates. */
  lemma UpperRoundTrip(nasdaq: seq<string>, other: seq<string>)
    requires forall i :: 0 <= i < |nasdaq| ==> Plain(nasdaq[i]) && IsUpper(nasdaq[i])
    requires forall i :: 0 <= i < |other| ==> Plain(other[i]) && IsUpper(other[i])
    ensures var universe := SymbolSet(UniverseText(UniverseSymbols(nasdaq, other)));
      && (forall t :: t in universe <==> t in nasdaq + other)
      && (forall t :: t in nasdaq + other ==> IsValidTicker(Some(t), universe))
  {
    UniverseRoundTrip(nasdaq, other);
    var text := UniverseText(UniverseSymbols(nasdaq, other));
    var universe := SymbolSet(text);
    forall t | t in nasdaq + other ensures Upper(t) == t {
      var j :| 0 <= j < |nasdaq + other| && (nasdaq + other)[j] == t;
      if j >= |nasdaq| {
        assert (nasdaq + other)[j] == other[j - |nasdaq|];
      }
      UpperOfUpper(t);
    }
    forall t ensures t in universe <==> t in nasdaq + other {
      if t in universe {
        var s :| s in nasdaq + other && Upper(s) == t;
      }
    }
    forall t | t in nasdaq + other ensures IsValidTicker(Some(t), universe) {
      LoadedSymbolsValid(text, t);
    }
  }

  /** Every symbol `main` parses from the two directories, unless it holds
      a comma, is in the universe `validate_ticker` loads from the file
      `main` writes, and nothing else is. */
  lemma ParsedRoundTrip(nasdaqText: string, otherText: string)
    requires var n := Symbols(nasdaqText, ["Symbol"]); forall i :: 0 <= i < |n| ==> ',' !in n[i]
    requires var o := Symbols(otherText, ["ACT Symbol", "CQS Symbol"]); forall i :: 0 <= i < |o| ==> ',' !in o[i]
    ensures var n := Symbols(nasdaqText, ["Symbol"]);
      var o := Symbols(otherText, ["ACT Symbol", "CQS Symbol"]);
      var universe := SymbolSet(UniverseText(UniverseSymbols(n, o)));
      && (forall t :: t in universe <==> t in n + o)
      && (forall t :: t in n + o ==> IsValidTicker(Some(t), universe))
  {
    ParsedPlain(nasdaqText, ["Symbol"]);
    ParsedPlain(otherText, ["ACT Symbol", "CQS Symbol"]);
    UpperRoundTrip(Symbols(nasdaqText, ["Symbol"]), Symbols(otherText, ["ACT Symbol", "CQS Symbol"]));
  }
}
