/**
 * The parsing half of scripts/get_ticker_list.py: `parse_symbols` over a
 * pipe-delimited symbol directory, and the universe `main` writes, the
 * sorted, duplicate-free union of both directories under a `Symbol`
 * header. The downloads are left out: the text is a parameter.
 */
module TickerList {
  import opened Text
  import opened Wrappers
  import opened Dedup
  import opened Sorting

  /** The characters at which Python's `str.splitlines` breaks a line. */
  predicate IsLineBreak(c: char) {
    || c == '\n' || c == '\r' || c == '\U{0B}' || c == '\U{0C}'
    || c == '\U{1C}' || c == '\U{1D}' || c == '\U{1E}'
    || c == '\U{85}' || c == '\U{2028}' || c == '\U{2029}'
  }

  /** The pieces that are not blank, in order. */
  function NonBlank(pieces: seq<string>): (r: seq<string>)
    ensures |r| <= |pieces|
    ensures forall i :: 0 <= i < |r| ==> Strip(r[i]) != [] && r[i] in pieces
  {
    if pieces == [] then []
    else if Strip(pieces[0]) != [] then [pieces[0]] + NonBlank(pieces[1..])
    else NonBlank(pieces[1..])
  }

  /** `[ln for ln in text.strip().splitlines() if ln.strip()]`. Breaking at
      every line-break character, `\r\n` gives an empty piece more than
      `splitlines` does, and the blank filter removes it. */
  function Lines(text: string): (r: seq<string>)
    ensures forall i :: 0 <= i < |r| ==> Strip(r[i]) != []
    ensures forall i, j :: 0 <= i < |r| && 0 <= j < |r[i]| ==> !IsLineBreak(r[i][j])
  {
    NonBlank(SplitWhere(Strip(text), IsLineBreak))
  }

  /** Every piece that is not blank is kept. */
  lemma {:induction false} NonBlankKeepsAll(pieces: seq<string>, i: nat)
    requires i < |pieces| && Strip(pieces[i]) != []
    ensures pieces[i] in NonBlank(pieces)
  {
    if i > 0 {
      NonBlankKeepsAll(pieces[1..], i - 1);
    }
  }

  /** The filter keeps the order of the pieces: filtering two runs of
      pieces is filtering each and concatenating. */
  lemma {:induction false} NonBlankAppend(a: seq<string>, b: seq<string>)
    ensures NonBlank(a + b) == NonBlank(a) + NonBlank(b)
  {
    if a == [] {
      assert a + b == b;
    } else {
      assert (a + b)[0] == a[0] && (a + b)[1..] == a[1..] + b;
      NonBlankAppend(a[1..], b);
    }
  }

  /** The first piece after only blank ones is the first kept. */
  lemma {:induction false} NonBlankFirst(pieces: seq<string>, i: nat)
    requires i < |pieces| && Strip(pieces[i]) != []
    requires forall j :: 0 <= j < i ==> Strip(pieces[j]) == []
    ensures NonBlank(pieces) != [] && NonBlank(pieces)[0] == pieces[i]
  {
    if i > 0 {
      NonBlankFirst(pieces[1..], i - 1);
    }
  }

  /** Every line of the text that is not blank is among the lines, and the
      first of them is the first line, the one the header is read from. */
  lemma LinesComplete(text: string, i: nat)
    requires var pieces := SplitWhere(Strip(text), IsLineBreak); i < |pieces| && Strip(pieces[i]) != []
    ensures SplitWhere(Strip(text), IsLineBreak)[i] in Lines(text)
    ensures var pieces := SplitWhere(Strip(text), IsLineBreak);
      (forall j :: 0 <= j < i ==> Strip(pieces[j]) == []) ==> Lines(text)[0] == pieces[i]
  {
    var pieces := SplitWhere(Strip(text), IsLineBreak);
    NonBlankKeepsAll(pieces, i);
    if forall j :: 0 <= j < i ==> Strip(pieces[j]) == [] {
      NonBlankFirst(pieces, i);
    }
  }

  /** `[h.strip() for h in line.split("|")]`. */
  function HeaderOf(line: string): seq<string> {
    var cells := Split(line, '|');
    seq(|cells|, i requires 0 <= i < |cells| => Strip(cells[i]))
  }

  function RowsOf(lines: seq<string>): seq<seq<string>> {
    seq(|lines|, i requires 0 <= i < |lines| => Split(lines[i], '|'))
  }

  /** The value the record gives column `i`: the stripped cell, or `""` past
      the end of a short row. */
  function Cell(row: seq<string>, i: nat): string {
    if i < |row| then Strip(row[i]) else ""
  }

  /** The dict comprehension over the first `n` header columns; a repeated
      column name keeps the value of its last column. */
  function Record(header: seq<string>, row: seq<string>, n: nat): (rec: map<string, string>)
    requires n <= |header|
  {
    if n == 0 then map[] else Record(header, row, n - 1)[header[n - 1] := Cell(row, n - 1)]
  }

  /** Every value of the record is stripped. */
  lemma {:induction false} RecordStripped(header: seq<string>, row: seq<string>, n: nat)
    requires n <= |header|
    ensures forall k :: k in Record(header, row, n) ==> IsStripped(Record(header, row, n)[k])
  {
    if n > 0 {
      RecordStripped(header, row, n - 1);
    }
  }

  /** The record has a key for each header column and no other. */
  lemma {:induction false} RecordKeys(header: seq<string>, row: seq<string>, n: nat)
    requires n <= |header|
    ensures forall k :: k in Record(header, row, n) <==> k in header[..n]
  {
    if n > 0 {
      RecordKeys(header, row, n - 1);
      assert header[..n] == header[..n - 1] + [header[n - 1]];
    }
  }

  function RecordOf(header: seq<string>, row: seq<string>): map<string, string> {
    Record(header, row, |header|)
  }

  /** The last column sets its own key. */
  lemma RecordLast(header: seq<string>, row: seq<string>, n: nat)
    requires 0 < n <= |header|
    ensures header[n - 1] in Record(header, row, n)
    ensures Record(header, row, n)[header[n - 1]] == Cell(row, n - 1)
  {
  }

  /** The last column leaves every other key's value alone. */
  lemma RecordEarlier(header: seq<string>, row: seq<string>, n: nat, k: string)
    requires 0 < n <= |header|
    requires k in Record(header, row, n - 1) && k != header[n - 1]
    ensures k in Record(header, row, n) && Record(header, row, n)[k] == Record(header, row, n - 1)[k]
  {
  }

  /** Every column reads as the cell of its last occurrence in the header,
      and as `""` when the row is too short to have it. */
  lemma {:induction false} RecordCell(header: seq<string>, row: seq<string>, n: nat, i: nat)
    requires i < n <= |header|
    requires forall j :: i < j < n ==> header[j] != header[i]
    ensures header[i] in Record(header, row, n)
    ensures Record(header, row, n)[header[i]] == if i < |row| then Strip(row[i]) else ""
    decreases n
  {
    if i < n - 1 {
      RecordCell(header, row, n - 1, i);
      RecordEarlier(header, row, n, header[i]);
    } else {
      RecordLast(header, row, n);
    }
  }

  /** `next((rec[f] for f in fields if rec.get(f)), None)`. */
  function SymbolOf(rec: map<string, string>, fields: seq<string>): (r: Option<string>)
    ensures r.Some? ==> r.value != "" && r.value in rec.Values
  {
    if fields == [] then None
    else if fields[0] in rec && rec[fields[0]] != "" then Some(rec[fields[0]])
    else SymbolOf(rec, fields[1..])
  }

  /** The symbol is the value of the first listed field that has a non-empty
      value; there is none exactly when no listed field has one. */
  lemma {:induction false} SymbolOfFirst(rec: map<string, string>, fields: seq<string>)
    ensures SymbolOf(rec, fields).None? <==>
      forall k :: 0 <= k < |fields| ==> fields[k] !in rec || rec[fields[k]] == ""
    ensures SymbolOf(rec, fields).Some? ==>
      exists k :: 0 <= k < |fields| && fields[k] in rec && rec[fields[k]] == SymbolOf(rec, fields).value
        && forall j :: 0 <= j < k ==> fields[j] !in rec || rec[fields[j]] == ""
  {
    if fields != [] && !(fields[0] in rec && rec[fields[0]] != "") {
      SymbolOfFirst(rec, fields[1..]);
      if SymbolOf(rec, fields).Some? {
        var k :| 0 <= k < |fields[1..]| && fields[1..][k] in rec && rec[fields[1..][k]] == SymbolOf(rec, fields).value
          && forall j :: 0 <= j < k ==> fields[1..][j] !in rec || rec[fields[1..][j]] == "";
        assert fields[k + 1] == fields[1..][k];
        forall j | 0 <= j < k + 1 ensures fields[j] !in rec || rec[fields[j]] == "" {
          if j > 0 {
            assert fields[j] == fields[1..][j - 1];
          }
        }
      } else {
        forall k | 0 <= k < |fields| ensures fields[k] !in rec || rec[fields[k]] == "" {
          if k > 0 {
            assert fields[k] == fields[1..][k - 1];
          }
        }
      }
    }
  }

  /** The footer row that ends a symbol directory. */
  predicate IsFooter(row: seq<string>) {
    row != [] && StartsWith(row[0], "File Creation Time")
  }

  /** `rec.get("Test Issue", "").upper() == "Y"`. */
  predicate IsTestIssue(rec: map<string, string>) {
    Upper(if "Test Issue" in rec then rec["Test Issue"] else "") == "Y"
  }

  /** What one row that is not the footer adds: its upper-cased symbol,
      unless it has none or is a test issue. */
  function RowSymbols(header: seq<string>, row: seq<string>, fields: seq<string>): (r: seq<string>)
    ensures |r| <= 1
    ensures forall i :: 0 <= i < |r| ==> r[i] != "" && IsUpper(r[i]) && IsStripped(r[i])
  {
    var rec := RecordOf(header, row);
    match SymbolOf(rec, fields)
    case None => []
    case Some(sym) =>
      RecordStripped(header, row, |header|);
      UpperStripped(sym);
      if IsTestIssue(rec) then [] else [Upper(sym)]
  }

  /** The symbols of `rows` up to the first footer. */
  function RowsSymbols(header: seq<string>, rows: seq<seq<string>>, fields: seq<string>): (r: seq<string>)
    ensures forall i :: 0 <= i < |r| ==> r[i] != "" && IsUpper(r[i]) && IsStripped(r[i])
  {
    if rows == [] || IsFooter(rows[0]) then []
    else RowSymbols(header, rows[0], fields) + RowsSymbols(header, rows[1..], fields)
  }

  lemma RowsSymbolsStep(header: seq<string>, rows: seq<seq<string>>, i: nat, fields: seq<string>)
    requires i < |rows|
    ensures RowsSymbols(header, rows[i..], fields)
      == if IsFooter(rows[i]) then [] else RowSymbols(header, rows[i], fields) + RowsSymbols(header, rows[i + 1..], fields)
  {
    assert rows[i..][0] == rows[i] && rows[i..][1..] == rows[i + 1..];
  }

  /** What `parse_symbols(text, fields)` returns. */
  function Symbols(text: string, fields: seq<string>): (r: seq<string>)
    ensures forall i :: 0 <= i < |r| ==> r[i] != "" && IsUpper(r[i]) && IsStripped(r[i])
  {
    var lines := Lines(text);
    if lines == [] then [] else RowsSymbols(HeaderOf(lines[0]), RowsOf(lines[1..]), fields)
  }

  /** `parse_symbols(text, symbol_fields)`. */
  method ParseSymbols(text: string, symbolFields: seq<string>) returns (symbols: seq<string>)
    ensures symbols == Symbols(text, symbolFields)
  {
    var lines := Lines(text);
    if lines == [] {
      return [];
    }
    symbols := ParseRows(HeaderOf(lines[0]), RowsOf(lines[1..]), symbolFields);
  }

  /** The row loop of `parse_symbols`. */
  method ParseRows(header: seq<string>, rows: seq<seq<string>>, symbolFields: seq<string>) returns (symbols: seq<string>)
    ensures symbols == RowsSymbols(header, rows, symbolFields)
  {
    symbols := [];
    for i := 0 to |rows|
      invariant RowsSymbols(header, rows, symbolFields) == symbols + RowsSymbols(header, rows[i..], symbolFields)
    {
      var row := rows[i];
      RowsSymbolsStep(header, rows, i, symbolFields);
      if row != [] && StartsWith(row[0], "File Creation Time") {
        assert symbols + [] == symbols;
        return;
      }
      ghost var rest := RowsSymbols(header, rows[i + 1..], symbolFields);
      var rec := RecordOf(header, row);
      var sym := SymbolOf(rec, symbolFields);
      if sym.None? {
        assert [] + rest == rest;
        continue;
      }
      if Upper(if "Test Issue" in rec then rec["Test Issue"] else "") == "Y" {
        assert [] + rest == rest;
        continue;
      }
      assert RowSymbols(header, row, symbolFields) == [Upper(sym.value)];
      AppendAssoc(symbols, [Upper(sym.value)], rest);
      symbols := symbols + [Upper(sym.value)];
    }
    assert rows[|rows|..] == [];
    assert symbols + [] == symbols;
  }

  /** Every value of the record avoids `q` when every cell of the row
      does. */
  lemma {:induction false} RecordAvoids(header: seq<string>, row: seq<string>, n: nat, q: char -> bool)
    requires n <= |header|
    requires forall i :: 0 <= i < |row| ==> Avoids(row[i], q)
    ensures forall k :: k in Record(header, row, n) ==> Avoids(Record(header, row, n)[k], q)
  {
    if n > 0 {
      RecordAvoids(header, row, n - 1, q);
      if n - 1 < |row| {
        StripAvoids(row[n - 1], q);
      }
    }
  }

  /** The symbol of a row whose cells hold no line break holds none. */
  lemma RowSymbolsAvoid(header: seq<string>, row: seq<string>, fields: seq<string>)
    requires forall i :: 0 <= i < |row| ==> Avoids(row[i], IsLineBreak)
    ensures forall i :: 0 <= i < |RowSymbols(header, row, fields)| ==> Avoids(RowSymbols(header, row, fields)[i], IsLineBreak)
  {
    var rec := RecordOf(header, row);
    RecordAvoids(header, row, |header|, IsLineBreak);
    var sym := SymbolOf(rec, fields);
    if sym.Some? {
      var k :| k in rec && rec[k] == sym.value;
      UpperAvoids(sym.value, IsLineBreak);
    }
  }

  /** The symbols of rows whose cells hold no line break hold none either. */
  lemma {:induction false} RowsSymbolsAvoid(header: seq<string>, rows: seq<seq<string>>, fields: seq<string>)
    requires forall r, i :: 0 <= r < |rows| && 0 <= i < |rows[r]| ==> Avoids(rows[r][i], IsLineBreak)
    ensures forall i :: 0 <= i < |RowsSymbols(header, rows, fields)| ==> Avoids(RowsSymbols(header, rows, fields)[i], IsLineBreak)
  {
    if rows != [] && !IsFooter(rows[0]) {
      assert forall r :: 0 <= r < |rows[1..]| ==> rows[1..][r] == rows[r + 1];
      RowsSymbolsAvoid(header, rows[1..], fields);
      RowSymbolsAvoid(header, rows[0], fields);
    }
  }

  /** No parsed symbol holds a line break: the lines were split at them. */
  lemma SymbolsAvoidLineBreaks(text: string, fields: seq<string>)
    ensures forall i :: 0 <= i < |Symbols(text, fields)| ==> Avoids(Symbols(text, fields)[i], IsLineBreak)
  {
    var lines := Lines(text);
    if lines != [] {
      var rows := RowsOf(lines[1..]);
      forall r | 0 <= r < |rows|
        ensures forall i :: 0 <= i < |rows[r]| ==> Avoids(rows[r][i], IsLineBreak)
      {
        assert Avoids(lines[1..][r], IsLineBreak) by {
          assert lines[1..][r] == lines[r + 1];
        }
        SplitWhereAvoids(lines[1..][r], x => x == '|', IsLineBreak);
      }
      RowsSymbolsAvoid(HeaderOf(lines[0]), rows, fields);
    }
  }

  /** Blank text has no symbols. */
  lemma SymbolsOfBlank(text: string, fields: seq<string>)
    requires AllSpace(text)
    ensures Symbols(text, fields) == []
  {
    StripAllSpace(text);
    assert SplitWhere([], IsLineBreak) == [[]];
  }

  /** Rows before a footer are all that count: whatever follows it adds
      nothing. */
  lemma {:induction false} FooterStops(header: seq<string>, before: seq<seq<string>>, footer: seq<string>, after: seq<seq<string>>, fields: seq<string>)
    requires IsFooter(footer)
    ensures RowsSymbols(header, before + [footer] + after, fields) == RowsSymbols(header, before + [footer], fields)
  {
    if before == [] {
      assert ([] + [footer] + after)[0] == footer;
      assert ([] + [footer])[0] == footer;
    } else {
      FooterStops(header, before[1..], footer, after, fields);
      assert (before + [footer] + after)[1..] == before[1..] + [footer] + after;
      assert (before + [footer])[1..] == before[1..] + [footer];
    }
  }

  /** Without a footer, the symbols of two runs of rows are the symbols of
      the first followed by those of the second: output order is input
      order. */
  lemma {:induction false} RowsSymbolsAppend(header: seq<string>, a: seq<seq<string>>, b: seq<seq<string>>, fields: seq<string>)
    requires forall i :: 0 <= i < |a| ==> !IsFooter(a[i])
    ensures RowsSymbols(header, a + b, fields) == RowsSymbols(header, a, fields) + RowsSymbols(header, b, fields)
  {
    if a == [] {
      assert a + b == b;
    } else {
      assert (a + b)[0] == a[0] && (a + b)[1..] == a[1..] + b;
      RowsSymbolsAppend(header, a[1..], b, fields);
    }
  }

  /** A test issue adds nothing. */
  lemma TestIssueSkipped(header: seq<string>, row: seq<string>, fields: seq<string>)
    requires IsTestIssue(RecordOf(header, row))
    ensures RowSymbols(header, row, fields) == []
  {
  }

  /** A row that is not a test issue adds the upper-cased value of the
      first listed field that has one. */
  lemma RowSymbolIsFirstField(header: seq<string>, row: seq<string>, fields: seq<string>)
    requires !IsTestIssue(RecordOf(header, row))
    ensures var rec := RecordOf(header, row);
      RowSymbols(header, row, fields) == match SymbolOf(rec, fields) case None => [] case Some(s) => [Upper(s)]
  {
  }

  // ------------------------------------------------------------ universe

  function Self(s: string): string { s }

  predicate Any(s: string) { true }

  /** `sorted(set(nasdaq + other))`. */
  function UniverseSymbols(nasdaq: seq<string>, other: seq<string>): seq<string> {
    SortBy(Keep(nasdaq + other, Self, Any, {}), Self)
  }

  lemma {:induction false} DistinctCount(s: seq<string>, i: nat)
    requires DistinctKeys(s, Self) && i < |s|
    ensures multiset(s)[s[i]] == 1
  {
    assert s == [s[0]] + s[1..];
    if i == 0 {
      forall j | 0 <= j < |s[1..]| ensures s[1..][j] != s[0] {
        assert s[1..][j] == s[j + 1];
      }
    } else {
      assert DistinctKeys(s[1..], Self) by {
        forall a, b | 0 <= a < b < |s[1..]| ensures s[1..][a] != s[1..][b] {
          assert s[1..][a] == s[a + 1] && s[1..][b] == s[b + 1];
        }
      }
      DistinctCount(s[1..], i - 1);
      assert s[1..][i - 1] == s[i];
    }
  }

  lemma RepeatCount(s: seq<string>, i: nat, j: nat)
    requires i < j < |s| && s[i] == s[j]
    ensures multiset(s)[s[i]] >= 2
  {
    assert s == s[..j] + s[j..];
    assert s[..j][i] == s[i];
    assert s[j..][0] == s[j];
  }

  /** The universe lists every symbol of either directory once, in strictly
      increasing order, and nothing else. */
  lemma UniverseShape(nasdaq: seq<string>, other: seq<string>)
    ensures var u := UniverseSymbols(nasdaq, other);
      && (forall i, j :: 0 <= i < j < |u| ==> LexLt(u[i], u[j]))
      && (forall s :: s in u <==> s in nasdaq + other)
  {
    var all := nasdaq + other;
    var kept := Keep(all, Self, Any, {});
    var u := UniverseSymbols(nasdaq, other);
    KeepSound(all, Self, Any, {});
    KeepKeys(all, Self, Any, {});
    SortBySorted(kept, Self);
    SortByPermutation(kept, Self);
    forall i, j | 0 <= i < j < |u| ensures LexLt(u[i], u[j]) {
      if u[i] == u[j] {
        RepeatCount(u, i, j);
        var k :| 0 <= k < |kept| && kept[k] == u[i] by {
          assert u[i] in multiset(kept);
        }
        DistinctCount(kept, k);
        assert false;
      }
    }
    forall s ensures s in u <==> s in all {
      assert s in u <==> s in multiset(kept);
      if s in all {
        var i :| 0 <= i < |all| && all[i] == s;
        assert s in AdmittedKeys(all, Self, Any);
        assert s in Keys(kept, Self);
      }
    }
  }

  /** The text of the universe file: a `Symbol` header, then one symbol per
      line. */
  function UniverseText(syms: seq<string>): string {
    "Symbol\n" + LinesText(syms)
  }

  function LinesText(syms: seq<string>): string {
    if syms == [] then "" else syms[0] + "\n" + LinesText(syms[1..])
  }

  lemma {:induction false} LinesTextAppend(a: seq<string>, b: seq<string>)
    ensures LinesText(a + b) == LinesText(a) + LinesText(b)
  {
    if a == [] {
      assert a + b == b;
    } else {
      LinesTextAppend(a[1..], b);
      assert (a + b)[0] == a[0] && (a + b)[1..] == a[1..] + b;
      AppendAssoc(a[0] + "\n", LinesText(a[1..]), LinesText(b));
    }
  }

  /** The writing loop of `main`: the header line, then one line per
      symbol. */
  method WriteUniverse(allSyms: seq<string>) returns (out: string)
    ensures out == UniverseText(allSyms)
  {
    out := "Symbol\n";
    for i := 0 to |allSyms|
      invariant out == "Symbol\n" + LinesText(allSyms[..i])
    {
      LinesTextAppend(allSyms[..i], [allSyms[i]]);
      assert allSyms[..i + 1] == allSyms[..i] + [allSyms[i]];
      assert LinesText([allSyms[i]]) == allSyms[i] + "\n" by {
        assert [allSyms[i]][1..] == [];
      }
      out := out + allSyms[i] + "\n";
    }
    assert allSyms[..|allSyms|] == allSyms;
  }

  /** `main` once both directories are downloaded: the text of the
      universe file it writes. */
  method BuildUniverse(nasdaqText: string, otherText: string) returns (out: string)
    ensures out == UniverseText(UniverseSymbols(Symbols(nasdaqText, ["Symbol"]), Symbols(otherText, ["ACT Symbol", "CQS Symbol"])))
  {
    var nasdaqSyms := ParseSymbols(nasdaqText, ["Symbol"]);
    var otherSyms := ParseSymbols(otherText, ["ACT Symbol", "CQS Symbol"]);
    var allSyms := UniverseSymbols(nasdaqSyms, otherSyms);
    out := WriteUniverse(allSyms);
  }
}
