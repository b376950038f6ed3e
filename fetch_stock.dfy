/**
 * The data transforms of scripts/fetch_stock.py: the default document of
 * `load_json`, `_build_positions_from_picks`, and the merge `main` applies
 * to the stored document before writing it back. The clock is replaced by
 * the `today` and `now` parameters, the picker by the list it returned.
 */
module FetchStock {
  import opened Text
  import opened Wrappers
  import opened Dedup
  import opened Sorting

  /** One entry of `equity_series`. `None` stands for a missing key. */
  datatype EquityPoint = EquityPoint(date: Option<string>, equity: Option<real>)

  /** One stored or returned pick, as the JSON object it is read from. */
  datatype PickEntry = PickEntry(ticker: Option<string>, reason: Option<string>)

  /** One stored position, as the JSON object it is read from. */
  datatype PositionEntry = PositionEntry(ticker: Option<string>, qty: Option<real>, avgPrice: Option<real>)

  /** A normalised pick and a position with its three fields. */
  datatype Pick = Pick(ticker: string, reason: string)
  datatype Position = Position(ticker: string, qty: real, avgPrice: real)

  /** The `stockinfo.json` document. */
  datatype Document = Document(
    updatedAt: Option<string>,
    title: Option<string>,
    costBasis: Option<real>,
    equitySeries: seq<EquityPoint>,
    picks: seq<PickEntry>,
    positions: seq<PositionEntry>)

  const Title: string := "Inf Money Stock Bot"

  /** The document `load_json` starts from when there is no readable file. */
  const Skeleton: Document := Document(None, Some(Title), Some(10000.0), [], [], [])

  /** `load_json`: the stored document, or the skeleton when the file is
      absent or does not parse (`stored == None`). */
  function LoadJson(stored: Option<Document>): (d: Document)
    ensures stored.Some? ==> d == stored.value
    ensures stored.None? ==> d.updatedAt.None? && d.title == Some(Title) && d.costBasis == Some(10000.0)
    ensures stored.None? ==> d.equitySeries == [] && d.picks == [] && d.positions == []
  {
    stored.GetOr(Skeleton)
  }

  /** `(value or "").upper()`. */
  function TickerText(t: Option<string>): string {
    Upper(t.GetOr(""))
  }

  // ---------------------------------------------------------------- picks

  function NormalizeOne(p: PickEntry): Pick {
    Pick(TickerText(p.ticker), p.reason.GetOr(""))
  }

  function NormalizeEach(picks: seq<PickEntry>): seq<Pick> {
    seq(|picks|, i requires 0 <= i < |picks| => NormalizeOne(picks[i]))
  }

  function PickTicker(p: Pick): string { p.ticker }

  predicate HasTicker(p: Pick) { p.ticker != "" }

  /** What the normalisation loop of `main` keeps: the normalised picks with
      a non-empty ticker not kept before. */
  function NormalPicks(picks: seq<PickEntry>): seq<Pick> {
    Keep(NormalizeEach(picks), PickTicker, HasTicker, {})
  }

  /** The normalisation loop of `main`. */
  method NormalizePicks(picks: seq<PickEntry>) returns (norm: seq<Pick>)
    ensures norm == NormalPicks(picks)
  {
    ghost var all := NormalizeEach(picks);
    norm := [];
    var seen: set<string> := {};
    for i := 0 to |picks|
      invariant norm == Keep(all[..i], PickTicker, HasTicker, {})
      invariant seen == {} + Keys(norm, PickTicker)
    {
      var t := TickerText(picks[i].ticker);
      var r := picks[i].reason.GetOr("");
      KeepStep(all, i, PickTicker, HasTicker, {});
      if t == "" || t in seen {
        continue;
      }
      norm := norm + [Pick(t, r)];
      seen := seen + {t};
    }
    assert all[..|picks|] == all;
  }

  /** Normalised picks have non-empty, upper-case, pairwise distinct tickers;
      each is the normalised form of an input pick, so a missing reason reads
      as `""`; and every non-empty input ticker is represented. */
  lemma NormalPicksShape(picks: seq<PickEntry>)
    ensures var norm := NormalPicks(picks);
      && DistinctKeys(norm, PickTicker)
      && (forall i :: 0 <= i < |norm| ==> norm[i].ticker != "" && IsUpper(norm[i].ticker))
      && (forall i :: 0 <= i < |norm| ==> exists j :: 0 <= j < |picks| && norm[i] == NormalizeOne(picks[j]))
      && Keys(norm, PickTicker) == AdmittedKeys(NormalizeEach(picks), PickTicker, HasTicker)
  {
    var all := NormalizeEach(picks);
    var norm := NormalPicks(picks);
    KeepSound(all, PickTicker, HasTicker, {});
    KeepKeys(all, PickTicker, HasTicker, {});
    forall i | 0 <= i < |norm|
      ensures IsUpper(norm[i].ticker)
      ensures exists j :: 0 <= j < |picks| && norm[i] == NormalizeOne(picks[j])
    {
      var j :| 0 <= j < |all| && all[j] == norm[i];
      UpperIsUpper(picks[j].ticker.GetOr(""));
    }
  }

  /** The picks as the JSON objects they are written as. */
  function PickEntries(norm: seq<Pick>): seq<PickEntry> {
    seq(|norm|, i requires 0 <= i < |norm| => PickEntry(Some(norm[i].ticker), Some(norm[i].reason)))
  }

  // ------------------------------------------------------------ positions

  function PositionOf(p: PickEntry, qty: real, avg: real): Position {
    Position(TickerText(p.ticker), qty, avg)
  }

  function PositionsOf(picks: seq<PickEntry>, qty: real, avg: real): seq<Position> {
    seq(|picks|, i requires 0 <= i < |picks| => PositionOf(picks[i], qty, avg))
  }

  function PositionTicker(p: Position): string { p.ticker }

  predicate HasPositionTicker(p: Position) { p.ticker != "" }

  /** What `_build_positions_from_picks` returns. */
  function BuiltPositions(picks: seq<PickEntry>, qty: real, avg: real): seq<Position> {
    Keep(PositionsOf(picks, qty, avg), PositionTicker, HasPositionTicker, {})
  }

  /** `_build_positions_from_picks(picks, default_qty, default_avg)`. */
  method BuildPositionsFromPicks(picks: seq<PickEntry>, defaultQty: real, defaultAvg: real) returns (positions: seq<Position>)
    ensures positions == BuiltPositions(picks, defaultQty, defaultAvg)
  {
    ghost var all := PositionsOf(picks, defaultQty, defaultAvg);
    positions := [];
    var seen: set<string> := {};
    for i := 0 to |picks|
      invariant positions == Keep(all[..i], PositionTicker, HasPositionTicker, {})
      invariant seen == {} + Keys(positions, PositionTicker)
    {
      var t := TickerText(picks[i].ticker);
      KeepStep(all, i, PositionTicker, HasPositionTicker, {});
      if t == "" || t in seen {
        continue;
      }
      positions := positions + [Position(t, defaultQty, defaultAvg)];
      seen := seen + {t};
    }
    assert all[..|picks|] == all;
  }

  /** Built positions have non-empty, upper-case, pairwise distinct tickers,
      each from an input pick, and carry the default quantity and price. */
  lemma BuiltPositionsShape(picks: seq<PickEntry>, qty: real, avg: real)
    ensures var ps := BuiltPositions(picks, qty, avg);
      && DistinctKeys(ps, PositionTicker)
      && (forall i :: 0 <= i < |ps| ==> ps[i].ticker != "" && IsUpper(ps[i].ticker))
      && (forall i :: 0 <= i < |ps| ==> ps[i].qty == qty && ps[i].avgPrice == avg)
      && (forall i :: 0 <= i < |ps| ==> exists j :: 0 <= j < |picks| && ps[i].ticker == TickerText(picks[j].ticker))
  {
    var all := PositionsOf(picks, qty, avg);
    var ps := BuiltPositions(picks, qty, avg);
    KeepSound(all, PositionTicker, HasPositionTicker, {});
    forall i | 0 <= i < |ps|
      ensures IsUpper(ps[i].ticker) && ps[i].qty == qty && ps[i].avgPrice == avg
      ensures exists j :: 0 <= j < |picks| && ps[i].ticker == TickerText(picks[j].ticker)
    {
      var j :| 0 <= j < |all| && all[j] == ps[i];
      UpperIsUpper(picks[j].ticker.GetOr(""));
    }
  }

  /** Built from the normalised picks, as `main` does, there is exactly one
      position per pick, in the same order. */
  lemma PositionsFollowPicks(picks: seq<PickEntry>, qty: real, avg: real)
    ensures var norm := NormalPicks(picks);
      BuiltPositions(PickEntries(norm), qty, avg) == seq(|norm|, i requires 0 <= i < |norm| => Position(norm[i].ticker, qty, avg))
  {
    var norm := NormalPicks(picks);
    var entries := PickEntries(norm);
    var all := PositionsOf(entries, qty, avg);
    NormalPicksShape(picks);
    forall i | 0 <= i < |all| ensures all[i] == Position(norm[i].ticker, qty, avg) {
      UpperOfUpper(norm[i].ticker);
    }
    assert DistinctKeys(all, PositionTicker) by {
      forall i, j | 0 <= i < j < |all| ensures all[i].ticker != all[j].ticker {
        assert norm[i].ticker != norm[j].ticker;
      }
    }
    KeepUnchanged(all, PositionTicker, HasPositionTicker, {});
  }

  /** A position rewritten to its three fields, a missing number read as `0.0`. */
  function Trimmed(p: PositionEntry): Position {
    Position(TickerText(p.ticker), p.qty.GetOr(0.0), p.avgPrice.GetOr(0.0))
  }

  /** The positions as the JSON objects they are written as. */
  function PositionEntries(ps: seq<Position>): seq<PositionEntry> {
    seq(|ps|, i requires 0 <= i < |ps| => PositionEntry(Some(ps[i].ticker), Some(ps[i].qty), Some(ps[i].avgPrice)))
  }

  /** The `clean_positions` loop of `main`: every position, in order, reduced
      to an upper-case ticker, a quantity and an average price. */
  method TrimPositions(positions: seq<PositionEntry>) returns (clean: seq<Position>)
    ensures |clean| == |positions|
    ensures forall i :: 0 <= i < |clean| ==> clean[i] == Trimmed(positions[i])
  {
    clean := [];
    for i := 0 to |positions|
      invariant |clean| == i
      invariant forall j :: 0 <= j < i ==> clean[j] == Trimmed(positions[j])
    {
      var p := positions[i];
      clean := clean + [Position(TickerText(p.ticker), p.qty.GetOr(0.0), p.avgPrice.GetOr(0.0))];
    }
  }

  /** Trimming positions already written by a trim changes nothing, so a
      second run without picks leaves the positions as they are. */
  lemma TrimTwice(p: PositionEntry)
    ensures var q := Trimmed(p);
      Trimmed(PositionEntry(Some(q.ticker), Some(q.qty), Some(q.avgPrice))) == q
  {
    UpperIdempotent(p.ticker.GetOr(""));
  }

  // ------------------------------------------------------- equity series

  predicate HasDate(series: seq<EquityPoint>, today: string) {
    exists i :: 0 <= i < |series| && series[i].date == Some(today)
  }

  /** The equity carried into today's entry: the last entry's, or the cost
      basis (`0.0` when missing) when there is no last entry or it has none. */
  function CarriedEquity(series: seq<EquityPoint>, costBasis: Option<real>): real {
    if series != [] && series[|series| - 1].equity.Some? then series[|series| - 1].equity.value
    else costBasis.GetOr(0.0)
  }

  /** The series after the once-per-day step of `main`. */
  function WithToday(series: seq<EquityPoint>, today: string, costBasis: Option<real>): (r: seq<EquityPoint>)
    ensures HasDate(r, today)
    ensures |r| == |series| + (if HasDate(series, today) then 0 else 1)
    ensures r[..|series|] == series
    ensures !HasDate(series, today) ==> r[|series|] == EquityPoint(Some(today), Some(CarriedEquity(series, costBasis)))
  {
    if HasDate(series, today) then series
    else
      var r := series + [EquityPoint(Some(today), Some(CarriedEquity(series, costBasis)))];
      assert r[|series|].date == Some(today);
      r
  }

  /** A second run on the same day adds nothing. */
  lemma WithTodayTwice(series: seq<EquityPoint>, today: string, c1: Option<real>, c2: Option<real>)
    ensures WithToday(WithToday(series, today, c1), today, c2) == WithToday(series, today, c1)
  {
  }

  /** The key `sorted` reads; only used when every entry has a date. */
  function DateKey(x: EquityPoint): string {
    x.date.GetOr("")
  }

  predicate AllDated(series: seq<EquityPoint>) {
    forall i :: 0 <= i < |series| ==> series[i].date.Some?
  }

  /** `sorted(..., key=lambda x: x["date"])` raises `KeyError` on an entry
      without a date, and `main` stops before writing. */
  datatype MergeError = MissingDate

  // ----------------------------------------------------------------- main

  /** The document `main` writes, given the loaded one, the day and time,
      and the picker's list (`None` when the picker could not be imported or
      raised, in which case the stored picks are used). */
  function Merged(data: Document, today: string, now: string, returned: Option<seq<PickEntry>>): (r: Result<Document, MergeError>)
  {
    var series := WithToday(data.equitySeries, today, data.costBasis);
    var norm := NormalPicks(returned.GetOr(data.picks));
    var picks := if norm != [] then PickEntries(norm) else data.picks;
    var positions :=
      if norm != [] then PositionEntries(BuiltPositions(PickEntries(norm), 10.0, 100.0))
      else PositionEntries(seq(|data.positions|, i requires 0 <= i < |data.positions| => Trimmed(data.positions[i])));
    if !AllDated(series) then Failure(MissingDate)
    else Success(Document(Some(now), Some(Title), data.costBasis, SortBy(series, DateKey), picks, positions))
  }

  /** `main` between `load_json` and `save_json`. */
  method Refresh(data: Document, today: string, now: string, returned: Option<seq<PickEntry>>) returns (r: Result<Document, MergeError>)
    ensures r == Merged(data, today, now, returned)
  {
    var doc := data;
    if !HasDate(doc.equitySeries, today) {
      var last := CarriedEquity(doc.equitySeries, doc.costBasis);
      doc := doc.(equitySeries := doc.equitySeries + [EquityPoint(Some(today), Some(last))]);
    }

    var picks := if returned.Some? then returned.value else doc.picks;
    var norm := NormalizePicks(picks);
    if norm != [] {
      var built := BuildPositionsFromPicks(PickEntries(norm), 10.0, 100.0);
      doc := doc.(picks := PickEntries(norm), positions := PositionEntries(built));
    } else {
      var clean := TrimPositions(doc.positions);
      assert clean == seq(|data.positions|, i requires 0 <= i < |data.positions| => Trimmed(data.positions[i]));
      doc := doc.(positions := PositionEntries(clean));
    }

    if !AllDated(doc.equitySeries) {
      return Failure(MissingDate);
    }
    doc := doc.(equitySeries := SortBy(doc.equitySeries, DateKey), updatedAt := Some(now), title := Some(Title));
    return Success(doc);
  }

  /** The merge fails exactly when a stored entry has no date; today's entry
      always has one. */
  lemma MergedFails(data: Document, today: string, now: string, returned: Option<seq<PickEntry>>)
    ensures Merged(data, today, now, returned).Failure? <==> !AllDated(data.equitySeries)
  {
    var s := data.equitySeries;
    var series := WithToday(s, today, data.costBasis);
    if AllDated(s) {
      forall i | 0 <= i < |series| ensures series[i].date.Some? {
        if i < |s| {
          assert series[i] == series[..|s|][i];
        }
      }
    } else {
      var i :| 0 <= i < |s| && s[i].date.None?;
      assert series[i] == series[..|s|][i];
    }
  }

  /** The written series is sorted by date, is a permutation of the series
      after today's step, and keeps the order of entries sharing a date;
      the title and the time stamp are set. */
  lemma MergedSeries(data: Document, today: string, now: string, returned: Option<seq<PickEntry>>, d: string)
    requires Merged(data, today, now, returned).Success?
    ensures var out := Merged(data, today, now, returned).value;
      var series := WithToday(data.equitySeries, today, data.costBasis);
      && SortedBy(out.equitySeries, DateKey)
      && multiset(out.equitySeries) == multiset(series)
      && Having(out.equitySeries, DateKey, d) == Having(series, DateKey, d)
      && out.title == Some(Title) && out.updatedAt == Some(now) && out.costBasis == data.costBasis
  {
    var series := WithToday(data.equitySeries, today, data.costBasis);
    SortBySorted(series, DateKey);
    SortByPermutation(series, DateKey);
    SortByStable(series, DateKey, d);
  }

  /** New picks replace the stored picks and positions; without any, the
      stored picks stay and the positions are trimmed. */
  lemma MergedPicks(data: Document, today: string, now: string, returned: Option<seq<PickEntry>>)
    requires Merged(data, today, now, returned).Success?
    ensures var out := Merged(data, today, now, returned).value;
      var norm := NormalPicks(returned.GetOr(data.picks));
      && (norm != [] ==>
            && out.picks == PickEntries(norm)
            && out.positions == PositionEntries(seq(|norm|, i requires 0 <= i < |norm| => Position(norm[i].ticker, 10.0, 100.0))))
      && (norm == [] ==>
            && out.picks == data.picks
            && out.positions == PositionEntries(seq(|data.positions|, i requires 0 <= i < |data.positions| => Trimmed(data.positions[i]))))
  {
    PositionsFollowPicks(returned.GetOr(data.picks), 10.0, 100.0);
  }

  /** Running `main` twice on the same day, once the first run has written
      its document, adds no second entry for that day: the series stays the
      one the first run wrote. */
  lemma MergedTwiceSameDay(data: Document, today: string, now1: string, now2: string,
                           returned1: Option<seq<PickEntry>>, returned2: Option<seq<PickEntry>>)
    requires Merged(data, today, now1, returned1).Success?
    ensures var once := Merged(data, today, now1, returned1).value;
      && Merged(once, today, now2, returned2).Success?
      && Merged(once, today, now2, returned2).value.equitySeries == once.equitySeries
  {
    var once := Merged(data, today, now1, returned1).value;
    var series := WithToday(data.equitySeries, today, data.costBasis);
    MergedFails(data, today, now1, returned1);
    SortBySorted(series, DateKey);
    SortByPermutation(series, DateKey);
    var sorted := once.equitySeries;
    assert HasDate(series, today);
    var k :| 0 <= k < |series| && series[k].date == Some(today);
    assert series[k] in multiset(sorted);
    var m :| 0 <= m < |sorted| && sorted[m] == series[k];
    assert HasDate(sorted, today);
    assert AllDated(sorted) by {
      forall i | 0 <= i < |sorted| ensures sorted[i].date.Some? {
        assert sorted[i] in multiset(series);
      }
    }
    assert WithToday(sorted, today, once.costBasis) == sorted;
    SortByOfSorted(sorted, DateKey);
  }
}
