# Stock bot core, modelled in Dafny

This project models the logic of the PCarroll9500/stock_bot_website
scripts that pick stocks with a chat model, validate them, and keep the
website's JSON snapshot and ticker universe up to date. It leaves out the
I/O around that logic. The modelled parts are:

- **Pick parsing and sanitising** (`parse_pick.dfy`, `yahoo_finance.dfy`).
  `_parse_pick` is modelled with the `TICKER_LINE` regex's greedy,
  backtracking match. `sanitize_ticker` is modelled too. So is the
  decision `is_valid_ticker` takes on a fetched quote: a price is present
  and the exchange is NASDAQ, NMS, NYSE or AMEX. It is fail-closed.
- **The picker** (`pick_spec.dfy`, `picker.dfy`).
  - `single_stock_picker` is a bounded retry loop.
  - `run_multiple_agents` is an agent burst followed by a drain that
    removes duplicates.
  - `StockPicker.get_stocks` is the outer quota loop with its one-shot
    fallback call.
  - `pick_spec.dfy` states each loop as a function and proves the loop
    invariant, the bounds and the termination facts about those functions.
  - `picker.dfy` holds the loops as methods, with the `StockPicker` class.
    Each method is proved to compute its function.
- **The snapshot merge** of `fetch_stock.py` (`fetch_stock.dfy`, `sorting.dfy`):
  - the skeleton document;
  - the once-a-day equity entry;
  - pick normalisation;
  - position building and trimming;
  - the stable sort of the series by date.
- **Symbol directories** (`ticker_list.dfy`). `parse_symbols` builds a
  record keyed by the header for each row. It stops at the footer and
  skips test issues. The universe file is the sorted, duplicate-free
  union under a `Symbol` header.
- **Universe loading and validation** (`validate_ticker.dfy`):
  - `_load_symbols` over the text of the file;
  - `normalize` and `is_valid_ticker`;
  - the exit codes of `main`.
- **The round trip** between the two scripts (`universe.dfy`). Reading back
  the universe file that `get_ticker_list.py` writes gives the set of
  parsed symbols.
- **Shared pieces.** `text.dfy` has Python's `strip`, `upper`, `split`
  and string order. `dedup.dfy` has the "skip if bad or seen, else append
  and mark seen" loop that the source writes four times. `wrappers.dfy`
  has `Option` and `Result`.

Replaced by parameters:

- The chat model is a function `gen: nat -> Reply` from the index of the
  call to its reply. `Raised` stands for an exception.
- Yahoo Finance is a function `lookup: string -> Lookup`. `Unavailable`
  stands for an exception.
- The picker loops are stated over any `Outcomes` function, which gives
  the pick each call returns. `Outcome(gen, lookup)` is the one the
  program uses.
- Today's date, the current time and the file contents are parameters.
  So is whether the picker could be imported.

Behaviour of the code worth knowing:

- `StockPicker` with `batch_size <= 0` raises the pool's `ValueError` as
  soon as a burst is due (`RunFailure`).
- A generator that never succeeds stops the loop at the first even attempt
  count at or above the cap (`StalledAttempts`): 50 for the default cap,
  cap + 1 for an odd cap.
- `run_multiple_agents` runs each agent with the default `max_retries` of
  5, not with `per_call_retries` (`AgentRetries`).

## Model

| member | source | states |
|---|---|---|
| Text.Strip | scripts/stock_picker.py:44 | the result has no white space at either end and is no longer than the input |
| Text.StripSlice | scripts/stock_picker.py:44 | `strip` keeps a contiguous slice of the input and drops only white space on both sides |
| Text.StripPadded | scripts/utils/validate_ticker.py:53 | a stripped text with white space around it strips back to itself |
| Text.StripIdempotent | scripts/stock_picker.py:44 | stripping twice is stripping once |
| Text.Upper | scripts/stock_picker.py:47 | upper-casing maps each character on its own and keeps the length |
| Text.UpperIdempotent | scripts/stock_picker.py:52 | upper-casing twice is upper-casing once |
| Text.FirstSpace | scripts/stock_picker.py:50 | the index where the first word ends: all characters before it are not white space, and the one at it is |
| Text.Split | scripts/get_ticker_list.py:34-35 | `split("|")` yields at least one piece, none holding the separator |
| Text.JoinSplit | scripts/get_ticker_list.py:34-35 | joining the pieces with the separator gives back the line |
| Text.LexTotal | scripts/fetch_stock.py:127 | Python's string order is total |
| Text.LexTransitive | scripts/fetch_stock.py:127 | Python's string order is transitive |
| Text.LexAntisymmetric | scripts/fetch_stock.py:127 | two strings each at most the other are equal |
| Dedup.KeepSound | scripts/stock_picker.py:101-108 | every kept element comes from the input, is admitted, has an unseen key, and no key is kept twice |
| Dedup.KeepKeys | scripts/fetch_stock.py:103-109 | the kept keys are exactly the admitted keys minus the seen ones |
| Dedup.KeepAppend | scripts/stock_picker.py:101-108 | draining two runs is draining the first, then the second with the first's keys seen |
| Dedup.KeepStep | scripts/stock_picker.py:103-106 | element `i` is kept exactly when it is admitted and its key is new, and then its key joins the seen set |
| Dedup.KeepUnchanged | scripts/fetch_stock.py:103-109 | admitted, duplicate-free, unseen input passes through unchanged |
| Sorting.SortBySorted | scripts/fetch_stock.py:127 | `sorted(key=...)` returns a sequence ordered by key |
| Sorting.SortByPermutation | scripts/fetch_stock.py:127 | `sorted` returns a permutation of its input |
| Sorting.SortByStable | scripts/fetch_stock.py:127 | elements sharing a key keep their input order |
| Sorting.SortByOfSorted | scripts/get_ticker_list.py:70 | input already in key order is returned unchanged |
| ParsePick.GroupEnd | scripts/stock_picker.py:41 | `(.+)$` takes at least one character and no line feed, and ends at the end of the text or just before a final line feed |
| ParsePick.SearchSep | scripts/stock_picker.py:41 | backtracking over the separator finds the longest separator run that lets the reason group match, or reports that none does |
| ParsePick.SearchHead | scripts/stock_picker.py:41 | a result of backtracking over the first group is a real match |
| ParsePick.SearchHeadGreedy | scripts/stock_picker.py:41 | for any matching pair of lengths, the search finds a first group at least as long, and with the same first group a separator at least as long |
| ParsePick.MatchTickerLine | scripts/stock_picker.py:41-45 | a match has 1 to 12 characters of `[A-Z$.-]`, a separator run of `[:\-–\s]`, and a non-empty single-line reason up to `$` |
| ParsePick.MatchTickerLineGreedy | scripts/stock_picker.py:41-45 | the match is at least as long as every other match, first by the first group, then by the separator |
| ParsePick.MatchTickerLineComplete | scripts/stock_picker.py:41-46 | there is no match exactly when no pair of lengths matches |
| ParsePick.MatchExactly | scripts/stock_picker.py:41-45 | a match that neither group can extend is the one the regex returns |
| ParsePick.SplitOnce | scripts/stock_picker.py:50 | `split(None, 1)` gives at most two pieces, none empty |
| ParsePick.SplitOnceWord | scripts/stock_picker.py:50-52 | on non-blank stripped text the first piece is the first word |
| ParsePick.SplitOnceRest | scripts/stock_picker.py:50-52 | the second piece, stripped, is the stripped rest after the first word, and that rest is empty when there is no second piece |
| ParsePick.MatchRunsToEnd | scripts/stock_picker.py:44-48 | on stripped text the reason group runs to the end of the text |
| ParsePick.HeadUnchanged | scripts/stock_picker.py:47 | `strip().upper()` leaves a first group unchanged |
| ParsePick.MatchedPickShape | scripts/stock_picker.py:46-49 | the regex branch returns the first group and the stripped rest, which is non-empty and has no line feed |
| ParsePick.ParsePickMatched | scripts/stock_picker.py:44-49 | when the regex matches, the ticker is 1 to 12 characters of `[A-Z$.-]` and the reason is the rest of the line, stripped, non-empty and without a line feed |
| ParsePick.WordsPickShape | scripts/stock_picker.py:50-52 | the split branch gives the first word upper-cased and the stripped remainder, `""` when there is none |
| ParsePick.ParsePickFallback | scripts/stock_picker.py:44-52 | without a regex match on non-blank text, the ticker is the first word upper-cased and the reason is the stripped remainder |
| ParsePick.ParsePickBlank | scripts/stock_picker.py:44-53 | blank or all-white-space text gives exactly `("UNKNOWN", "")` |
| ParsePick.ParsePickEmpty | scripts/stock_picker.py:43-53 | the empty reply gives `("UNKNOWN", "")` |
| ParsePick.ParsePickColon | scripts/stock_picker.py:41-49 | `AAPL: strong earnings beat` gives `("AAPL", "strong earnings beat")` |
| YahooFinance.KeepTickerChars | scripts/utils/yahoo_finance_stock_info.py:11 | the substitution leaves only `[A-Z0-9.-]`, and every such character of the input |
| YahooFinance.KeepTickerCharsAppend | scripts/utils/yahoo_finance_stock_info.py:11 | the substitution works character by character, so it keeps the input's order |
| YahooFinance.SanitizeTicker | scripts/utils/yahoo_finance_stock_info.py:7-11 | the result holds only `[A-Z0-9.-]`, and holds a character exactly when the upper-cased input does and it is allowed |
| YahooFinance.SanitizeAppend | scripts/utils/yahoo_finance_stock_info.py:11 | sanitising a concatenation concatenates the sanitised parts |
| YahooFinance.SanitizeOfTickerText | scripts/utils/yahoo_finance_stock_info.py:11 | a ticker already made of allowed characters is unchanged |
| YahooFinance.SanitizeIdempotent | scripts/utils/yahoo_finance_stock_info.py:11 | sanitising twice is sanitising once |
| YahooFinance.SanitizedHasNoSpace | scripts/utils/yahoo_finance_stock_info.py:9-11 | a sanitised ticker holds no white space |
| YahooFinance.SanitizeDropsDollar | scripts/stock_picker.py:79 | `$NKLA` sanitises to `NKLA` |
| YahooFinance.SanitizeUpperCases | scripts/utils/yahoo_finance_stock_info.py:11 | `aapl.b` sanitises to `AAPL.B` |
| YahooFinance.SanitizeSpace | scripts/utils/yahoo_finance_stock_info.py:9-11 | a lone space sanitises to the empty ticker |
| YahooFinance.SanitizeMsft | scripts/utils/yahoo_finance_stock_info.py:11 | `msft` sanitises to `MSFT` |
| YahooFinance.SanitizeDropsSpaces | scripts/utils/yahoo_finance_stock_info.py:9-11 | surrounding spaces are removed: ` msft ` sanitises to `MSFT` |
| YahooFinance.LookupFailureRejects | scripts/utils/yahoo_finance_stock_info.py:122-123 | a lookup that raised makes the ticker invalid |
| YahooFinance.QuoteAcceptedCases | scripts/utils/yahoo_finance_stock_info.py:117-121 | the exchange is compared after upper-casing; no price or no exchange means rejection |
| YahooFinance.QuoteAcceptedExamples | scripts/utils/yahoo_finance_stock_info.py:117-121 | a priced quote on `nms` or `NYSE` is accepted, one on `OTC` is not |
| YahooFinance.ValidityOfSanitized | scripts/utils/yahoo_finance_stock_info.py:13-16 | the fetcher sanitises again, so validating a sanitised ticker gives the same answer |
| PickSpec.Attempt | scripts/stock_picker.py:63-85 | one pass returns a pick exactly when the call answered and the sanitised ticker is good and not taken; the pick is that ticker and the parsed reason |
| PickSpec.OutcomeSound | scripts/stock_picker.py:71-82 | the model's replies only ever yield acceptable tickers |
| PickSpec.RaisedNeverSucceeds | scripts/stock_picker.py:84-85 | calls that raise never give a pick |
| PickSpec.SinglePickOutcome | scripts/stock_picker.py:62-89 | the result is the first successful call after only failed ones, or `ERROR` after exactly `max_retries` failed calls |
| PickSpec.SinglePickNoRetries | scripts/stock_picker.py:62-89 | with `max_retries <= 0` the `ERROR` pick comes back with no call made |
| PickSpec.SinglePickAllFail | scripts/stock_picker.py:62-89 | when no call succeeds, every retry is spent and the `ERROR` pick comes back |
| PickSpec.SinglePickNone | scripts/stock_picker.py:62-87 | proof step: a failed call leaves the rest to the remaining retries |
| PickSpec.SinglePickSound | scripts/stock_picker.py:72-82 | the result is the `ERROR` pick or has a sanitised, non-empty, non-`UNKNOWN`, valid ticker outside `existing_tickers` |
| PickSpec.Agents | scripts/stock_picker.py:99-100 | one future per agent |
| PickSpec.AgentsStep | scripts/stock_picker.py:100 | proof step: one more agent appends its pick and adds its calls |
| PickSpec.AgentsSound | scripts/stock_picker.py:97-100 | every future is `ERROR` or acceptable against the burst's snapshot of `seen` |
| PickSpec.AgentsAllFail | scripts/stock_picker.py:100 | when no call succeeds, every future is the `ERROR` pick |
| PickSpec.KeepDrained | scripts/stock_picker.py:101-108 | the drain of sound futures gives at most one pick per agent, none `ERROR` or seen, no ticker twice |
| PickSpec.RunAgents | scripts/stock_picker.py:91-110 | the pool fails exactly when `agent_count <= 0`; otherwise at most `agent_count` picks |
| PickSpec.RunAgentsSound | scripts/stock_picker.py:97-108 | the batch holds valid, unseen, non-`ERROR` picks with distinct tickers, at most one per agent |
| PickSpec.RunAgentsAllFail | scripts/stock_picker.py:101-108 | when no call succeeds, the batch is empty |
| PickSpec.Fill | scripts/stock_picker.py:133-140 | the batch loop adds at most one pick per batch element, and no more than the quota still lacks (or one, as the quota check follows the append); the picks only grow by what it adds |
| PickSpec.FillWhole | scripts/stock_picker.py:133-138 | a batch loop that never reaches the quota adds everything the drain rule keeps |
| PickSpec.FillBreak | scripts/stock_picker.py:139-140 | a batch loop that reaches the quota adds only what the drain rule keeps up to that point |
| PickSpec.FillNothing | scripts/stock_picker.py:133-140 | an empty batch changes nothing |
| PickSpec.AfterBurst | scripts/stock_picker.py:129-148 | a pass after its burst spends one or two attempts; when the second is spent is stated by `AfterBurstOfFill` |
| PickSpec.Fallback | scripts/stock_picker.py:143-148 | the fallback call spends one attempt |
| PickSpec.FallbackOf | scripts/stock_picker.py:144-148 | the fallback pick is added exactly when it is not `ERROR` and not seen |
| PickSpec.Round | scripts/stock_picker.py:127-148 | a pass fails exactly when `batch_size <= 0`, and otherwise spends one or two attempts |
| PickSpec.RoundOfBurst | scripts/stock_picker.py:129-130 | proof step: a pass whose burst succeeds goes on with that burst's batch |
| PickSpec.AfterBurstOfFill | scripts/stock_picker.py:132-148 | proof step: the fallback runs exactly when the batch added nothing and the quota is not met |
| PickSpec.FillKeeps | scripts/stock_picker.py:133-140 | the batch loop keeps the loop invariant: `seen` is the set of picked tickers, no repeats, no `ERROR`, every ticker valid, quota not exceeded |
| PickSpec.FallbackKeeps | scripts/stock_picker.py:143-148 | the fallback call keeps the loop invariant |
| PickSpec.AddOneKeeps | scripts/stock_picker.py:146-148 | adding one valid, unseen pick below the quota keeps the loop invariant |
| PickSpec.AfterBurstKeeps | scripts/stock_picker.py:129-148 | a pass after a successful burst keeps the loop invariant |
| PickSpec.RoundKeeps | scripts/stock_picker.py:127-148 | every pass keeps the loop invariant |
| PickSpec.RunOfRound | scripts/stock_picker.py:127 | proof step: a pass that is due leads to the rest of the loop |
| PickSpec.RunKeeps | scripts/stock_picker.py:123-152 | the loop ends with the invariant it started with |
| PickSpec.RunAttempts | scripts/stock_picker.py:127-152 | the loop ends with at most one attempt past the cap, and ends short of the quota only when the cap is reached |
| PickSpec.RunSucceeds | scripts/stock_picker.py:127-152 | with a positive batch size the loop ends and returns a list |
| PickSpec.RunFailure | scripts/stock_picker.py:127-130 | `get_stocks` raises exactly when the quota and cap are positive and `batch_size <= 0` |
| PickSpec.AfterBurstAllFail | scripts/stock_picker.py:143-148 | when no call succeeds, the fallback adds nothing and spends one more attempt |
| PickSpec.RoundAllFail | scripts/stock_picker.py:127-148 | when no call succeeds, a pass adds nothing and spends two attempts |
| PickSpec.RunAllFail | scripts/stock_picker.py:127-152 | when no call succeeds, the loop returns no pick after the first even attempt count at or above the cap |
| PickSpec.RunNoQuota | scripts/stock_picker.py:127 | a request for no stock returns at once, with no call made |
| PickSpec.GetStocksResult | scripts/stock_picker.py:122-155 | at most `num_stocks` picks, none `ERROR`, every ticker sanitised and valid, no ticker twice, at most one attempt past the cap |
| PickSpec.DefaultAllFail | scripts/stock_picker.py:117-152 | with the default settings and no call succeeding, the loop ends with no pick after 50 attempts |
| PickSpec.GetStocksAllRaised | scripts/stock_picker.py:84-155 | with the default settings and every call raising, `get_stocks` returns an empty list after 50 attempts |
| Picker.SingleStockPicker | scripts/stock_picker.py:55-89 | the retry loop returns the pick and the call count `SinglePick` describes |
| Picker.RunMultipleAgents | scripts/stock_picker.py:91-110 | fails when `agent_count <= 0`; otherwise returns the batch and calls `RunAgents` describes |
| Picker.DrainFutures | scripts/stock_picker.py:101-108 | the drain keeps, in submission order, each non-`ERROR` pick with a ticker not seen yet |
| Picker.AddBatch | scripts/stock_picker.py:132-140 | the batch loop with its break computes `Fill` |
| Picker.StockPicker.constructor | scripts/stock_picker.py:117-120 | the three settings are stored, with defaults 5, 50 and 6 |
| Picker.StockPicker.GetStocks | scripts/stock_picker.py:122-152 | the `while` loop returns the picks `Run` describes, or the pool's failure |
| Picker.Burst | scripts/stock_picker.py:129-148 | one pass of the `while` loop computes `Round` |
| Picker.SingleCall | scripts/stock_picker.py:143-148 | the fallback call computes `Fallback` |
| Picker.GetStocks | scripts/stock_picker.py:154-155 | the default picker never raises and returns at most `num_stocks` valid picks with distinct tickers, none `ERROR` |
| FetchStock.LoadJson | scripts/fetch_stock.py:28-43 | a stored document is returned as it is; otherwise the skeleton with title, cost basis 10000.00 and empty series, picks and positions |
| FetchStock.NormalizePicks | scripts/fetch_stock.py:100-109 | the normalisation loop computes `NormalPicks` |
| FetchStock.NormalPicksShape | scripts/fetch_stock.py:100-109 | normalised tickers are non-empty, upper-case and distinct; each pick is the normal form of an input pick, with a missing reason read as `""`; every non-empty input ticker is represented |
| FetchStock.BuildPositionsFromPicks | scripts/fetch_stock.py:49-63 | the loop computes `BuiltPositions` |
| FetchStock.BuiltPositionsShape | scripts/fetch_stock.py:49-63 | position tickers are non-empty, upper-case, distinct and taken from the picks, and every position has the default quantity and price |
| FetchStock.PositionsFollowPicks | scripts/fetch_stock.py:112-114 | from normalised picks there is exactly one position per pick, in the same order, with quantity 10.0 and price 100.0 |
| FetchStock.TrimPositions | scripts/fetch_stock.py:116-124 | every position, in order, is cut down to an upper-case ticker, a quantity and a price, missing numbers read as 0.0 |
| FetchStock.TrimTwice | scripts/fetch_stock.py:117-124 | trimming a trimmed position changes nothing |
| FetchStock.WithToday | scripts/fetch_stock.py:68-84 | the series gains an entry for today only when it has none, and that entry carries the last equity or else the cost basis; earlier entries are untouched |
| FetchStock.WithTodayTwice | scripts/fetch_stock.py:70-72 | a second run on the same day adds nothing |
| FetchStock.Refresh | scripts/fetch_stock.py:65-129 | `main` between loading and saving computes `Merged` |
| FetchStock.MergedFails | scripts/fetch_stock.py:127 | the sort fails exactly when a stored series entry has no date |
| FetchStock.MergedSeries | scripts/fetch_stock.py:126-129 | the series written is sorted by date, a permutation of the series after today's step, stable within a date; the title and time stamp are set |
| FetchStock.MergedPicks | scripts/fetch_stock.py:86-124 | non-empty normalised picks replace the picks and positions; otherwise the stored picks stay and the positions are trimmed |
| FetchStock.MergedTwiceSameDay | scripts/fetch_stock.py:68-129 | running again on the same day leaves the equity series as the first run wrote it |
| TickerList.NonBlank | scripts/get_ticker_list.py:31 | only non-blank lines are kept, and they come from the input |
| TickerList.NonBlankKeepsAll | scripts/get_ticker_list.py:31 | every non-blank line is kept |
| TickerList.NonBlankAppend | scripts/get_ticker_list.py:31 | the filter keeps the input order: filtering a concatenation concatenates the filtered parts |
| TickerList.NonBlankFirst | scripts/get_ticker_list.py:31-34 | the first non-blank piece is the first line kept |
| TickerList.Lines | scripts/get_ticker_list.py:31 | every line is non-blank and holds no line break |
| TickerList.LinesComplete | scripts/get_ticker_list.py:31-34 | every non-blank line of the text is among the lines, and the first of them is the line the header is read from |
| TickerList.RecordStripped | scripts/get_ticker_list.py:41-42 | every record value is stripped |
| TickerList.RecordKeys | scripts/get_ticker_list.py:41-42 | the record has exactly the header's column names as keys |
| TickerList.RecordCell | scripts/get_ticker_list.py:41-42 | a column reads as the stripped cell of its last occurrence in the header, or `""` past the end of a short row |
| TickerList.SymbolOf | scripts/get_ticker_list.py:43 | a symbol found is a non-empty record value |
| TickerList.SymbolOfFirst | scripts/get_ticker_list.py:43-45 | the symbol is the value of the first listed field that has a non-empty value; there is none exactly when no field has one |
| TickerList.RowSymbols | scripts/get_ticker_list.py:41-48 | a row adds at most one symbol, non-empty, upper-case and stripped |
| TickerList.RowsSymbols | scripts/get_ticker_list.py:38-48 | every symbol is non-empty, upper-case and stripped |
| TickerList.Symbols | scripts/get_ticker_list.py:30-49 | every symbol returned is non-empty, upper-case and stripped |
| TickerList.ParseSymbols | scripts/get_ticker_list.py:30-49 | `parse_symbols` computes `Symbols` |
| TickerList.ParseRows | scripts/get_ticker_list.py:37-49 | the row loop with its `break` and `continue` computes `RowsSymbols` |
| TickerList.SymbolsAvoidLineBreaks | scripts/get_ticker_list.py:31-48 | no symbol holds a line break |
| TickerList.SymbolsOfBlank | scripts/get_ticker_list.py:31-33 | blank text has no symbols |
| TickerList.FooterStops | scripts/get_ticker_list.py:39-40 | rows after the footer add nothing |
| TickerList.RowsSymbolsAppend | scripts/get_ticker_list.py:37-48 | without a footer, output order is row order |
| TickerList.TestIssueSkipped | scripts/get_ticker_list.py:46-47 | a test issue adds nothing |
| TickerList.RowSymbolIsFirstField | scripts/get_ticker_list.py:43-48 | a row that is not a test issue adds the upper-cased first non-empty symbol field, if any |
| TickerList.UniverseShape | scripts/get_ticker_list.py:70 | the universe lists each symbol of either directory exactly once, in strictly increasing order, and nothing else |
| TickerList.WriteUniverse | scripts/get_ticker_list.py:74-77 | the writing loop produces the `Symbol` header, then one line per symbol |
| TickerList.BuildUniverse | scripts/get_ticker_list.py:64-77 | the file text is the header and the sorted union of both directories' symbols |
| ValidateTicker.NonEmptyShape | scripts/utils/validate_ticker.py:42-44 | only non-empty tokens pass the filter, and they come from the input |
| ValidateTicker.NonEmptyKeepsAll | scripts/utils/validate_ticker.py:42-44 | every non-empty token passes the filter |
| ValidateTicker.NonEmptyAppend | scripts/utils/validate_ticker.py:42-44 | the filter keeps the token order: filtering a concatenation concatenates the filtered parts |
| ValidateTicker.LineTokensComplete | scripts/utils/validate_ticker.py:37-44 | a non-blank line without a comma is one token, the stripped line; with a comma, every stripped comma-separated part that is not empty is a token |
| ValidateTicker.TokensComplete | scripts/utils/validate_ticker.py:36-44 | every token of a line is a token of the file |
| ValidateTicker.LineTokensShape | scripts/utils/validate_ticker.py:37-44 | every token of a line is non-empty and stripped |
| ValidateTicker.TokensShape | scripts/utils/validate_ticker.py:36-44 | every token of the file is non-empty and stripped |
| ValidateTicker.LoadSymbols | scripts/utils/validate_ticker.py:29-50 | `_load_symbols` computes `SymbolSet` |
| ValidateTicker.ReadTokens | scripts/utils/validate_ticker.py:36-44 | the line loop collects the tokens of every line in file order |
| ValidateTicker.AppendTokens | scripts/utils/validate_ticker.py:42-44 | the token loop appends exactly the non-empty tokens |
| ValidateTicker.SymbolSetNormal | scripts/utils/validate_ticker.py:50 | every loaded symbol is non-empty, upper-case, stripped, and its own normal form |
| ValidateTicker.Normalize | scripts/utils/validate_ticker.py:52-53 | the normal form is stripped and upper-case |
| ValidateTicker.NormalizeIdempotent | scripts/utils/validate_ticker.py:52-53 | normalising twice is normalising once |
| ValidateTicker.NormalizePadded | scripts/utils/validate_ticker.py:52-53 | padding and case do not change the normal form |
| ValidateTicker.LoadedSymbolsValid | scripts/utils/validate_ticker.py:50-56 | every member of a loaded universe is a valid ticker for it |
| ValidateTicker.Requested | scripts/utils/validate_ticker.py:79 | with no argument after the program name there is no ticker; every ticker is stripped and upper-case |
| ValidateTicker.ValidateMain | scripts/utils/validate_ticker.py:58-87 | exit code 2 without a ticker, 1 when the file is missing or unreadable, else 0 exactly when every ticker is in the universe; one verdict per ticker, in order |
| ValidateTicker.CheckAll | scripts/utils/validate_ticker.py:80-87 | the flag holds exactly when every ticker is in the universe, with one verdict per ticker |
| Universe.UniverseLines | scripts/get_ticker_list.py:74-77 | the lines of the universe file are the header, the symbols, and the empty text after the last newline |
| Universe.HeaderIsDropped | scripts/utils/validate_ticker.py:47-48 | the `Symbol` header is dropped |
| Universe.TokensOfPlain | scripts/utils/validate_ticker.py:36-44 | a file of plain symbols yields those symbols as tokens |
| Universe.UniverseTokens | scripts/utils/validate_ticker.py:36-44 | the tokens of the universe file are its header and its symbols |
| Universe.ReadWritten | scripts/utils/validate_ticker.py:29-50 | reading back a universe file gives the set of symbols written, upper-cased |
| Universe.UniverseRoundTrip | scripts/get_ticker_list.py:70-77 | the universe written from two directories reads back as the set of their symbols, upper-cased |
| Universe.ParsedPlain | scripts/get_ticker_list.py:30-49 | a parsed symbol without a comma can be written and read back unchanged |
| Universe.UpperRoundTrip | scripts/get_ticker_list.py:70-77 | for upper-case plain symbols, the universe read back is exactly their set, and each validates |
| Universe.ParsedRoundTrip | scripts/get_ticker_list.py:62-77 | every symbol parsed from the two directories is in the loaded universe, and nothing else is |

## Left out

- Threads: `ThreadPoolExecutor` is a sequential drain in submission order. Every agent of a burst sees the snapshot of `seen` taken at the burst's start.
- The chat-model call, prompt and response shape: a function from the call index to a reply, where a missing content reads as `""`.
- Yahoo Finance: `StockDataFetcher.fetch`, `get_data` and the performance table (history, news, moving averages, RSI, volatility) are left out. They are reduced to the `currentPrice` and `exchange` that `is_valid_ticker` reads, given by a `lookup` parameter.
- The download and its retries in `http_get`: the directory texts are parameters.
- The filesystem: `load_json` file reading, `save_json`, `mkdir`, the universe file write, `_repo_root` and `_find_symbols_file`. They become the stored document, the returned text, and a `SymbolsFile` value that is `NotFound`, `Unreadable` or has `Contents`.
- The clock and `time.sleep`: today's date and the current time are parameters.
- Logging and `print`: usage texts, warnings and the per-ticker `VALID`/`INVALID` lines are left out. `ValidateMain` returns the verdicts instead of printing them.
- Case mapping: `upper` is ASCII-only. Python maps some other letters too, for example `ß` to `SS`.
- Line splitting: `splitlines` is modelled as splitting at every character it breaks at, and file iteration as splitting at `\n` and `\r`, Python's universal newlines. A `\r\n` gives one extra empty piece, which the blank filters remove.
- Extra JSON keys: a `Document`, an equity entry, a pick and a position keep only the keys `main` reads. `main` writes back the whole loaded object, so any other top-level key, or any other key of a stored equity entry or pick, is kept by the program and not by the model.
- Float semantics: equity, quantity and price are `real`, and they are only carried or defaulted. A JSON `null` number is treated like a missing key, whereas `float(None)` would raise.
- Non-string dates: the sort fails only on a missing date. Comparing dates of mixed types is not modelled.
- The import failure of `stock_picker` and an exception from `get_stocks` are one parameter: the picker's list is `None`.
- Universe.ParsedRoundTrip: only symbols without a comma round-trip. `_load_symbols` would split a symbol with a comma.
- PickSpec.RunAttempts: the loop is not proved to meet the quota when the model keeps answering with new valid tickers. The model proves only that the loop stops short of the quota once the cap is reached.
