/**
 * The loops of scripts/stock_picker.py as the program runs them, each
 * proved to compute the function of PickSpec that describes it.
 */
module Picker {
  import opened Text
  import opened Wrappers
  import opened ParsePick
  import opened YahooFinance
  import opened Dedup
  import opened PickSpec

  /** `single_stock_picker(existing_tickers, max_retries)`: asks up to
      `maxRetries` times, the first call being call `start`, and returns the
      first pick `attempt` accepts; the second result is the number of calls
      made. */
  method SingleStockPicker(existing: set<string>, maxRetries: int, attempt: Outcomes, start: nat)
      returns (pick: Pick, calls: nat)
    ensures (pick, calls) == SinglePick(attempt, existing, maxRetries, start)
  {
    calls := 0;
    while calls < maxRetries
      invariant calls <= Max0(maxRetries)
      invariant var (p, k) := SinglePick(attempt, existing, maxRetries - calls, start + calls);
        SinglePick(attempt, existing, maxRetries, start) == (p, k + calls)
      decreases maxRetries - calls
    {
      var o := attempt(existing, start + calls);
      if o.Some? {
        return o.value, calls + 1;
      }
      SinglePickNone(attempt, existing, maxRetries - calls, start + calls);
      calls := calls + 1;
    }
    return ErrorPick, calls;
  }

  /** `run_multiple_agents(agent_count, seen_tickers)`: submits `agentCount`
      agents on a copy of `seenTickers`, then drains their picks in
      submission order, keeping each non-`ERROR` pick whose ticker is not
      seen yet. Building the pool fails when `agentCount <= 0`. */
  method RunMultipleAgents(agentCount: int, seenTickers: set<string>, attempt: Outcomes, start: nat)
      returns (r: Result<seq<Pick>, PoolError>, calls: nat)
    ensures agentCount <= 0 ==> r == Failure(NoWorkers)
    ensures agentCount > 0 ==> r.Success? && RunAgents(agentCount, attempt, seenTickers, start) == Success((r.value, calls))
  {
    if agentCount <= 0 {
      return Failure(NoWorkers), 0;
    }
    var seen := seenTickers;
    var futures: seq<Pick> := [];
    calls := 0;
    var i := 0;
    while i < agentCount
      invariant 0 <= i <= agentCount
      invariant (futures, calls) == Agents(i, attempt, seenTickers, start)
    {
      var p, n := SingleStockPicker(seen, AgentRetries, attempt, start + calls);
      AgentsStep(i, attempt, seenTickers, start, futures, calls, p, n);
      futures, calls := futures + [p], calls + n;
      i := i + 1;
    }
    var results := DrainFutures(futures, seenTickers);
    return Success(results), calls;
  }

  /** The drain loop of `run_multiple_agents`: the futures in submission
      order, each non-`ERROR` pick kept when its ticker is not seen yet. */
  method DrainFutures(futures: seq<Pick>, seenTickers: set<string>) returns (results: seq<Pick>)
    ensures results == Keep(futures, TickerOf, NotError, seenTickers)
  {
    var seen := seenTickers;
    results := [];
    for j := 0 to |futures|
      invariant results == Keep(futures[..j], TickerOf, NotError, seenTickers)
      invariant seen == seenTickers + Keys(results, TickerOf)
    {
      var result := futures[j];
      var t := result.ticker;
      KeepStep(futures, j, TickerOf, NotError, seenTickers);
      if t != "ERROR" && t !in seen {
        seen := seen + {t};
        results := results + [result];
      }
    }
    assert futures[..|futures|] == futures;
  }

  /** The `for r in batch` loop of `get_stocks`: adds each non-`ERROR` pick
      with an unseen ticker, and stops as soon as the quota is reached. */
  method AddBatch(picks0: seq<Pick>, seen0: set<string>, b: seq<Pick>, quota: int)
      returns (picks: seq<Pick>, seen: set<string>, added: nat)
    requires |picks0| < quota
    ensures (picks, seen, added) == Fill(picks0, seen0, b, quota)
  {
    picks, seen, added := picks0, seen0, 0;
    for k := 0 to |b|
      invariant var kept := Keep(b[..k], TickerOf, NotError, seen0);
        && picks == picks0 + kept
        && seen == seen0 + Keys(kept, TickerOf)
        && added == |kept|
        && |picks| < quota
    {
      var t := b[k].ticker;
      KeepStep(b, k, TickerOf, NotError, seen0);
      if t != "ERROR" && t !in seen {
        AppendAssoc(picks0, Keep(b[..k], TickerOf, NotError, seen0), [b[k]]);
        seen := seen + {t};
        picks := picks + [b[k]];
        added := added + 1;
        if |picks| >= quota {
          ghost var kept := Keep(b[..k + 1], TickerOf, NotError, seen0);
          assert picks == picks0 + kept && seen == seen0 + Keys(kept, TickerOf) && added == |kept|;
          assert |kept| == Room(picks0, quota);
          FillBreak(picks0, seen0, b, quota, k + 1);
          return;
        }
      }
    }
    assert b[..|b|] == b;
    FillWhole(picks0, seen0, b, quota);
  }

  /** `StockPicker`: its three settings are fixed when it is built. */
  class StockPicker {
    const perCallRetries: int
    const globalAttemptCap: int
    const batchSize: int

    constructor (perCallRetries: int := 5, globalAttemptCap: int := 50, batchSize: int := 6)
      ensures this.perCallRetries == perCallRetries
      ensures this.globalAttemptCap == globalAttemptCap
      ensures this.batchSize == batchSize
    {
      this.perCallRetries := perCallRetries;
      this.globalAttemptCap := globalAttemptCap;
      this.batchSize := batchSize;
    }

    function Config(): PickerConfig {
      PickerConfig(perCallRetries, globalAttemptCap, batchSize)
    }

    /** `get_stocks(num_stocks)`: bursts of agents, each followed by a single
        call when it added nothing, until `numStocks` picks are collected or
        the attempt cap is reached. Building a pool of `batchSize <= 0`
        workers raises, and the exception leaves the method. */
    method GetStocks(numStocks: int, attempt: Outcomes, start: nat)
        returns (r: Result<seq<Pick>, PoolError>, calls: nat)
      ensures match Run(Config(), numStocks, attempt, start, Initial)
        case Failure(e) => r == Failure(e)
        case Success(st) => r == Success(st.picks) && calls == st.calls
    {
      var picks: seq<Pick> := [];
      var seen: set<string> := {};
      var attempts := 0;
      calls := 0;
      while |picks| < numStocks && attempts < globalAttemptCap
        invariant Run(Config(), numStocks, attempt, start, Progress(picks, seen, attempts, calls))
               == Run(Config(), numStocks, attempt, start, Initial)
        decreases globalAttemptCap - attempts
      {
        var next := Burst(Config(), numStocks, attempt, start, Progress(picks, seen, attempts, calls));
        if next.Failure? {
          return Failure(next.error), calls;
        }
        picks, seen, attempts, calls := next.value.picks, next.value.seen, next.value.attempts, next.value.calls;
      }
      r := Success(picks);
    }
  }

  /** One pass of the `while` loop of `get_stocks` from the state `st`: a
      burst of `batchSize` agents, the batch loop, and the single call when
      the burst added nothing. */
  method Burst(cfg: PickerConfig, quota: int, attempt: Outcomes, start: nat, st: Progress)
      returns (r: Result<Progress, PoolError>)
    requires |st.picks| < quota
    ensures r == Round(cfg, quota, attempt, start, st)
  {
    var batch, used := RunMultipleAgents(cfg.batchSize, st.seen, attempt, start + st.calls);
    if batch.Failure? {
      return Failure(batch.error);
    }
    var b := batch.value;
    RoundOfBurst(cfg, quota, attempt, start, st, b, used);
    var picks, seen, added := AddBatch(st.picks, st.seen, b, quota);
    AfterBurstOfFill(cfg, quota, attempt, start, st, b, used, picks, seen, added);
    var next := Progress(picks, seen, st.attempts + 1, st.calls + used);
    if added == 0 && |picks| < quota {
      next := SingleCall(attempt, cfg.perCallRetries, start, next);
    }
    return Success(next);
  }

  /** The single call `get_stocks` makes after a burst that added nothing:
      its pick is added when it is not `ERROR` and not seen yet. */
  method SingleCall(attempt: Outcomes, retries: int, start: nat, st: Progress) returns (r: Progress)
    ensures r == Fallback(attempt, retries, start, st)
  {
    var one, n := SingleStockPicker(st.seen, retries, attempt, start + st.calls);
    var picks, seen := st.picks, st.seen;
    if one.ticker != "ERROR" && one.ticker !in seen {
      seen := seen + {one.ticker};
      picks := picks + [one];
    }
    r := Progress(picks, seen, st.attempts + 1, st.calls + n);
  }

  /** The module-level `get_stocks(num_stocks)`: a default `StockPicker`,
      which never raises, returns at most `numStocks` validated picks with
      distinct tickers. */
  method GetStocks(numStocks: int, gen: nat -> Reply, lookup: string -> Lookup, start: nat) returns (picks: seq<Pick>)
    ensures Run(DefaultConfig, numStocks, Outcome(gen, lookup), start, Initial).Success?
    ensures picks == Run(DefaultConfig, numStocks, Outcome(gen, lookup), start, Initial).value.picks
    ensures |picks| <= Max0(numStocks) && DistinctKeys(picks, TickerOf)
    ensures forall i :: 0 <= i < |picks| ==> NotError(picks[i]) && GoodTicker(picks[i].ticker, lookup)
  {
    var picker := new StockPicker();
    assert picker.Config() == DefaultConfig;
    RunSucceeds(DefaultConfig, numStocks, Outcome(gen, lookup), start, Initial);
    GetStocksResult(DefaultConfig, numStocks, gen, lookup, start);
    var r, calls := picker.GetStocks(numStocks, Outcome(gen, lookup), start);
    picks := r.value;
  }
}
