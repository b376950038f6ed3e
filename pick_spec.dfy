/**
 * What scripts/stock_picker.py computes, as values: one attempt on a model
 * reply, `single_stock_picker`'s retry loop, the agents of
 * `run_multiple_agents` and the rounds of `StockPicker.get_stocks`.
 *
 * The chat model is the function `gen`: the n-th call made in a run gets
 * the reply `gen(n)`. The market-data lookup behind `is_valid_ticker` is the
 * function `lookup`.
 */
module PickSpec {
  import opened Text
  import opened Wrappers
  import opened ParsePick
  import opened YahooFinance
  import opened Dedup

  /** `{"ticker": ..., "reason": ...}`. */
  datatype Pick = Pick(ticker: string, reason: string)

  /** What `single_stock_picker` returns once every attempt failed. */
  const ErrorPick: Pick := Pick("ERROR", "Exceeded retry limit or invalid/duplicate ticker")

  /** One chat completion: the call raised, or it answered with a message
      whose content may be missing. */
  datatype Reply = Raised | Answer(content: Option<string>)

  /** `ThreadPoolExecutor(max_workers=n)` raises `ValueError` for `n <= 0`. */
  datatype PoolError = NoWorkers

  /** `run_multiple_agents` calls `single_stock_picker` with its default
      `max_retries`. */
  const AgentRetries: int := 5

  function Max0(n: int): nat {
    if n < 0 then 0 else n
  }

  function TickerOf(p: Pick): string {
    p.ticker
  }

  predicate NotError(p: Pick) {
    p.ticker != "ERROR"
  }

  /** A ticker `single_stock_picker` may return: sanitised, neither empty nor
      `UNKNOWN`, and approved by the validator. */
  predicate GoodTicker(ticker: string, lookup: string -> Lookup) {
    IsTickerText(ticker) && ticker != "" && ticker != "UNKNOWN" && IsValidTicker(ticker, lookup)
  }

  /** `GoodTicker` under `lookup`, as a value the loops below take. */
  function Validator(lookup: string -> Lookup): string -> bool {
    t => GoodTicker(t, lookup)
  }

  /** A ticker the validator `ok` approves that is not taken yet. */
  predicate Acceptable(ticker: string, existing: set<string>, ok: string -> bool) {
    ok(ticker) && ticker !in existing
  }

  /** A pick that may stay in the output: an approved ticker that is not the
      `ERROR` sentinel. */
  predicate Usable(p: Pick, ok: string -> bool) {
    NotError(p) && ok(p.ticker)
  }

  /** The ticker and reason `_parse_pick` finds in a reply's content, the
      ticker then sanitised. */
  function Parsed(content: Option<string>): (string, string) {
    var (raw, reason) := ParsePick.ParsePick(Strip(content.GetOr("")));
    (SanitizeTicker(raw), reason)
  }

  /** One pass of the body of `single_stock_picker`'s loop: the pick it
      returns, or `None` when it goes on to the next attempt. */
  function Attempt(reply: Reply, existing: set<string>, lookup: string -> Lookup): (r: Option<Pick>)
    ensures r.Some? ==> reply.Answer? && r.value == Pick(Parsed(reply.content).0, Parsed(reply.content).1)
    ensures r.Some? <==> reply.Answer? && GoodTicker(Parsed(reply.content).0, lookup) && Parsed(reply.content).0 !in existing
  {
    match reply
    case Raised => None
    case Answer(c) =>
      var (ticker, reason) := Parsed(c);
      if ticker == "" || ticker == "UNKNOWN" then None
      else if ticker in existing then None
      else if !IsValidTicker(ticker, lookup) then None
      else Some(Pick(ticker, reason))
  }

  /** How the calls turn out: `attempt(existing, i)` is the pick call `i`
      returns when the tickers in `existing` are taken, or `None` when that
      call fails. The loops below are stated over any such function. */
  type Outcomes = (set<string>, nat) -> Option<Pick>

  /** The outcomes of the chat model `gen` under the validator `lookup`. */
  function Outcome(gen: nat -> Reply, lookup: string -> Lookup): Outcomes {
    (existing: set<string>, i: nat) => Attempt(gen(i), existing, lookup)
  }

  /** Outcomes that succeed only with an acceptable ticker. */
  ghost predicate Sound(attempt: Outcomes, ok: string -> bool) {
    forall existing: set<string>, i: nat ::
      attempt(existing, i).Some? ==> Acceptable(attempt(existing, i).value.ticker, existing, ok)
  }

  /** Outcomes that never succeed. */
  ghost predicate NeverSucceeds(attempt: Outcomes) {
    forall existing: set<string>, i: nat :: attempt(existing, i).None?
  }

  /** The model's replies give sound outcomes under the validator. */
  lemma OutcomeSound(gen: nat -> Reply, lookup: string -> Lookup)
    ensures Sound(Outcome(gen, lookup), Validator(lookup))
  {
    forall existing: set<string>, i: nat
      ensures var o := Outcome(gen, lookup)(existing, i);
        o.Some? ==> Acceptable(o.value.ticker, existing, Validator(lookup))
    {
      assert Outcome(gen, lookup)(existing, i) == Attempt(gen(i), existing, lookup);
    }
  }

  /** A reply that raised is a failed attempt. */
  lemma RaisedNeverSucceeds(gen: nat -> Reply, lookup: string -> Lookup)
    requires forall i :: gen(i) == Raised
    ensures NeverSucceeds(Outcome(gen, lookup))
  {
    forall existing: set<string>, i: nat
      ensures Outcome(gen, lookup)(existing, i).None?
    {
      assert Outcome(gen, lookup)(existing, i) == Attempt(gen(i), existing, lookup);
    }
  }

  /** `single_stock_picker(existing, retries)` when its first call is call
      `start`: the pick and how many calls it made. */
  function SinglePick(attempt: Outcomes, existing: set<string>, retries: int, start: nat): (r: (Pick, nat))
    decreases Max0(retries)
  {
    if retries <= 0 then (ErrorPick, 0)
    else
      match attempt(existing, start)
      case Some(p) => (p, 1)
      case None =>
        var (p, n) := SinglePick(attempt, existing, retries - 1, start + 1);
        (p, n + 1)
  }

  /** Every call in `[from, to)` failed. */
  predicate AllFail(attempt: Outcomes, existing: set<string>, from: nat, to: int) {
    forall i: nat :: from <= i < to ==> attempt(existing, i).None?
  }

  /** `single_stock_picker` returns the first successful attempt, after only
      failed ones; or it makes exactly `retries` failed attempts and returns
      the `ERROR` pick. */
  lemma {:induction false} SinglePickOutcome(attempt: Outcomes, existing: set<string>, retries: int, start: nat)
    ensures var (p, n) := SinglePick(attempt, existing, retries, start);
      || (1 <= n && AllFail(attempt, existing, start, start + n - 1) && attempt(existing, start + n - 1) == Some(p))
      || (p == ErrorPick && n == Max0(retries) && AllFail(attempt, existing, start, start + n))
    decreases Max0(retries)
  {
    if retries > 0 && attempt(existing, start).None? {
      SinglePickOutcome(attempt, existing, retries - 1, start + 1);
    }
  }

  /** With no retries allowed, the `ERROR` pick comes back at once. */
  lemma SinglePickNoRetries(attempt: Outcomes, existing: set<string>, retries: int, start: nat)
    requires retries <= 0
    ensures SinglePick(attempt, existing, retries, start) == (ErrorPick, 0)
  {
  }

  /** When no attempt succeeds, all retries are spent on the `ERROR` pick. */
  lemma {:induction false} SinglePickAllFail(attempt: Outcomes, existing: set<string>, retries: int, start: nat)
    requires NeverSucceeds(attempt)
    ensures SinglePick(attempt, existing, retries, start) == (ErrorPick, Max0(retries))
    decreases Max0(retries)
  {
    if retries > 0 {
      assert attempt(existing, start).None?;
      SinglePickAllFail(attempt, existing, retries - 1, start + 1);
    }
  }

  /** A failed call leaves the rest to the remaining retries. */
  lemma SinglePickNone(attempt: Outcomes, existing: set<string>, retries: int, start: nat)
    requires retries > 0 && attempt(existing, start).None?
    ensures var (p, n) := SinglePick(attempt, existing, retries - 1, start + 1);
      SinglePick(attempt, existing, retries, start) == (p, n + 1)
  {
  }

  /** The pick is the `ERROR` pick or carries an acceptable ticker. */
  lemma SinglePickSound(attempt: Outcomes, existing: set<string>, retries: int, start: nat, ok: string -> bool)
    requires Sound(attempt, ok)
    ensures var p := SinglePick(attempt, existing, retries, start).0;
      p == ErrorPick || Acceptable(p.ticker, existing, ok)
  {
    SinglePickOutcome(attempt, existing, retries, start);
  }

  /** The futures of `run_multiple_agents`: `count` agents, each running
      `single_stock_picker` on the same snapshot of `seen`, the calls of
      each following those of the agents submitted before it. */
  function Agents(count: nat, attempt: Outcomes, snapshot: set<string>, start: nat): (r: (seq<Pick>, nat))
    ensures |r.0| == count
  {
    if count == 0 then ([], 0)
    else
      var (ps, m) := Agents(count - 1, attempt, snapshot, start);
      var (p, n) := SinglePick(attempt, snapshot, AgentRetries, start + m);
      (ps + [p], m + n)
  }

  /** One more agent appends its pick and its calls. */
  lemma AgentsStep(count: nat, attempt: Outcomes, snapshot: set<string>, start: nat, ps: seq<Pick>, m: nat, p: Pick, n: nat)
    requires Agents(count, attempt, snapshot, start) == (ps, m)
    requires SinglePick(attempt, snapshot, AgentRetries, start + m) == (p, n)
    ensures Agents(count + 1, attempt, snapshot, start) == (ps + [p], m + n)
  {
  }

  /** Every future is the `ERROR` pick or carries a ticker acceptable
      against the snapshot. */
  predicate SoundFutures(fs: seq<Pick>, snapshot: set<string>, ok: string -> bool) {
    forall i :: 0 <= i < |fs| ==> fs[i] == ErrorPick || Acceptable(fs[i].ticker, snapshot, ok)
  }

  lemma {:induction false} AgentsSound(count: nat, attempt: Outcomes, snapshot: set<string>, start: nat, ok: string -> bool)
    requires Sound(attempt, ok)
    ensures SoundFutures(Agents(count, attempt, snapshot, start).0, snapshot, ok)
  {
    if count > 0 {
      AgentsSound(count - 1, attempt, snapshot, start, ok);
      var (ps, m) := Agents(count - 1, attempt, snapshot, start);
      SinglePickSound(attempt, snapshot, AgentRetries, start + m, ok);
      var p := SinglePick(attempt, snapshot, AgentRetries, start + m).0;
      var fs := Agents(count, attempt, snapshot, start).0;
      assert fs == ps + [p];
      forall i | 0 <= i < count
        ensures fs[i] == ErrorPick || Acceptable(fs[i].ticker, snapshot, ok)
      {
        if i < count - 1 {
          assert fs[i] == ps[i];
        }
      }
    }
  }

  /** When no attempt succeeds, every agent gives the `ERROR` pick. */
  lemma {:induction false} AgentsAllFail(count: nat, attempt: Outcomes, snapshot: set<string>, start: nat)
    requires NeverSucceeds(attempt)
    ensures forall i :: 0 <= i < count ==> Agents(count, attempt, snapshot, start).0[i] == ErrorPick
  {
    if count > 0 {
      AgentsAllFail(count - 1, attempt, snapshot, start);
      var m := Agents(count - 1, attempt, snapshot, start).1;
      SinglePickAllFail(attempt, snapshot, AgentRetries, start + m);
    }
  }

  /** What the drain of `run_multiple_agents` may return: at most one pick
      per agent, usable, unseen, and no ticker twice. */
  predicate WellDrained(r: seq<Pick>, agentCount: int, seen: set<string>, ok: string -> bool) {
    && |r| <= agentCount
    && DistinctKeys(r, TickerOf)
    && (forall i :: 0 <= i < |r| ==> Usable(r[i], ok) && r[i].ticker !in seen)
  }

  /** What the drain keeps of futures that are each the `ERROR` pick or
      acceptable is well drained. */
  lemma KeepDrained(futures: seq<Pick>, seen: set<string>, ok: string -> bool)
    requires SoundFutures(futures, seen, ok)
    ensures WellDrained(Keep(futures, TickerOf, NotError, seen), |futures|, seen, ok)
  {
    var kept := Keep(futures, TickerOf, NotError, seen);
    KeepSound(futures, TickerOf, NotError, seen);
    forall i | 0 <= i < |kept|
      ensures Usable(kept[i], ok)
    {
      var j :| 0 <= j < |futures| && futures[j] == kept[i];
    }
  }

  /** `run_multiple_agents(agent_count, seen_tickers)`: the picks kept by the
      drain in submission order, and the calls made. */
  function RunAgents(agentCount: int, attempt: Outcomes, seen: set<string>, start: nat): (r: Result<(seq<Pick>, nat), PoolError>)
    ensures r.Failure? <==> agentCount <= 0
    ensures r.Success? ==> |r.value.0| <= agentCount
  {
    if agentCount <= 0 then Failure(NoWorkers)
    else
      var (futures, n) := Agents(agentCount, attempt, seen, start);
      Success((Keep(futures, TickerOf, NotError, seen), n))
  }

  /** The drain returns usable, unseen picks with distinct tickers. */
  lemma RunAgentsSound(agentCount: int, attempt: Outcomes, seen: set<string>, start: nat, ok: string -> bool, batch: seq<Pick>, used: nat)
    requires Sound(attempt, ok)
    requires RunAgents(agentCount, attempt, seen, start) == Success((batch, used))
    ensures WellDrained(batch, agentCount, seen, ok)
  {
    AgentsSound(agentCount, attempt, seen, start, ok);
    KeepDrained(Agents(agentCount, attempt, seen, start).0, seen, ok);
  }


  lemma {:induction false} KeepAllErrors(xs: seq<Pick>, seen: set<string>)
    requires forall i :: 0 <= i < |xs| ==> xs[i] == ErrorPick
    ensures Keep(xs, TickerOf, NotError, seen) == []
  {
    if xs != [] {
      KeepAllErrors(xs[1..], seen);
    }
  }

  /** When no attempt succeeds, the drain keeps nothing. */
  lemma RunAgentsAllFail(agentCount: int, attempt: Outcomes, seen: set<string>, start: nat)
    requires NeverSucceeds(attempt)
    requires agentCount > 0
    ensures RunAgents(agentCount, attempt, seen, start).value.0 == []
  {
    AgentsAllFail(agentCount, attempt, seen, start);
    KeepAllErrors(Agents(agentCount, attempt, seen, start).0, seen);
  }

  /** The settings of `StockPicker`. */
  datatype PickerConfig = PickerConfig(perCallRetries: int, globalAttemptCap: int, batchSize: int)

  const DefaultConfig: PickerConfig := PickerConfig(5, 50, 6)

  /** The variables of `get_stocks`'s loop. */
  datatype Progress = Progress(picks: seq<Pick>, seen: set<string>, attempts: int, calls: nat)

  const Initial: Progress := Progress([], {}, 0, 0)

  function Min(a: int, b: int): int {
    if a <= b then a else b
  }

  /** How many more picks the batch loop may take before it breaks: what
      the quota still lacks, but at least one, since the loop checks the
      quota only after adding a pick. */
  function Room(picks: seq<Pick>, quota: int): nat {
    if quota - |picks| < 1 then 1 else quota - |picks|
  }

  /** The `for r in batch` loop of `get_stocks`: it takes, in order, the
      picks the drain rule keeps against `seen`, until the quota is met;
      the new picks, the new seen set and how many it added. */
  function Fill(picks: seq<Pick>, seen: set<string>, batch: seq<Pick>, quota: int): (r: (seq<Pick>, set<string>, nat))
    ensures r.2 <= Room(picks, quota) && r.2 <= |batch|
    ensures |r.0| == |picks| + r.2
  {
    var k := Keep(batch, TickerOf, NotError, seen);
    var t := k[..Min(|k|, Room(picks, quota))];
    (picks + t, seen + Keys(t, TickerOf), |t|)
  }

  /** A batch loop that never reaches the quota takes everything the drain
      rule keeps. */
  lemma FillWhole(picks: seq<Pick>, seen: set<string>, batch: seq<Pick>, quota: int)
    requires |Keep(batch, TickerOf, NotError, seen)| <= Room(picks, quota)
    ensures var k := Keep(batch, TickerOf, NotError, seen);
      Fill(picks, seen, batch, quota) == (picks + k, seen + Keys(k, TickerOf), |k|)
  {
    var k := Keep(batch, TickerOf, NotError, seen);
    assert k[..|k|] == k;
  }

  /** A batch loop that reaches the quota after its first `n` elements
      takes what the drain rule keeps of those. */
  lemma FillBreak(picks: seq<Pick>, seen: set<string>, batch: seq<Pick>, quota: int, n: nat)
    requires n <= |batch|
    requires |Keep(batch[..n], TickerOf, NotError, seen)| == Room(picks, quota)
    ensures var k := Keep(batch[..n], TickerOf, NotError, seen);
      Fill(picks, seen, batch, quota) == (picks + k, seen + Keys(k, TickerOf), |k|)
  {
    var k := Keep(batch[..n], TickerOf, NotError, seen);
    assert batch == batch[..n] + batch[n..];
    KeepAppend(batch[..n], batch[n..], TickerOf, NotError, seen);
    var all := Keep(batch, TickerOf, NotError, seen);
    assert all[..|k|] == k;
  }

  /** An empty batch adds nothing. */
  lemma FillNothing(picks: seq<Pick>, seen: set<string>, quota: int)
    ensures Fill(picks, seen, [], quota) == (picks, seen, 0)
  {
    var k := Keep([], TickerOf, NotError, seen);
    var t := k[..Min(|k|, Room(picks, quota))];
    assert t == [];
    assert Keys(t, TickerOf) == {};
    assert seen + Keys(t, TickerOf) == seen;
    assert picks + t == picks;
    assert Fill(picks, seen, [], quota) == (picks + t, seen + Keys(t, TickerOf), |t|);
  }

  /** The first `n` elements of a key-distinct sequence keep their keys
      apart. */
  lemma DistinctPrefix(k: seq<Pick>, n: nat)
    requires n <= |k| && DistinctKeys(k, TickerOf)
    ensures DistinctKeys(k[..n], TickerOf)
  {
    assert forall i :: 0 <= i < n ==> k[..n][i] == k[i];
  }

  /** The loop invariant of `get_stocks`: `seen` is the set of tickers in
      `picks`, no ticker repeats, every pick is usable, the quota is not
      exceeded, and `attempts` is not negative. */
  predicate Invariant(st: Progress, quota: int, ok: string -> bool) {
    && st.seen == Keys(st.picks, TickerOf)
    && DistinctKeys(st.picks, TickerOf)
    && (forall i :: 0 <= i < |st.picks| ==> Usable(st.picks[i], ok))
    && |st.picks| <= Max0(quota)
    && st.attempts >= 0
  }

  /** What the loop body does after the burst returned `batch`, having
      made `used` calls. */
  function AfterBurst(cfg: PickerConfig, quota: int, attempt: Outcomes, start: nat, st: Progress, batch: seq<Pick>, used: nat): (r: Progress)
    ensures st.attempts + 1 <= r.attempts <= st.attempts + 2
  {
    var filled := Fill(st.picks, st.seen, batch, quota);
    var calls := st.calls + used;
    if filled.2 == 0 && |filled.0| < quota then
      Fallback(attempt, cfg.perCallRetries, start, Progress(filled.0, filled.1, st.attempts + 1, calls))
    else
      Progress(filled.0, filled.1, st.attempts + 1, calls)
  }

  /** The single call made after a burst that added nothing. */
  function Fallback(attempt: Outcomes, retries: int, start: nat, st: Progress): (r: Progress)
    ensures r.attempts == st.attempts + 1
  {
    var one := SinglePick(attempt, st.seen, retries, start + st.calls);
    if one.0.ticker != "ERROR" && one.0.ticker !in st.seen then
      Progress(st.picks + [one.0], st.seen + {one.0.ticker}, st.attempts + 1, st.calls + one.1)
    else
      Progress(st.picks, st.seen, st.attempts + 1, st.calls + one.1)
  }

  /** One pass of `get_stocks`'s `while` loop. */
  function Round(cfg: PickerConfig, quota: int, attempt: Outcomes, start: nat, st: Progress): (r: Result<Progress, PoolError>)
    ensures r.Failure? <==> cfg.batchSize <= 0
    ensures r.Success? ==> st.attempts + 1 <= r.value.attempts <= st.attempts + 2
  {
    var burst := RunAgents(cfg.batchSize, attempt, st.seen, start + st.calls);
    if burst.Failure? then Failure(burst.error)
    else Success(AfterBurst(cfg, quota, attempt, start, st, burst.value.0, burst.value.1))
  }

  /** `get_stocks`'s `while` loop run from `st` to its end. */
  function Run(cfg: PickerConfig, quota: int, attempt: Outcomes, start: nat, st: Progress): (r: Result<Progress, PoolError>)
    decreases cfg.globalAttemptCap - st.attempts
  {
    if |st.picks| < quota && st.attempts < cfg.globalAttemptCap then
      match Round(cfg, quota, attempt, start, st)
      case Failure(e) => Failure(e)
      case Success(st') => Run(cfg, quota, attempt, start, st')
    else Success(st)
  }

  /** The batch loop keeps the invariant. */
  lemma FillKeeps(st: Progress, batch: seq<Pick>, quota: int, agentCount: int, ok: string -> bool, attempts: int, calls: nat)
    requires Invariant(st, quota, ok) && |st.picks| < quota
    requires WellDrained(batch, agentCount, st.seen, ok)
    requires attempts >= 0
    ensures var (picks, seen, _) := Fill(st.picks, st.seen, batch, quota);
      Invariant(Progress(picks, seen, attempts, calls), quota, ok)
  {
    var k := Keep(batch, TickerOf, NotError, st.seen);
    KeepSound(batch, TickerOf, NotError, st.seen);
    var t := k[..Min(|k|, quota - |st.picks|)];
    DistinctPrefix(k, |t|);
    assert forall i :: 0 <= i < |t| ==> t[i] == k[i];
    assert forall i :: 0 <= i < |t| ==> t[i] in batch;
    forall i | 0 <= i < |t|
      ensures Usable(t[i], ok)
    {
      var j :| 0 <= j < |batch| && batch[j] == t[i];
    }
    DistinctAppend(st.picks, t, TickerOf);
    KeysAppend(st.picks, t, TickerOf);
    forall i | 0 <= i < |st.picks + t|
      ensures Usable((st.picks + t)[i], ok)
    {
      if i >= |st.picks| {
        assert (st.picks + t)[i] == t[i - |st.picks|];
      } else {
        assert (st.picks + t)[i] == st.picks[i];
      }
    }
  }

  /** The fallback single call keeps the invariant. */
  lemma FallbackKeeps(attempt: Outcomes, retries: int, start: nat, st: Progress, quota: int, ok: string -> bool)
    requires Sound(attempt, ok)
    requires Invariant(st, quota, ok) && |st.picks| < quota
    ensures Invariant(Fallback(attempt, retries, start, st), quota, ok)
  {
    var (one, n) := SinglePick(attempt, st.seen, retries, start + st.calls);
    SinglePickSound(attempt, st.seen, retries, start + st.calls, ok);
    FallbackOf(attempt, retries, start, st, one, n);
    if one.ticker != "ERROR" && one.ticker !in st.seen {
      assert one != ErrorPick;
      AddOneKeeps(st, one, quota, ok, st.attempts + 1, st.calls + n);
    }
  }

  /** The single call's state, in terms of the pick it returned. */
  lemma FallbackOf(attempt: Outcomes, retries: int, start: nat, st: Progress, one: Pick, n: nat)
    requires SinglePick(attempt, st.seen, retries, start + st.calls) == (one, n)
    ensures Fallback(attempt, retries, start, st)
      == if one.ticker != "ERROR" && one.ticker !in st.seen
         then Progress(st.picks + [one], st.seen + {one.ticker}, st.attempts + 1, st.calls + n)
         else Progress(st.picks, st.seen, st.attempts + 1, st.calls + n)
  {
  }

  /** Adding one usable pick with an unseen ticker below the quota keeps the
      invariant. */
  lemma AddOneKeeps(st: Progress, one: Pick, quota: int, ok: string -> bool, attempts: int, calls: nat)
    requires Invariant(st, quota, ok) && |st.picks| < quota
    requires Usable(one, ok) && one.ticker !in st.seen && attempts >= 0
    ensures Invariant(Progress(st.picks + [one], st.seen + {one.ticker}, attempts, calls), quota, ok)
  {
    DistinctAppend(st.picks, [one], TickerOf);
    KeysAppend(st.picks, [one], TickerOf);
    KeysCons(one, [], TickerOf);
    assert [one] + [] == [one];
    forall i | 0 <= i < |st.picks + [one]|
      ensures Usable((st.picks + [one])[i], ok)
    {
      if i < |st.picks| {
        assert (st.picks + [one])[i] == st.picks[i];
      }
    }
  }

  /** A pass whose burst succeeded goes on with that burst's batch. */
  lemma RoundOfBurst(cfg: PickerConfig, quota: int, attempt: Outcomes, start: nat, st: Progress, batch: seq<Pick>, used: nat)
    requires RunAgents(cfg.batchSize, attempt, st.seen, start + st.calls) == Success((batch, used))
    ensures Round(cfg, quota, attempt, start, st) == Success(AfterBurst(cfg, quota, attempt, start, st, batch, used))
  {
  }

  /** The state after a burst, in terms of what its batch loop produced. */
  lemma AfterBurstOfFill(cfg: PickerConfig, quota: int, attempt: Outcomes, start: nat, st: Progress, batch: seq<Pick>, used: nat,
                          picks: seq<Pick>, seen: set<string>, added: nat)
    requires Fill(st.picks, st.seen, batch, quota) == (picks, seen, added)
    ensures var mid := Progress(picks, seen, st.attempts + 1, st.calls + used);
      AfterBurst(cfg, quota, attempt, start, st, batch, used)
        == if added == 0 && |picks| < quota then Fallback(attempt, cfg.perCallRetries, start, mid) else mid
  {
  }

  lemma AfterBurstKeeps(cfg: PickerConfig, quota: int, attempt: Outcomes, start: nat, st: Progress, batch: seq<Pick>, used: nat, ok: string -> bool)
    requires Sound(attempt, ok)
    requires Invariant(st, quota, ok) && |st.picks| < quota
    requires RunAgents(cfg.batchSize, attempt, st.seen, start + st.calls) == Success((batch, used))
    ensures Invariant(AfterBurst(cfg, quota, attempt, start, st, batch, used), quota, ok)
  {
    RunAgentsSound(cfg.batchSize, attempt, st.seen, start + st.calls, ok, batch, used);
    var (picks, seen, added) := Fill(st.picks, st.seen, batch, quota);
    var next := Progress(picks, seen, st.attempts + 1, st.calls + used);
    FillKeeps(st, batch, quota, cfg.batchSize, ok, next.attempts, next.calls);
    AfterBurstOfFill(cfg, quota, attempt, start, st, batch, used, picks, seen, added);
    if added == 0 && |picks| < quota {
      FallbackKeeps(attempt, cfg.perCallRetries, start, next, quota, ok);
    }
  }

  /** One pass of the loop keeps the invariant. */
  lemma RoundKeeps(cfg: PickerConfig, quota: int, attempt: Outcomes, start: nat, st: Progress, ok: string -> bool)
    requires Sound(attempt, ok)
    requires Invariant(st, quota, ok) && |st.picks| < quota
    ensures var r := Round(cfg, quota, attempt, start, st);
      r.Success? ==> Invariant(r.value, quota, ok)
  {
    var burst := RunAgents(cfg.batchSize, attempt, st.seen, start + st.calls);
    if burst.Success? {
      var batch, used := burst.value.0, burst.value.1;
      RoundOfBurst(cfg, quota, attempt, start, st, batch, used);
      AfterBurstKeeps(cfg, quota, attempt, start, st, batch, used, ok);
    }
  }

  /** The whole loop keeps the invariant. */
  lemma {:induction false} RunKeeps(cfg: PickerConfig, quota: int, attempt: Outcomes, start: nat, st: Progress, ok: string -> bool)
    requires Sound(attempt, ok)
    requires Invariant(st, quota, ok)
    ensures var r := Run(cfg, quota, attempt, start, st);
      r.Success? ==> Invariant(r.value, quota, ok)
    decreases cfg.globalAttemptCap - st.attempts
  {
    if |st.picks| < quota && st.attempts < cfg.globalAttemptCap {
      var r := Round(cfg, quota, attempt, start, st);
      RoundKeeps(cfg, quota, attempt, start, st, ok);
      if r.Success? {
        RunKeeps(cfg, quota, attempt, start, r.value, ok);
      }
    }
  }

  /** The loop ends with at most one attempt past the cap, and it ends short
      of the quota only once the cap is reached. */
  lemma {:induction false} RunAttempts(cfg: PickerConfig, quota: int, attempt: Outcomes, start: nat, st: Progress)
    ensures var r := Run(cfg, quota, attempt, start, st);
      r.Success? ==>
        && st.attempts <= r.value.attempts
        && (st.attempts <= cfg.globalAttemptCap ==> r.value.attempts <= cfg.globalAttemptCap + 1)
        && (|r.value.picks| < quota ==> r.value.attempts >= cfg.globalAttemptCap)
    decreases cfg.globalAttemptCap - st.attempts
  {
    if |st.picks| < quota && st.attempts < cfg.globalAttemptCap {
      var r := Round(cfg, quota, attempt, start, st);
      if r.Success? {
        RunAttempts(cfg, quota, attempt, start, r.value);
      }
    }
  }

  lemma {:induction false} RunSucceeds(cfg: PickerConfig, quota: int, attempt: Outcomes, start: nat, st: Progress)
    requires cfg.batchSize > 0
    ensures Run(cfg, quota, attempt, start, st).Success?
    decreases cfg.globalAttemptCap - st.attempts
  {
    if |st.picks| < quota && st.attempts < cfg.globalAttemptCap {
      RunSucceeds(cfg, quota, attempt, start, Round(cfg, quota, attempt, start, st).value);
    }
  }

  /** `get_stocks` raises only when a burst is due and the pool cannot be
      built: a positive quota and cap with `batch_size <= 0`. */
  lemma RunFailure(cfg: PickerConfig, quota: int, attempt: Outcomes, start: nat)
    ensures Run(cfg, quota, attempt, start, Initial).Failure?
        <==> cfg.batchSize <= 0 && quota > 0 && cfg.globalAttemptCap > 0
  {
    if cfg.batchSize > 0 {
      RunSucceeds(cfg, quota, attempt, start, Initial);
    }
  }

  /** A pass of the loop that found nothing: no pick, nothing newly seen,
      and two attempts spent. */
  predicate Stalled(st: Progress, r: Progress) {
    r.picks == [] && r.seen == st.seen && r.attempts == st.attempts + 2
  }

  /** When no attempt succeeds, the single call after an empty burst adds
      nothing and spends one more attempt. */
  lemma AfterBurstAllFail(cfg: PickerConfig, quota: int, attempt: Outcomes, start: nat, st: Progress, used: nat)
    requires NeverSucceeds(attempt)
    requires st.picks == [] && 0 < quota
    ensures Stalled(st, AfterBurst(cfg, quota, attempt, start, st, [], used))
  {
    FillNothing(st.picks, st.seen, quota);
    AfterBurstOfFill(cfg, quota, attempt, start, st, [], used, st.picks, st.seen, 0);
    var next := Progress([], st.seen, st.attempts + 1, st.calls + used);
    SinglePickAllFail(attempt, st.seen, cfg.perCallRetries, start + next.calls);
    FallbackOf(attempt, cfg.perCallRetries, start, next, ErrorPick, Max0(cfg.perCallRetries));
  }

  /** When no attempt succeeds, a round adds nothing and spends two
      attempts: the burst and the single call. */
  lemma RoundAllFail(cfg: PickerConfig, quota: int, attempt: Outcomes, start: nat, st: Progress)
    requires NeverSucceeds(attempt)
    requires cfg.batchSize > 0 && st.picks == [] && 0 < quota
    ensures Round(cfg, quota, attempt, start, st).Success?
    ensures Stalled(st, Round(cfg, quota, attempt, start, st).value)
  {
    RunAgentsAllFail(cfg.batchSize, attempt, st.seen, start + st.calls);
    var used := RunAgents(cfg.batchSize, attempt, st.seen, start + st.calls).value.1;
    RoundOfBurst(cfg, quota, attempt, start, st, [], used);
    AfterBurstAllFail(cfg, quota, attempt, start, st, used);
  }

  /** A pass of the loop that is due leads to the rest of the loop. */
  lemma RunOfRound(cfg: PickerConfig, quota: int, attempt: Outcomes, start: nat, st: Progress, st': Progress)
    requires |st.picks| < quota && st.attempts < cfg.globalAttemptCap
    requires Round(cfg, quota, attempt, start, st) == Success(st')
    ensures Run(cfg, quota, attempt, start, st) == Run(cfg, quota, attempt, start, st')
  {
  }

  /** Attempts spent two at a time from `a` until the cap `cap` is reached. */
  function StalledAttempts(a: int, cap: int): int {
    if a >= cap then a else a + 2 * ((cap - a + 1) / 2)
  }

  lemma StalledAttemptsStep(a: int, cap: int)
    requires a < cap
    ensures StalledAttempts(a + 2, cap) == StalledAttempts(a, cap)
  {
  }

  /** When no attempt succeeds, `get_stocks` returns no pick after the
      rounds, two attempts each, that reach the cap. */
  lemma {:induction false} RunAllFail(cfg: PickerConfig, quota: int, attempt: Outcomes, start: nat, st: Progress)
    requires NeverSucceeds(attempt)
    requires cfg.batchSize > 0 && st.picks == [] && 0 < quota
    ensures var r := Run(cfg, quota, attempt, start, st);
      r.Success? && r.value.picks == [] && r.value.attempts == StalledAttempts(st.attempts, cfg.globalAttemptCap)
    decreases cfg.globalAttemptCap - st.attempts
  {
    if st.attempts < cfg.globalAttemptCap {
      RoundAllFail(cfg, quota, attempt, start, st);
      var st' := Round(cfg, quota, attempt, start, st).value;
      RunOfRound(cfg, quota, attempt, start, st, st');
      RunAllFail(cfg, quota, attempt, start, st');
      StalledAttemptsStep(st.attempts, cfg.globalAttemptCap);
    }
  }

  /** A request for no stocks returns at once. */
  lemma RunNoQuota(cfg: PickerConfig, quota: int, attempt: Outcomes, start: nat)
    requires quota <= 0
    ensures Run(cfg, quota, attempt, start, Initial) == Success(Initial)
  {
  }

  /** Whatever the model answers, `get_stocks` returns at most `quota`
      picks, none of them the `ERROR` pick, each with a sanitised ticker the
      validator approved, no ticker twice, after at most one attempt past
      the cap. */
  lemma GetStocksResult(cfg: PickerConfig, quota: int, gen: nat -> Reply, lookup: string -> Lookup, start: nat)
    ensures var r := Run(cfg, quota, Outcome(gen, lookup), start, Initial);
      r.Success? ==>
        && |r.value.picks| <= Max0(quota)
        && DistinctKeys(r.value.picks, TickerOf)
        && (forall i :: 0 <= i < |r.value.picks| ==>
              NotError(r.value.picks[i]) && GoodTicker(r.value.picks[i].ticker, lookup))
        && r.value.attempts <= Max0(cfg.globalAttemptCap) + 1
  {
    var attempt := Outcome(gen, lookup);
    assert Keys([], TickerOf) == {};
    OutcomeSound(gen, lookup);
    RunKeeps(cfg, quota, attempt, start, Initial, Validator(lookup));
    RunAttempts(cfg, quota, attempt, start, Initial);
    var r := Run(cfg, quota, attempt, start, Initial);
    if r.Success? {
      forall i | 0 <= i < |r.value.picks|
        ensures GoodTicker(r.value.picks[i].ticker, lookup)
      {
        assert Usable(r.value.picks[i], Validator(lookup));
      }
    }
  }

  /** With the default settings and no attempt succeeding, the loop ends
      with no pick after 50 attempts. */
  lemma DefaultAllFail(quota: int, attempt: Outcomes, start: nat)
    requires NeverSucceeds(attempt)
    requires 0 < quota
    ensures var r := Run(DefaultConfig, quota, attempt, start, Initial);
      r.Success? && r.value.picks == [] && r.value.attempts == 50
  {
    RunAllFail(DefaultConfig, quota, attempt, start, Initial);
    assert StalledAttempts(0, 50) == 50;
  }

  /** With the default settings and every call raising, `get_stocks`
      returns an empty list after 50 attempts. */
  lemma GetStocksAllRaised(quota: int, gen: nat -> Reply, lookup: string -> Lookup, start: nat)
    requires forall i :: gen(i) == Raised
    requires 0 < quota
    ensures var r := Run(DefaultConfig, quota, Outcome(gen, lookup), start, Initial);
      r.Success? && r.value.picks == [] && r.value.attempts == 50
  {
    RaisedNeverSucceeds(gen, lookup);
    DefaultAllFail(quota, Outcome(gen, lookup), start);
  }
}
