/** `MultiSourceDataFetcher` (Data_Analysis/stocker/data_sources.py): the provider
    priority list, the akshare and tushare adapters, and `fetch_stock_data`'s
    retry-with-backoff loop that falls back to mock data.

    A provider is modelled as a script: the outcome of its first, second and third
    call. `time.sleep` becomes an entry appended to a delay log, and every call is
    recorded in a call log. */
module Fetcher {
  import opened Results
  import opened Text
  import opened Frames
  import opened Normalizer
  import opened Tickers

  datatype SourceId = Akshare | Tushare

  function SourceName(s: SourceId): string {
    match s
    case Akshare => "akshare"
    case Tushare => "tushare"
  }

  /** Which optional libraries imported successfully. */
  datatype Installed = Installed(akshare: bool, tushare: bool)

  /** `__init__`'s priority list: akshare first, then tushare, each only if installed. */
  function Sources(inst: Installed): (r: seq<SourceId>)
    ensures Akshare in r <==> inst.akshare
    ensures Tushare in r <==> inst.tushare
    ensures forall i, j :: 0 <= i < j < |r| ==> r[i] == Akshare && r[j] == Tushare
  {
    (if inst.akshare then [Akshare] else []) + (if inst.tushare then [Tushare] else [])
  }

  const MaxRetries: nat := 3
  const BaseDelay: nat := 5

  function Pow2(n: nat): nat {
    if n == 0 then 1 else 2 * Pow2(n - 1)
  }

  /** The sleep after failed attempt `attempt` (counted from 0): `base_delay * 2 ** attempt`. */
  function Backoff(attempt: nat): nat {
    BaseDelay * Pow2(attempt)
  }

  // ---------------------------------------------------------------------------
  // Adapters

  /** What one call of a provider function produced. */
  datatype Outcome = Returned(table: Table) | Raised

  /** akshare's Chinese column labels and their English names. */
  const AkshareColumns: map<string, string> :=
    map["日期" := "Date", "开盘" := "Open", "收盘" := "Close", "最高" := "High",
        "最低" := "Low", "成交量" := "Volume", "成交额" := "Amount", "振幅" := "Amplitude",
        "涨跌幅" := "Change%", "涨跌额" := "Change", "换手率" := "Turnover"]

  function AkshareRename(cols: seq<string>): (r: seq<string>)
    ensures |r| == |cols|
    ensures forall i :: 0 <= i < |cols| ==>
      r[i] == (if cols[i] in AkshareColumns then AkshareColumns[cols[i]] else cols[i])
  {
    seq(|cols|, i requires 0 <= i < |cols| =>
      if cols[i] in AkshareColumns then AkshareColumns[cols[i]] else cols[i])
  }

  /** The `ak.stock_zh_a_hist` request: symbol and date window. */
  datatype HistRequest = HistRequest(symbol: string, window: Window)

  /** The reply to that request, supplied by the caller in place of the network. */
  datatype HistReply = HistFailed | HistRows(table: Table)

  /** The request `_fetch_akshare_data` would send, or none when the ticker has no
      akshare symbol (the adapter raises before touching the network). */
  function AkshareRequest(ticker: string, period: string, today: int): (r: Option<HistRequest>)
    ensures r.None? <==> ToAkshare(ticker).None?
    ensures r.Some? ==> IsCode(r.value.symbol) && r.value.window == HistoryWindow(period, today)
    ensures r.Some? ==> r.value.symbol == ToAkshare(ticker).value
  {
    match ToAkshare(ticker)
    case None => None
    case Some(symbol) => Some(HistRequest(symbol, HistoryWindow(period, today)))
  }

  /** The post-processing of a history reply: reject an empty frame, rename the
      Chinese columns, fill a missing Volume with random values when there are
      rows, reject any other missing column, and project onto the six required
      columns. */
  function AkshareTable(t: Table, draw: nat -> int): (r: Outcome)
    ensures r.Returned? <==> !t.IsEmpty() && HasPrices(AkshareRename(t.columns))
    ensures r.Returned? ==> r.table.columns == Required && |r.table.rows| == |t.rows| > 0
    ensures r.Returned? ==> forall i, j :: 0 <= i < |t.rows| && 0 <= j < 5 ==>
      r.table.rows[i][j] == t.rows[i][ColumnIndex(AkshareRename(t.columns), Required[j])]
    ensures r.Returned? && "Volume" in AkshareRename(t.columns) ==> forall i :: 0 <= i < |t.rows| ==>
      r.table.rows[i][5] == t.rows[i][ColumnIndex(AkshareRename(t.columns), "Volume")]
    ensures r.Returned? && "Volume" !in AkshareRename(t.columns) ==> forall i :: 0 <= i < |t.rows| ==>
      VolumeLow <= r.table.rows[i][5] < VolumeHigh
  {
    var cols := AkshareRename(t.columns);
    if t.IsEmpty() || !HasPrices(cols) then Raised
    else
      var g: Table := Grid(cols, t.rows);
      var filled := FillVolume(g, draw);
      ProjectedPrices(g, filled);
      ProjectedVolume(g, filled);
      Returned(Select(filled, Required))
  }

  /** The five price columns survive the volume fill and the projection. */
  lemma ProjectedPrices(g: Table, filled: Table)
    requires HasPrices(g.columns) && |filled.rows| == |g.rows|
    requires forall c :: c in g.columns ==> c in filled.columns && forall i :: 0 <= i < |g.rows| ==>
      filled.rows[i][ColumnIndex(filled.columns, c)] == g.rows[i][ColumnIndex(g.columns, c)]
    requires "Volume" in filled.columns
    ensures forall i, j :: 0 <= i < |g.rows| && 0 <= j < 5 ==>
      Select(filled, Required).rows[i][j] == g.rows[i][ColumnIndex(g.columns, Required[j])]
  {
    var r := Select(filled, Required);
    forall i, j | 0 <= i < |g.rows| && 0 <= j < 5
      ensures r.rows[i][j] == g.rows[i][ColumnIndex(g.columns, Required[j])]
    {
      assert Required[j] in g.columns;
    }
  }

  /** The projected Volume column is the table's own, or the filled-in one. */
  lemma ProjectedVolume(g: Table, filled: Table)
    requires HasPrices(g.columns) && |filled.rows| == |g.rows|
    requires forall c :: c in g.columns ==> c in filled.columns
    requires "Volume" in filled.columns
    ensures forall i :: 0 <= i < |g.rows| ==>
      Select(filled, Required).rows[i][5] == filled.rows[i][ColumnIndex(filled.columns, "Volume")]
  {
  }

  /** `stock_renamed['Volume'] = np.random.randint(...)` when Volume is missing and
      there are rows; price columns keep their positions. */
  function FillVolume(t: Table, draw: nat -> int): (r: Table)
    requires |t.rows| > 0
    ensures "Volume" in r.columns && r.rows == (if "Volume" in t.columns then t.rows else r.rows)
    ensures "Volume" in t.columns ==> r == t
    ensures "Volume" !in t.columns ==> r.columns == t.columns + ["Volume"]
    ensures |r.rows| == |t.rows|
    ensures forall c :: c in t.columns ==> c in r.columns && forall i :: 0 <= i < |t.rows| ==>
      r.rows[i][ColumnIndex(r.columns, c)] == t.rows[i][ColumnIndex(t.columns, c)]
    ensures "Volume" !in t.columns ==> forall i :: 0 <= i < |t.rows| ==>
      VolumeLow <= r.rows[i][ColumnIndex(r.columns, "Volume")] < VolumeHigh
  {
    if "Volume" in t.columns then t
    else
      var r := AddColumn(t, "Volume", seq(|t.rows|, i requires 0 <= i < |t.rows| => RandomVolume(draw(i))));
      ColumnIndexAppend(t.columns, "Volume");
      assert forall c :: c in t.columns ==> forall i :: 0 <= i < |t.rows| ==>
        r.rows[i][ColumnIndex(r.columns, c)] == t.rows[i][ColumnIndex(t.columns, c)];
      assert forall i :: 0 <= i < |t.rows| ==>
        r.rows[i][ColumnIndex(r.columns, "Volume")] == RandomVolume(draw(i)) by {
        forall i | 0 <= i < |t.rows|
          ensures r.rows[i][ColumnIndex(r.columns, "Volume")] == RandomVolume(draw(i))
        {
          assert r.rows[i] == t.rows[i] + [RandomVolume(draw(i))];
          assert |t.rows[i]| == |t.columns|;
        }
      }
      r
  }

  /** Appending a column does not move an earlier label; a new label lands at the end. */
  lemma ColumnIndexAppend(cols: seq<string>, name: string)
    ensures forall c :: c in cols ==> ColumnIndex(cols + [name], c) == ColumnIndex(cols, c)
    ensures name !in cols ==> ColumnIndex(cols + [name], name) == |cols|
  {
    forall c | c in cols ensures ColumnIndex(cols + [name], c) == ColumnIndex(cols, c) {
      ColumnIndexPrefix(cols, [name], c);
    }
    if name !in cols {
      assert (cols + [name])[..|cols|] == cols;
    }
  }

  lemma {:induction false} ColumnIndexPrefix(a: seq<string>, b: seq<string>, c: string)
    requires c in a
    ensures ColumnIndex(a + b, c) == ColumnIndex(a, c)
  {
    if a[0] != c {
      assert (a + b)[1..] == a[1..] + b;
      ColumnIndexPrefix(a[1..], b, c);
    }
  }

  /** `_fetch_akshare_data`: convert the ticker, ask for the period's window, and
      post-process the reply; every failure surfaces as a raised exception. */
  function AkshareFetch(ticker: string, period: string, today: int, reply: HistReply, draw: nat -> int): (r: Outcome)
    ensures AkshareRequest(ticker, period, today).None? ==> r == Raised
    ensures reply.HistFailed? ==> r == Raised
    ensures reply.HistRows? && AkshareRequest(ticker, period, today).Some? ==> r == AkshareTable(reply.table, draw)
  {
    match AkshareRequest(ticker, period, today)
    case None => Raised
    case Some(_) =>
      match reply
      case HistFailed => Raised
      case HistRows(t) => AkshareTable(t, draw)
  }

  /** A ticker with no akshare symbol fails the same way whatever the network
      would have answered: no request is made. */
  lemma AkshareUnconvertibleIgnoresNetwork(ticker: string, period: string, today: int,
                                           a: HistReply, b: HistReply, draw: nat -> int)
    requires ToAkshare(ticker).None?
    ensures AkshareFetch(ticker, period, today, a, draw) == AkshareFetch(ticker, period, today, b, draw) == Raised
  {
  }

  /** `_fetch_tushare_data`: without an API token both branches raise, so tushare
      never supplies data, whatever the ticker. */
  function TushareFetch(ticker: string): (r: Outcome)
    ensures r == Raised
  {
    match ToTushare(ticker)
    case None => Raised
    case Some(_) => Raised
  }

  // ---------------------------------------------------------------------------
  // Retry and fallback

  datatype Provider = Provider(id: SourceId, script: seq<Outcome>)

  /** One entry of the call log: which provider, which attempt (from 0). */
  datatype Call = Call(source: SourceId, attempt: nat)

  /** The outcome of call `j`; a script that runs out keeps raising. */
  function OutcomeAt(p: Provider, j: nat): Outcome {
    if j < |p.script| then p.script[j] else Raised
  }

  /** The standardised bars attempt `j` yields, or nothing when the call raised,
      returned an empty frame, or failed standardisation (which runs inside the
      same `try`, so it counts as a failed attempt of the same provider). */
  function AttemptBars(p: Provider, j: nat, draw: nat -> int): (r: Option<seq<Bar>>)
    ensures r.Some? <==> OutcomeAt(p, j).Returned? && !OutcomeAt(p, j).table.IsEmpty()
                         && Standardize(OutcomeAt(p, j).table, draw).Ok?
    ensures r.Some? ==> r.value == Standardize(OutcomeAt(p, j).table, draw).value
  {
    match OutcomeAt(p, j)
    case Raised => None
    case Returned(t) =>
      if t.IsEmpty() then None
      else match Standardize(t, draw)
        case Ok(bars) => Some(bars)
        case Err(_) => None
  }

  /** A provider's attempts, each already judged: the bars it yields or a failure. */
  datatype Trial = Trial(id: SourceId, results: seq<Option<seq<Bar>>>)

  function Evaluate(p: Provider, draw: nat -> int): (tr: Trial)
    ensures tr.id == p.id && |tr.results| == MaxRetries
    ensures forall k :: 0 <= k < MaxRetries ==> tr.results[k] == AttemptBars(p, k, draw)
  {
    Trial(p.id, seq(MaxRetries, k requires 0 <= k < MaxRetries => AttemptBars(p, k, draw)))
  }

  /** The judgement of attempt `k`; attempts beyond the list fail. */
  function ResultAt(tr: Trial, k: nat): Option<seq<Bar>> {
    if k < |tr.results| then tr.results[k] else None
  }

  predicate Succeeds(tr: Trial, k: nat) {
    ResultAt(tr, k).Some?
  }

  /** Calls `a` up to (not including) `b` of one provider. */
  function Calls(id: SourceId, a: nat, b: nat): (r: seq<Call>)
    requires a <= b
    ensures |r| == b - a
    ensures forall i :: 0 <= i < b - a ==> r[i] == Call(id, a + i)
  {
    seq(b - a, i requires 0 <= i < b - a => Call(id, a + i))
  }

  /** The sleeps after failed attempts `a` up to (not including) `b`. */
  function Backoffs(a: nat, b: nat): (r: seq<int>)
    requires a <= b
    ensures |r| == b - a
    ensures forall i :: 0 <= i < b - a ==> r[i] == Backoff(a + i)
  {
    seq(b - a, i requires 0 <= i < b - a => Backoff(a + i))
  }

  /** A provider that fails all three attempts sleeps 5 s and then 10 s, and not
      after its last attempt. */
  lemma FailedSourceDelays()
    ensures Backoffs(0, MaxRetries - 1) == [5, 10]
  {
    assert Pow2(1) == 2;
  }

  datatype Attempts = Attempts(won: Option<nat>, bars: seq<Bar>, calls: seq<Call>, delays: seq<int>)

  /** The inner `for attempt in range(max_retries)` loop from attempt `j` on: the
      first successful attempt wins, every failed attempt but the last is followed
      by its backoff. */
  function RetrySource(tr: Trial, j: nat): (r: Attempts)
    requires j < MaxRetries
    ensures r.won.None? <==> forall k :: j <= k < MaxRetries ==> !Succeeds(tr, k)
    ensures r.won.None? ==>
      r.bars == [] && r.calls == Calls(tr.id, j, MaxRetries) && r.delays == Backoffs(j, MaxRetries - 1)
    ensures r.won.Some? ==>
      && j <= r.won.value < MaxRetries
      && (forall k :: j <= k < r.won.value ==> !Succeeds(tr, k))
      && ResultAt(tr, r.won.value) == Some(r.bars)
      && r.calls == Calls(tr.id, j, r.won.value + 1)
      && r.delays == Backoffs(j, r.won.value)
    decreases MaxRetries - j
  {
    if Succeeds(tr, j) then Attempts(Some(j), ResultAt(tr, j).value, [Call(tr.id, j)], [])
    else if j == MaxRetries - 1 then Attempts(None, [], [Call(tr.id, j)], [])
    else
      var rest := RetrySource(tr, j + 1);
      LogsCons(tr.id, j, MaxRetries);
      LogsCons(tr.id, j, MaxRetries - 1);
      if rest.won.Some? then
        LogsCons(tr.id, j, rest.won.value + 1);
        LogsCons(tr.id, j, rest.won.value);
        Attempts(rest.won, rest.bars, [Call(tr.id, j)] + rest.calls, [Backoff(j)] + rest.delays)
      else
        Attempts(rest.won, rest.bars, [Call(tr.id, j)] + rest.calls, [Backoff(j)] + rest.delays)
  }

  lemma LogsCons(id: SourceId, j: nat, b: nat)
    requires j < b
    ensures Calls(id, j, b) == [Call(id, j)] + Calls(id, j + 1, b)
    ensures Backoffs(j, b) == [Backoff(j)] + Backoffs(j + 1, b)
  {
  }

  /** Every call of every provider in `trs`, as made when all of them fail. */
  function AllCalls(trs: seq<Trial>): (r: seq<Call>)
    ensures |r| == MaxRetries * |trs|
  {
    if |trs| == 0 then [] else Calls(trs[0].id, 0, MaxRetries) + AllCalls(trs[1..])
  }

  /** The delay log of `n` providers that all fail: [5, 10] for each. */
  function FullBackoffs(n: nat): (r: seq<int>)
    ensures |r| == (MaxRetries - 1) * n
  {
    if n == 0 then [] else Backoffs(0, MaxRetries - 1) + FullBackoffs(n - 1)
  }

  /** The winning provider position and attempt. */
  datatype Win = Win(source: nat, attempt: nat)

  datatype Run = Run(won: Option<Win>, bars: seq<Bar>, calls: seq<Call>, delays: seq<int>)

  /** What the outer loop from provider `i` on produces: with no success anywhere,
      no winner, every call made and both backoffs of every provider logged; otherwise
      the winner is the lexicographically first successful (provider, attempt), its
      bars are returned, and the logs hold exactly the attempts before it and itself. */
  predicate RunSpec(trs: seq<Trial>, i: nat, r: Run)
    requires i <= |trs|
  {
    && (r.won.None? <==>
         forall s, k :: i <= s < |trs| && 0 <= k < MaxRetries ==> !Succeeds(trs[s], k))
    && (r.won.None? ==>
         r.bars == [] && r.calls == AllCalls(trs[i..]) && r.delays == FullBackoffs(|trs| - i))
    && (r.won.Some? ==>
         var w := r.won.value;
         && i <= w.source < |trs| && w.attempt < MaxRetries
         && (forall s, k :: i <= s < w.source && 0 <= k < MaxRetries ==> !Succeeds(trs[s], k))
         && (forall k :: 0 <= k < w.attempt ==> !Succeeds(trs[w.source], k))
         && ResultAt(trs[w.source], w.attempt) == Some(r.bars)
         && r.calls == AllCalls(trs[i..w.source]) + Calls(trs[w.source].id, 0, w.attempt + 1)
         && r.delays == FullBackoffs(w.source - i) + Backoffs(0, w.attempt))
  }

  /** The outer `for source_name, fetch_func in self.data_sources` loop from
      provider `i` on. */
  function RunFrom(trs: seq<Trial>, i: nat): (r: Run)
    requires i <= |trs|
    ensures RunSpec(trs, i, r)
    decreases |trs| - i
  {
    if i == |trs| then
      assert trs[i..] == [];
      Run(None, [], [], [])
    else
      var a := RetrySource(trs[i], 0);
      if a.won.Some? then
        assert trs[i..i] == [];
        Run(Some(Win(i, a.won.value)), a.bars, a.calls, a.delays)
      else
        var rest := RunFrom(trs, i + 1);
        RunStep(trs, i, a.calls, a.delays, rest.won);
        RunAfterFailure(trs, i, a, rest);
        Run(rest.won, rest.bars, a.calls + rest.calls, a.delays + rest.delays)
  }

  /** A provider that failed every attempt hands over to the rest of the list, its
      calls and backoffs in front of theirs. */
  lemma RunAfterFailure(trs: seq<Trial>, i: nat, a: Attempts, rest: Run)
    requires i < |trs|
    requires forall k :: 0 <= k < MaxRetries ==> !Succeeds(trs[i], k)
    requires a.calls == Calls(trs[i].id, 0, MaxRetries) && a.delays == Backoffs(0, MaxRetries - 1)
    requires RunSpec(trs, i + 1, rest)
    requires AllCalls(trs[i..]) == a.calls + AllCalls(trs[i + 1..])
    requires FullBackoffs(|trs| - i) == a.delays + FullBackoffs(|trs| - (i + 1))
    requires rest.won.Some? && i < rest.won.value.source <= |trs| ==>
      && AllCalls(trs[i..rest.won.value.source]) == a.calls + AllCalls(trs[i + 1..rest.won.value.source])
      && FullBackoffs(rest.won.value.source - i) == a.delays + FullBackoffs(rest.won.value.source - (i + 1))
    ensures RunSpec(trs, i, Run(rest.won, rest.bars, a.calls + rest.calls, a.delays + rest.delays))
  {
  }

  /** Logs of a failing provider at position `i` prepend to those of the rest. */
  lemma RunStep(trs: seq<Trial>, i: nat, calls: seq<Call>, delays: seq<int>, won: Option<Win>)
    requires i < |trs|
    requires calls == Calls(trs[i].id, 0, MaxRetries) && delays == Backoffs(0, MaxRetries - 1)
    ensures AllCalls(trs[i..]) == calls + AllCalls(trs[i + 1..])
    ensures FullBackoffs(|trs| - i) == delays + FullBackoffs(|trs| - (i + 1))
    ensures won.Some? && i < won.value.source <= |trs| ==>
      && AllCalls(trs[i..won.value.source]) == calls + AllCalls(trs[i + 1..won.value.source])
      && FullBackoffs(won.value.source - i) == delays + FullBackoffs(won.value.source - (i + 1))
  {
    assert trs[i..][1..] == trs[i + 1..];
    if won.Some? && i < won.value.source <= |trs| {
      assert trs[i..won.value.source][1..] == trs[i + 1..won.value.source];
    }
  }

  /** Provenance of a result: a provider, or the `"mock_data"` fallback. */
  datatype Tag = FromSource(id: SourceId) | MockData

  function TagName(t: Tag): string {
    match t
    case FromSource(id) => SourceName(id)
    case MockData => "mock_data"
  }

  datatype Fetched = Fetched(bars: seq<Bar>, tag: Tag, calls: seq<Call>, delays: seq<int>)

  /** The retry/fallback loop of `fetch_stock_data` over judged provider attempts,
      with `mock` as the series used when everything fails. It never fails: the
      result is mock data exactly when every attempt of every provider fails, and
      then every provider was called three times and slept 5 s and 10 s. */
  function Fetch(trs: seq<Trial>, mock: seq<Bar>): (r: Fetched)
    ensures r.tag == MockData <==>
      forall s, k :: 0 <= s < |trs| && 0 <= k < MaxRetries ==> !Succeeds(trs[s], k)
    ensures r.tag == MockData ==>
      r.bars == mock && r.calls == AllCalls(trs) && r.delays == FullBackoffs(|trs|)
    ensures r.tag.FromSource? ==>
      exists s, k :: (0 <= s < |trs| && 0 <= k < MaxRetries &&
        trs[s].id == r.tag.id && ResultAt(trs[s], k) == Some(r.bars))
    ensures forall c :: c in r.calls ==>
      c.attempt < MaxRetries && exists s :: 0 <= s < |trs| && trs[s].id == c.source
  {
    var run := RunFrom(trs, 0);
    assert trs[0..] == trs;
    AllCallsFrom(trs);
    match run.won
    case Some(w) =>
      assert Succeeds(trs[w.source], w.attempt);
      WinnerCalls(trs, w.source, w.attempt);
      Fetched(run.bars, FromSource(trs[w.source].id), run.calls, run.delays)
    case None =>
      Fetched(mock, MockData, run.calls, run.delays)
  }

  /** The log up to a winner holds only attempts below three of listed providers. */
  lemma WinnerCalls(trs: seq<Trial>, s: nat, k: nat)
    requires s < |trs| && k < MaxRetries
    ensures forall c :: c in AllCalls(trs[0..s]) + Calls(trs[s].id, 0, k + 1) ==>
      c.attempt < MaxRetries && exists s' :: 0 <= s' < |trs| && trs[s'].id == c.source
  {
    AllCallsFrom(trs[0..s]);
    forall c | c in AllCalls(trs[0..s]) + Calls(trs[s].id, 0, k + 1)
      ensures c.attempt < MaxRetries && exists s' :: 0 <= s' < |trs| && trs[s'].id == c.source
    {
      if c in AllCalls(trs[0..s]) {
        var s' :| 0 <= s' < s && trs[0..s][s'].id == c.source;
        assert trs[s'].id == c.source;
      } else {
        assert trs[s].id == c.source;
      }
    }
  }

  /** Every call in the full log is an attempt below three of a listed provider. */
  lemma {:induction false} AllCallsFrom(trs: seq<Trial>)
    ensures forall c :: c in AllCalls(trs) ==>
      c.attempt < MaxRetries && exists s :: 0 <= s < |trs| && trs[s].id == c.source
  {
    if |trs| > 0 {
      AllCallsFrom(trs[1..]);
      forall c | c in AllCalls(trs)
        ensures c.attempt < MaxRetries && exists s :: 0 <= s < |trs| && trs[s].id == c.source
      {
        if c in Calls(trs[0].id, 0, MaxRetries) {
          assert trs[0].id == c.source;
        } else {
          assert c in AllCalls(trs[1..]);
          var s :| 0 <= s < |trs[1..]| && trs[1..][s].id == c.source;
          assert trs[s + 1].id == c.source;
        }
      }
    }
  }

  /** The lexicographically first successful attempt decides the result: its
      provider's tag and bars, every earlier attempt in the call log, the backoffs
      of all earlier failures in the delay log, and no later provider called. */
  lemma FirstSuccessWins(trs: seq<Trial>, mock: seq<Bar>, s: nat, k: nat)
    requires s < |trs| && k < MaxRetries && Succeeds(trs[s], k)
    requires forall s', k' :: 0 <= s' < s && 0 <= k' < MaxRetries ==> !Succeeds(trs[s'], k')
    requires forall k' :: 0 <= k' < k ==> !Succeeds(trs[s], k')
    ensures var r := Fetch(trs, mock);
      && r.tag == FromSource(trs[s].id)
      && ResultAt(trs[s], k) == Some(r.bars)
      && r.calls == AllCalls(trs[..s]) + Calls(trs[s].id, 0, k + 1)
      && r.delays == FullBackoffs(s) + Backoffs(0, k)
  {
    var run := RunFrom(trs, 0);
    assert run.won.Some?;
    var w := run.won.value;
    assert Succeeds(trs[w.source], w.attempt);
    assert w.source == s;
    assert w.attempt == k;
    assert trs[0..s] == trs[..s];
  }

  // ---------------------------------------------------------------------------
  // The concrete fetcher

  function ReplyAt(replies: seq<HistReply>, j: nat): HistReply {
    if j < |replies| then replies[j] else HistFailed
  }

  /** The scripted provider for one source: akshare attempt `j` reads network
      reply `j`; tushare raises every time. */
  function ProviderFor(id: SourceId, ticker: string, period: string, today: int,
                       replies: seq<HistReply>, draw: nat -> int): (p: Provider)
    ensures p.id == id && |p.script| == MaxRetries
    ensures id == Akshare ==> forall j :: 0 <= j < MaxRetries ==>
      OutcomeAt(p, j) == AkshareFetch(ticker, period, today, ReplyAt(replies, j), draw)
    ensures id == Tushare ==> forall j: nat :: OutcomeAt(p, j) == Raised
  {
    match id
    case Akshare => Provider(Akshare, seq(MaxRetries, j requires 0 <= j < MaxRetries =>
      AkshareFetch(ticker, period, today, ReplyAt(replies, j), draw)))
    case Tushare =>
      var p := Provider(Tushare, seq(MaxRetries, j requires 0 <= j < MaxRetries => TushareFetch(ticker)));
      assert forall j :: 0 <= j < MaxRetries ==> p.script[j] == TushareFetch(ticker);
      p
  }

  function Providers(inst: Installed, ticker: string, period: string, today: int,
                     replies: seq<HistReply>, draw: nat -> int): (ps: seq<Provider>)
    ensures |ps| == |Sources(inst)|
    ensures forall i :: 0 <= i < |ps| ==> ps[i] == ProviderFor(Sources(inst)[i], ticker, period, today, replies, draw)
  {
    var srcs := Sources(inst);
    seq(|srcs|, i requires 0 <= i < |srcs| => ProviderFor(srcs[i], ticker, period, today, replies, draw))
  }

  /** `fetch_stock_data(ticker, period)` with `today` for the clock, `replies` for
      the akshare network and `noise` for numpy's generator. Only akshare can win,
      and then its first successful attempt supplies the standardised bars; when
      akshare is missing or fails three times the 366-day mock series comes back
      after every listed provider slept 5 s and 10 s. */
  function FetchStockData(inst: Installed, ticker: string, period: string, today: int,
                          replies: seq<HistReply>, noise: Noise): (r: Fetched)
    ensures r.tag == MockData || r.tag == FromSource(Akshare)
    ensures r.tag == FromSource(Akshare) ==>
      inst.akshare && |r.bars| > 0 && SortedByDate(r.bars) && forall b :: b in r.bars ==> Derived(b)
    ensures r.tag == MockData ==>
      && |r.bars| == MockDays
      && (forall b :: b in r.bars ==> VolumeLow <= b.volume < VolumeHigh)
      && r.delays == FullBackoffs(|Sources(inst)|)
    ensures forall c :: c in r.calls ==> c.source in Sources(inst) && c.attempt < MaxRetries
    ensures var ak := AkshareTrial(Upper(ticker), period, today, replies, noise.volume);
      r.tag == MockData <==> !inst.akshare || forall k :: 0 <= k < MaxRetries ==> !Succeeds(ak, k)
    ensures r.tag == MockData ==> r.bars == MockSeries(noise)
    ensures var ak := AkshareTrial(Upper(ticker), period, today, replies, noise.volume);
      r.tag == FromSource(Akshare) ==> exists k :: 0 <= k < MaxRetries && FirstTrialWin(ak, k, r)
  {
    var trs := Trials(inst, Upper(ticker), period, today, replies, noise.volume);
    var r := Fetch(trs, MockSeries(noise));
    WinnerIsAkshare(inst, trs, MockSeries(noise));
    CallsAreListed(inst, trs, MockSeries(noise));
    AkshareDecides(inst, Upper(ticker), period, today, replies, noise.volume, MockSeries(noise));
    r
  }

  /** The judged attempts of the akshare provider for `ticker`. */
  function AkshareTrial(ticker: string, period: string, today: int, replies: seq<HistReply>,
                        draw: nat -> int): Trial {
    Evaluate(ProviderFor(Akshare, ticker, period, today, replies, draw), draw)
  }

  /** With akshare installed, the first trial is akshare's. */
  lemma AkshareListedFirst(inst: Installed, ticker: string, period: string, today: int,
                           replies: seq<HistReply>, draw: nat -> int)
    requires inst.akshare
    ensures var trs := Trials(inst, ticker, period, today, replies, draw);
      |trs| > 0 && trs[0] == AkshareTrial(ticker, period, today, replies, draw)
  {
    assert Sources(inst)[0] == Akshare;
  }

  /** Only the akshare trial, listed first, can succeed. */
  lemma OnlyFirstSucceeds(inst: Installed, trs: seq<Trial>)
    requires |trs| == |Sources(inst)|
    requires forall i :: 0 <= i < |trs| ==> trs[i].id == Sources(inst)[i]
    requires forall i :: 0 <= i < |trs| ==> TrialFacts(trs[i])
    ensures forall s, k :: 0 <= s < |trs| && 0 <= k < MaxRetries && Succeeds(trs[s], k) ==> s == 0 && inst.akshare
  {
    forall s, k | 0 <= s < |trs| && 0 <= k < MaxRetries && Succeeds(trs[s], k) ensures s == 0 && inst.akshare {
      assert TrialFacts(trs[s]);
      assert Sources(inst)[s] == Akshare;
    }
  }

  /** The fetch falls back to mock data exactly when akshare is missing or fails all
      three attempts; otherwise akshare's first success decides the result. */
  lemma AkshareDecides(inst: Installed, ticker: string, period: string, today: int,
                       replies: seq<HistReply>, draw: nat -> int, mock: seq<Bar>)
    ensures var r := Fetch(Trials(inst, ticker, period, today, replies, draw), mock);
      var ak := AkshareTrial(ticker, period, today, replies, draw);
      && (r.tag == MockData <==> !inst.akshare || forall k :: 0 <= k < MaxRetries ==> !Succeeds(ak, k))
      && (r.tag == FromSource(Akshare) ==> exists k :: 0 <= k < MaxRetries && FirstTrialWin(ak, k, r))
  {
    var trs := Trials(inst, ticker, period, today, replies, draw);
    OnlyFirstSucceeds(inst, trs);
    if inst.akshare {
      AkshareListedFirst(inst, ticker, period, today, replies, draw);
      FirstTrialDecides(trs, mock);
    }
  }

  /** The first trial's first success, when it has one, is the whole result:
      its bars, its calls and the backoffs of its failures before it. */
  predicate FirstTrialWin(tr: Trial, k: nat, r: Fetched) {
    && ResultAt(tr, k) == Some(r.bars)
    && (forall j :: 0 <= j < k ==> !Succeeds(tr, j))
    && r.calls == Calls(tr.id, 0, k + 1)
    && r.delays == Backoffs(0, k)
  }

  /** When no trial but the first can succeed, the fetch is decided by the first. */
  lemma FirstTrialDecides(trs: seq<Trial>, mock: seq<Bar>)
    requires |trs| > 0
    requires forall s, k :: 0 <= s < |trs| && 0 <= k < MaxRetries && Succeeds(trs[s], k) ==> s == 0
    ensures var r := Fetch(trs, mock);
      && (r.tag == MockData <==> forall k :: 0 <= k < MaxRetries ==> !Succeeds(trs[0], k))
      && (r.tag.FromSource? ==> exists k :: 0 <= k < MaxRetries && FirstTrialWin(trs[0], k, r))
  {
    var r := Fetch(trs, mock);
    var k: nat := if Succeeds(trs[0], 0) then 0 else if Succeeds(trs[0], 1) then 1 else 2;
    if Succeeds(trs[0], k) {
      FirstSuccessWins(trs, mock, 0, k);
      assert trs[..0] == [];
      assert FirstTrialWin(trs[0], k, r);
    }
  }

  /** Only akshare trials can succeed, so a winner is akshare, which was installed. */
  lemma WinnerIsAkshare(inst: Installed, trs: seq<Trial>, mock: seq<Bar>)
    requires |trs| == |Sources(inst)|
    requires forall i :: 0 <= i < |trs| ==> trs[i].id == Sources(inst)[i]
    requires forall i :: 0 <= i < |trs| ==> TrialFacts(trs[i])
    ensures var r := Fetch(trs, mock);
      r.tag.FromSource? ==>
        && r.tag == FromSource(Akshare) && inst.akshare
        && |r.bars| > 0 && SortedByDate(r.bars) && forall b :: b in r.bars ==> Derived(b)
  {
    var r := Fetch(trs, mock);
    if r.tag.FromSource? {
      var s, k :| 0 <= s < |trs| && 0 <= k < MaxRetries && trs[s].id == r.tag.id && ResultAt(trs[s], k) == Some(r.bars);
      assert Succeeds(trs[s], k);
      assert TrialFacts(trs[s]);
      assert Sources(inst)[s] == Akshare;
    }
  }

  /** Every logged call names a listed provider and an attempt below three. */
  lemma CallsAreListed(inst: Installed, trs: seq<Trial>, mock: seq<Bar>)
    requires |trs| == |Sources(inst)|
    requires forall i :: 0 <= i < |trs| ==> trs[i].id == Sources(inst)[i]
    ensures forall c :: c in Fetch(trs, mock).calls ==> c.source in Sources(inst) && c.attempt < MaxRetries
  {
    forall c | c in Fetch(trs, mock).calls ensures c.source in Sources(inst) {
      var s :| 0 <= s < |trs| && trs[s].id == c.source;
      assert Sources(inst)[s] == c.source;
    }
  }

  /** The judged attempts of the listed providers, in priority order. Only akshare
      attempts can succeed, and a success is a non-empty, sorted, derived series. */
  function Trials(inst: Installed, ticker: string, period: string, today: int,
                  replies: seq<HistReply>, draw: nat -> int): (trs: seq<Trial>)
    ensures |trs| == |Sources(inst)|
    ensures forall i :: 0 <= i < |trs| ==> trs[i].id == Sources(inst)[i]
    ensures forall i :: 0 <= i < |trs| ==> TrialFacts(trs[i])
  {
    var srcs := Sources(inst);
    var trs := seq(|srcs|, i requires 0 <= i < |srcs| =>
      Evaluate(ProviderFor(srcs[i], ticker, period, today, replies, draw), draw));
    assert forall i :: 0 <= i < |trs| ==> TrialFacts(trs[i]) by {
      forall i | 0 <= i < |trs| ensures TrialFacts(trs[i]) {
        ProviderTrial(srcs[i], ticker, period, today, replies, draw);
      }
    }
    trs
  }

  /** What a successful judged attempt of the concrete providers looks like. */
  predicate TrialFacts(tr: Trial) {
    forall k :: 0 <= k < MaxRetries && Succeeds(tr, k) ==>
      && tr.id == Akshare
      && |ResultAt(tr, k).value| > 0
      && SortedByDate(ResultAt(tr, k).value)
      && forall b :: b in ResultAt(tr, k).value ==> Derived(b)
  }

  lemma ProviderTrial(id: SourceId, ticker: string, period: string, today: int,
                      replies: seq<HistReply>, draw: nat -> int)
    ensures TrialFacts(Evaluate(ProviderFor(id, ticker, period, today, replies, draw), draw))
  {
    var p := ProviderFor(id, ticker, period, today, replies, draw);
    EvaluateStandardized(p, draw);
    if id == Tushare {
      forall k | 0 <= k < MaxRetries ensures OutcomeAt(p, k) == Raised {
        assert p.script[k] == TushareFetch(ticker);
      }
    }
  }

  /** Any successful attempt yields a non-empty, date-sorted series with its derived columns. */
  lemma EvaluateStandardized(p: Provider, draw: nat -> int)
    ensures forall k :: 0 <= k < MaxRetries && Succeeds(Evaluate(p, draw), k) ==>
      && |ResultAt(Evaluate(p, draw), k).value| > 0
      && SortedByDate(ResultAt(Evaluate(p, draw), k).value)
      && forall b :: b in ResultAt(Evaluate(p, draw), k).value ==> Derived(b)
  {
    var tr := Evaluate(p, draw);
    forall k | 0 <= k < MaxRetries && Succeeds(tr, k)
      ensures |ResultAt(tr, k).value| > 0 && SortedByDate(ResultAt(tr, k).value)
      ensures forall b :: b in ResultAt(tr, k).value ==> Derived(b)
    {
      assert ResultAt(tr, k) == AttemptBars(p, k, draw);
      var t := OutcomeAt(p, k).table;
      var st := Standardize(t, draw);
      assert st.Ok? && ResultAt(tr, k).value == st.value;
      assert |st.value| == |t.rows| > 0;
    }
  }


  /** A ticker akshare cannot translate (and tushare never serves) ends in mock
      data whatever the network would say: each listed provider is called three
      times and sleeps 5 s and 10 s. */
  lemma UnconvertibleTickerGetsMock(inst: Installed, ticker: string, period: string, today: int,
                                    replies: seq<HistReply>, noise: Noise)
    requires ToAkshare(Upper(ticker)).None?
    ensures var r := FetchStockData(inst, ticker, period, today, replies, noise);
      && r.tag == MockData && r.bars == MockSeries(noise)
      && |r.calls| == MaxRetries * |Sources(inst)|
      && r.delays == FullBackoffs(|Sources(inst)|)
  {
    var t := Upper(ticker);
    var trs := Trials(inst, t, period, today, replies, noise.volume);
    forall s, k | 0 <= s < |trs| && 0 <= k < MaxRetries ensures !Succeeds(trs[s], k) {
      assert trs[s] == Evaluate(ProviderFor(Sources(inst)[s], t, period, today, replies, noise.volume), noise.volume);
      UnconvertibleAttemptFails(Sources(inst)[s], t, period, today, replies, noise.volume, k);
    }
  }

  /** Every attempt of either provider fails on a ticker akshare cannot translate. */
  lemma UnconvertibleAttemptFails(id: SourceId, ticker: string, period: string, today: int,
                                  replies: seq<HistReply>, draw: nat -> int, k: nat)
    requires ToAkshare(ticker).None? && k < MaxRetries
    ensures !Succeeds(Evaluate(ProviderFor(id, ticker, period, today, replies, draw), draw), k)
  {
    var p := ProviderFor(id, ticker, period, today, replies, draw);
    if id == Akshare {
      assert p.script[k] == AkshareFetch(ticker, period, today, ReplyAt(replies, k), draw);
    } else {
      assert p.script[k] == TushareFetch(ticker);
    }
    assert OutcomeAt(p, k) == Raised;
    assert ResultAt(Evaluate(p, draw), k) == AttemptBars(p, k, draw);
  }

  /** How many log entries name provider `id`. */
  function CallsTo(calls: seq<Call>, id: SourceId): nat {
    if |calls| == 0 then 0
    else (if calls[0].source == id then 1 else 0) + CallsTo(calls[1..], id)
  }

  lemma {:induction false} CallsToAppend(a: seq<Call>, b: seq<Call>, id: SourceId)
    ensures CallsTo(a + b, id) == CallsTo(a, id) + CallsTo(b, id)
  {
    if |a| > 0 {
      assert (a + b)[1..] == a[1..] + b;
      CallsToAppend(a[1..], b, id);
    } else {
      assert a + b == b;
    }
  }

  lemma {:induction false} CallsToRange(src: SourceId, x: nat, y: nat, id: SourceId)
    requires x <= y
    ensures CallsTo(Calls(src, x, y), id) == if src == id then y - x else 0
    decreases y - x
  {
    if x < y {
      assert Calls(src, x, y)[1..] == Calls(src, x + 1, y);
      CallsToRange(src, x + 1, y, id);
    }
  }

  predicate DistinctIds(trs: seq<Trial>) {
    forall s, s' :: 0 <= s < s' < |trs| ==> trs[s].id != trs[s'].id
  }

  lemma {:induction false} CallsToAll(trs: seq<Trial>, id: SourceId)
    requires DistinctIds(trs)
    ensures CallsTo(AllCalls(trs), id) == if exists s :: 0 <= s < |trs| && trs[s].id == id then MaxRetries else 0
  {
    if |trs| > 0 {
      CallsToAppend(Calls(trs[0].id, 0, MaxRetries), AllCalls(trs[1..]), id);
      CallsToRange(trs[0].id, 0, MaxRetries, id);
      CallsToAll(trs[1..], id);
      if exists s :: 0 <= s < |trs[1..]| && trs[1..][s].id == id {
        var s :| 0 <= s < |trs[1..]| && trs[1..][s].id == id;
        assert trs[s + 1].id == id;
      }
      if exists s :: 0 <= s < |trs| && trs[s].id == id {
        var s :| 0 <= s < |trs| && trs[s].id == id;
        if s > 0 { assert trs[1..][s - 1].id == id; }
      }
    }
  }

  lemma DistinctPrefix(trs: seq<Trial>, n: nat)
    requires DistinctIds(trs) && n <= |trs|
    ensures DistinctIds(trs[0..n])
  {
    forall s, s' | 0 <= s < s' < n ensures trs[0..n][s].id != trs[0..n][s'].id {
      assert trs[0..n][s] == trs[s] && trs[0..n][s'] == trs[s'];
    }
  }

  /** With distinct providers, no provider is called more than `max_retries` times. */
  lemma AtMostThreeCallsEach(trs: seq<Trial>, mock: seq<Bar>, id: SourceId)
    requires DistinctIds(trs)
    ensures CallsTo(Fetch(trs, mock).calls, id) <= MaxRetries
  {
    var run := RunFrom(trs, 0);
    assert trs[0..] == trs;
    match run.won
    case None =>
      CallsToAll(trs, id);
    case Some(w) =>
      var pre := trs[0..w.source];
      DistinctPrefix(trs, w.source);
      CallsToAppend(AllCalls(pre), Calls(trs[w.source].id, 0, w.attempt + 1), id);
      CallsToRange(trs[w.source].id, 0, w.attempt + 1, id);
      CallsToAll(pre, id);
      if trs[w.source].id == id {
        forall s | 0 <= s < |pre| ensures pre[s].id != id {
          assert pre[s] == trs[s];
        }
      }
  }

  /** The concrete fetcher calls akshare and tushare at most three times each. */
  lemma FetchStockDataCallBound(inst: Installed, ticker: string, period: string, today: int,
                                replies: seq<HistReply>, noise: Noise, id: SourceId)
    ensures CallsTo(FetchStockData(inst, ticker, period, today, replies, noise).calls, id) <= MaxRetries
  {
    var trs := Trials(inst, Upper(ticker), period, today, replies, noise.volume);
    AtMostThreeCallsEach(trs, MockSeries(noise), id);
  }
}
