/**
 * The trade export run: the header is written, the store's "M:" prefix is
 * scanned in key order, and each record is decoded, counted, classified,
 * given its market's decimal places, written as a row and counted against the
 * batch size, pausing whenever a batch is full. A decode or write failure ends
 * the scan.
 *
 * `Run` is the specification of the scan as a fold over the visited entries;
 * `ScanTrades` is the imperative loop, proved to leave the counters, the
 * writer and the pause count exactly where `Run` says, and `TradesToCSV` is
 * the whole run around it.
 */
module TradeExport {
  import opened Wrappers
  import opened KeyScan
  import opened TradeRows

  /** The counters shared with the caller for reporting after the run. */
  class Stats {
    var totalTrades: nat
    var excludedTrades: nat

    constructor ()
      ensures totalTrades == 0 && excludedTrades == 0
    {
      totalTrades, excludedTrades := 0, 0;
    }

    method IncTotalTrades()
      modifies this
      ensures totalTrades == old(totalTrades) + 1 && excludedTrades == old(excludedTrades)
    {
      totalTrades := totalTrades + 1;
    }

    method IncExcludedTrades()
      modifies this
      ensures excludedTrades == old(excludedTrades) + 1 && totalTrades == old(totalTrades)
    {
      excludedTrades := excludedTrades + 1;
    }
  }

  /**
   * A CSV writer on a freshly created file: the rows written so far and
   * whether the buffer was flushed. Whether a write succeeds is decided by
   * `accepts`, given the number of rows already in the file (the header is
   * write 0); a failed write adds nothing.
   */
  class CsvWriter {
    const path: string
    const accepts: nat -> bool
    var rows: seq<Row>
    var flushed: bool

    constructor (path: string, accepts: nat -> bool)
      ensures this.path == path && this.accepts == accepts
      ensures rows == [] && !flushed
    {
      this.path, this.accepts := path, accepts;
      rows, flushed := [], false;
    }

    method Write(row: Row) returns (ok: bool)
      modifies this
      ensures ok == accepts(|old(rows)|)
      ensures rows == if ok then old(rows) + [row] else old(rows)
      ensures flushed == old(flushed)
    {
      ok := accepts(|rows|);
      if ok {
        rows := rows + [row];
      }
    }

    method Flush()
      modifies this
      ensures flushed && rows == old(rows)
    {
      flushed := true;
    }
  }

  /** The run's configuration; `stats` is the counters object owned by the caller. */
  datatype Config = Config(
    chainId: string,
    batchSize: int,
    exclude: bool,
    whitelist: set<string>,
    stats: Stats)

  /** The key prefix of trade records, "M:". */
  const TradePrefix: Bytes := [77, 58]

  /** Everything a run depends on besides the store itself. */
  datatype Env = Env(
    config: Config,
    markets: map<string, Market>,
    decode: Bytes -> Option<Trade>,
    formatters: Formatters,
    accepts: nat -> bool)

  /** What handling one record's value amounted to. */
  datatype RecordOutcome = Undecodable | Dropped | Written(trade: Trade, verdict: Verdict) | WriteRejected(trade: Trade, verdict: Verdict)

  datatype Status = Scanning | DecodeFailed | WriteFailed

  /**
   * The scan's state after some entries: the counter increments, the data rows
   * written, the batch position, the pauses taken and whether the scan was
   * stopped by an error.
   */
  datatype ScanState = ScanState(total: nat, excluded: nat, rows: seq<Row>, pos: int, pauses: nat, status: Status)

  const Initial := ScanState(0, 0, [], 0, 0, Scanning)

  /** The row a kept trade produces. */
  function RowFor(e: Env, t: Trade, v: Verdict): Row {
    TradeToCsvRow(t, MarketDecimalPlaces(e.markets, t.marketId), v == KeepAsBot, e.config.chainId, e.formatters)
  }

  /** One record's value, handled when `written` rows are already in the file. */
  function Handle(e: Env, written: nat, value: Bytes): RecordOutcome {
    match e.decode(value)
    case None => Undecodable
    case Some(t) =>
      var v := Classify(t, e.config.whitelist, e.config.exclude);
      if v == Drop then Dropped
      else if e.accepts(written) then Written(t, v)
      else WriteRejected(t, v)
  }

  /** The batch check after a record that did not fail. */
  function EndOfRecord(e: Env, s: ScanState): ScanState {
    if s.pos == e.config.batchSize then s.(pos := 0, pauses := s.pauses + 1) else s
  }

  /** One iteration of the scan loop on an entry's value. */
  function Step(e: Env, s: ScanState, value: Bytes): ScanState
    requires s.status == Scanning
  {
    var s1 := s.(pos := s.pos + 1);
    match Handle(e, 1 + |s.rows|, value)
    case Undecodable => s1.(status := DecodeFailed)
    case Dropped => EndOfRecord(e, s1.(total := s1.total + 1, excluded := s1.excluded + 1))
    case Written(t, v) => EndOfRecord(e, s1.(total := s1.total + 1, rows := s1.rows + [RowFor(e, t, v)]))
    case WriteRejected(_, _) => s1.(total := s1.total + 1, status := WriteFailed)
  }

  /**
   * The scan over `es`, one step per entry until an error stops it. Every
   * counted trade is either excluded, written, or (once) the trade whose write
   * failed.
   */
  function Run(e: Env, es: seq<Entry>): (s: ScanState)
    ensures s.excluded + |s.rows| + (if s.status == WriteFailed then 1 else 0) == s.total
    decreases |es|
  {
    if es == [] then Initial
    else
      var prev := Run(e, es[..|es| - 1]);
      if prev.status != Scanning then prev
      else
        StepAccounts(e, prev, es[|es| - 1].value);
        Step(e, prev, es[|es| - 1].value)
  }

  /** A step keeps every counted trade excluded, written, or the one whose write failed. */
  lemma StepAccounts(e: Env, s: ScanState, value: Bytes)
    requires s.status == Scanning && s.excluded + |s.rows| == s.total
    ensures var s' := Step(e, s, value); s'.excluded + |s'.rows| + (if s'.status == WriteFailed then 1 else 0) == s'.total
  {
  }

  /** A step that stops the scan writes nothing, excludes nothing and takes no pause. */
  lemma StepStops(e: Env, s: ScanState, value: Bytes)
    requires s.status == Scanning && Step(e, s, value).status != Scanning
    ensures var s' := Step(e, s, value);
      s'.rows == s.rows && s'.excluded == s.excluded && s'.pauses == s.pauses &&
      s'.total == s.total + (if s'.status == WriteFailed then 1 else 0)
  {
  }

  /** A scan still going takes one more step for one more entry. */
  lemma RunExtend(e: Env, es: seq<Entry>, i: nat)
    requires i < |es| && Run(e, es[..i]).status == Scanning
    ensures Run(e, es[..i + 1]) == Step(e, Run(e, es[..i]), es[i].value)
  {
    assert es[..i + 1][..i] == es[..i];
  }

  /** One step, field by field, in terms of how the record was handled. */
  lemma StepByOutcome(e: Env, s: ScanState, value: Bytes)
    requires s.status == Scanning
    ensures var o, s' := Handle(e, 1 + |s.rows|, value), Step(e, s, value);
      s'.status == (if o.Undecodable? then DecodeFailed else if o.WriteRejected? then WriteFailed else Scanning) &&
      s'.total == s.total + (if o.Undecodable? then 0 else 1) &&
      s'.excluded == s.excluded + (if o.Dropped? then 1 else 0) &&
      s'.rows == (if o.Written? then s.rows + [RowFor(e, o.trade, o.verdict)] else s.rows) &&
      (s'.status != Scanning ==> s'.pauses == s.pauses) &&
      (s'.status == Scanning ==>
        (if s.pos + 1 == e.config.batchSize then s'.pos == 0 && s'.pauses == s.pauses + 1
         else s'.pos == s.pos + 1 && s'.pauses == s.pauses))
  {
  }

  /** After an error, further entries change nothing: no later record is processed. */
  lemma {:induction false} StoppedStaysStopped(e: Env, es: seq<Entry>, more: seq<Entry>)
    requires Run(e, es).status != Scanning
    ensures Run(e, es + more) == Run(e, es)
    decreases |more|
  {
    if more != [] {
      assert (es + more)[..|es + more| - 1] == es + more[..|more| - 1];
      StoppedStaysStopped(e, es, more[..|more| - 1]);
    } else {
      assert es + more == es;
    }
  }

  /** A scan that is still going was still going on every shorter prefix. */
  lemma {:induction false} ScanningPrefix(e: Env, es: seq<Entry>, k: nat)
    requires k <= |es| && Run(e, es).status == Scanning
    ensures Run(e, es[..k]).status == Scanning
    decreases |es|
  {
    if k < |es| {
      assert es[..|es| - 1][..k] == es[..k];
      ScanningPrefix(e, es[..|es| - 1], k);
    } else {
      assert es[..k] == es;
    }
  }

  /** The scan was still going after the first `k` entries, and the whole scan kept what those produced. */
  ghost predicate KeptBefore(e: Env, es: seq<Entry>, k: nat)
    requires k < |es|
  {
    var before, after := Run(e, es[..k]), Run(e, es);
    before.status == Scanning && Run(e, es[..k + 1]).status != Scanning &&
    after.rows == before.rows && after.excluded == before.excluded && after.pauses == before.pauses &&
    after.total == before.total + (if after.status == WriteFailed then 1 else 0)
  }

  /**
   * An error keeps what came before it: there is an entry at which the scan
   * stopped, and the rows, the exclusions and the pauses are those of the
   * entries before it; the total counts the failed record only when it was
   * decoded.
   */
  lemma {:induction false} StopKeepsEarlierWork(e: Env, es: seq<Entry>)
    requires Run(e, es).status != Scanning
    ensures exists k | 0 <= k < |es| :: KeptBefore(e, es, k)
    decreases |es|
  {
    var prev := Run(e, es[..|es| - 1]);
    if prev.status == Scanning {
      StepStops(e, prev, es[|es| - 1].value);
      assert es[..|es| - 1 + 1] == es;
      assert KeptBefore(e, es, |es| - 1);
    } else {
      StopKeepsEarlierWork(e, es[..|es| - 1]);
      var k :| 0 <= k < |es| - 1 && KeptBefore(e, es[..|es| - 1], k);
      assert es[..|es| - 1][..k] == es[..k];
      assert es[..|es| - 1][..k + 1] == es[..k + 1];
      assert KeptBefore(e, es, k);
    }
  }

  /** How one completed record moves the batch position and the pause count. */
  lemma StepBatch(e: Env, s: ScanState, value: Bytes)
    requires s.status == Scanning && Step(e, s, value).status == Scanning
    ensures var s' := Step(e, s, value);
      if s.pos + 1 == e.config.batchSize then s'.pos == 0 && s'.pauses == s.pauses + 1
      else s'.pos == s.pos + 1 && s'.pauses == s.pauses
  {
  }

  /**
   * The batch position counts every record, excluded ones included, and wraps
   * to 0 exactly at the batch size: with a positive batch size it stays below
   * it and every full batch took one pause; otherwise it never pauses.
   */
  lemma {:induction false} BatchPosition(e: Env, es: seq<Entry>)
    requires Run(e, es).status == Scanning
    ensures var s, b := Run(e, es), e.config.batchSize;
      (b > 0 ==> 0 <= s.pos < b && s.pauses * b + s.pos == |es|) &&
      (b <= 0 ==> s.pauses == 0 && s.pos == |es|)
    decreases |es|
  {
    if es != [] {
      var init := es[..|es| - 1];
      ScanningPrefix(e, es, |es| - 1);
      BatchPosition(e, init);
      var prev, v := Run(e, init), es[|es| - 1].value;
      assert Run(e, es) == Step(e, prev, v);
      StepBatch(e, prev, v);
      var s := Step(e, prev, v);
      BatchArithmetic(e.config.batchSize, prev.pauses, prev.pos, s.pauses, s.pos, |init|);
    }
  }

  /** The arithmetic of one batch-counter step. */
  lemma BatchArithmetic(b: int, p: nat, pos: int, p': nat, pos': int, n: nat)
    requires b > 0 ==> 0 <= pos < b && p * b + pos == n
    requires b <= 0 ==> p == 0 && pos == n
    requires if pos + 1 == b then pos' == 0 && p' == p + 1 else pos' == pos + 1 && p' == p
    ensures b > 0 ==> 0 <= pos' < b && p' * b + pos' == n + 1
    ensures b <= 0 ==> p' == 0 && pos' == n + 1
  {
    if pos + 1 == b {
      assert (p + 1) * b == p * b + b;
    }
  }

  /** With a positive batch size, the pauses taken are the records scanned divided by the batch size. */
  lemma PauseCount(e: Env, es: seq<Entry>)
    requires Run(e, es).status == Scanning && e.config.batchSize > 0
    ensures Run(e, es).pauses == |es| / e.config.batchSize
  {
    BatchPosition(e, es);
    var s := Run(e, es);
    DivOfSplit(s.pauses, s.pos, e.config.batchSize);
  }

  lemma {:induction false} MulMonotone(x: int, y: int, b: int)
    requires x <= y && b > 0
    ensures x * b <= y * b
  {
    assert y * b - x * b == (y - x) * b;
  }

  lemma DivOfSplit(q: nat, r: int, b: int)
    requires b > 0 && 0 <= r < b
    ensures (q * b + r) / b == q
  {
    var x := q * b + r;
    var d, m := x / b, x % b;
    assert d * b + m == q * b + r;
    if d < q {
      assert (d + 1) * b == d * b + b;
      MulMonotone(d + 1, q, b);
    } else if d > q {
      MulMonotone(q + 1, d, b);
    }
  }

  /** Reference definition: the rows the kept trades produce, in order. */
  function KeptRows(e: Env, ts: seq<Trade>): seq<Row>
    decreases |ts|
  {
    if ts == [] then []
    else
      var t := ts[|ts| - 1];
      var v := Classify(t, e.config.whitelist, e.config.exclude);
      KeptRows(e, ts[..|ts| - 1]) + (if v == Drop then [] else [RowFor(e, t, v)])
  }

  /** Reference definition: how many of the trades the exclusion policy drops. */
  function DroppedCount(e: Env, ts: seq<Trade>): nat
    decreases |ts|
  {
    if ts == [] then 0
    else
      var t := ts[|ts| - 1];
      DroppedCount(e, ts[..|ts| - 1]) + (if Classify(t, e.config.whitelist, e.config.exclude) == Drop then 1 else 0)
  }

  /** Every value decoded, in order; None as soon as one fails. */
  function DecodeAll(decode: Bytes -> Option<Trade>, es: seq<Entry>): (r: Option<seq<Trade>>)
    ensures r.Some? ==> |r.value| == |es|
    decreases |es|
  {
    if es == [] then Some([])
    else match (DecodeAll(decode, es[..|es| - 1]), decode(es[|es| - 1].value))
      case (Some(ts), Some(t)) => Some(ts + [t])
      case _ => None
  }

  /**
   * A scan that finishes without error decoded every entry; it counted each
   * of them, its exclusions are the dropped trades, and its rows are the
   * kept trades' rows in entry order. So rows = total - excluded.
   */
  lemma {:induction false} CompletedScan(e: Env, es: seq<Entry>)
    requires Run(e, es).status == Scanning
    ensures DecodeAll(e.decode, es).Some?
    ensures var s, ts := Run(e, es), DecodeAll(e.decode, es).value;
      s.total == |es| && s.excluded == DroppedCount(e, ts) && s.rows == KeptRows(e, ts) &&
      |s.rows| == s.total - s.excluded
    decreases |es|
  {
    if es != [] {
      var init := es[..|es| - 1];
      ScanningPrefix(e, es, |es| - 1);
      CompletedScan(e, init);
      var prev, v := Run(e, init), es[|es| - 1].value;
      assert Run(e, es) == Step(e, prev, v);
      var ts := DecodeAll(e.decode, init).value;
      CompletedStep(e, prev, v, ts);
      assert DecodeAll(e.decode, es) == Some(ts + [e.decode(v).value]);
    }
  }

  /** The inductive step of `CompletedScan`: one more step that keeps scanning extends the reference counts. */
  lemma CompletedStep(e: Env, prev: ScanState, v: Bytes, ts: seq<Trade>)
    requires prev.status == Scanning && Step(e, prev, v).status == Scanning
    requires prev.excluded == DroppedCount(e, ts) && prev.rows == KeptRows(e, ts)
    ensures e.decode(v).Some?
    ensures var s', t := Step(e, prev, v), e.decode(v).value;
      s'.total == prev.total + 1 && s'.excluded == DroppedCount(e, ts + [t]) && s'.rows == KeptRows(e, ts + [t])
  {
    StepByOutcome(e, prev, v);
    var t := e.decode(v).value;
    assert (ts + [t])[..|ts|] == ts;
    assert (ts + [t])[|ts|] == t;
  }

  /** Conversely, when every value decodes and every write is accepted, the scan finishes without error. */
  lemma {:induction false} NoFailureCompletes(e: Env, es: seq<Entry>)
    requires DecodeAll(e.decode, es).Some?
    requires forall n | 1 <= n <= |es| :: e.accepts(n)
    ensures Run(e, es).status == Scanning
    decreases |es|
  {
    if es != [] {
      var init := es[..|es| - 1];
      NoFailureCompletes(e, init);
      CompletedScan(e, init);
    }
  }

  /** A trade with a whitelisted party is never dropped and never tagged, whatever the exclusion policy. */
  lemma KnownTradeKeptUntagged(e: Env, written: nat, value: Bytes)
    requires e.decode(value).Some? && Known(e.decode(value).value, e.config.whitelist)
    ensures var t := e.decode(value).value;
      Handle(e, written, value) == (if e.accepts(written) then Written(t, Keep) else WriteRejected(t, Keep)) &&
      RowFor(e, t, Keep) == TradeToCsvRow(t, MarketDecimalPlaces(e.markets, t.marketId), false, e.config.chainId, e.formatters)
    ensures Handle(e.(config := e.config.(exclude := !e.config.exclude)), written, value) == Handle(e, written, value)
  {
  }

  /**
   * A trade with no whitelisted party is dropped under the exclusion policy,
   * adding one exclusion and no row; without the policy it is written tagged
   * as a bot and the exclusions stay as they were.
   */
  lemma UnknownTrade(e: Env, s: ScanState, value: Bytes)
    requires s.status == Scanning
    requires e.decode(value).Some? && !Known(e.decode(value).value, e.config.whitelist)
    ensures var t, s' := e.decode(value).value, Step(e, s, value);
      s'.total == s.total + 1 &&
      (e.config.exclude ==> s'.excluded == s.excluded + 1 && s'.rows == s.rows && s'.status == Scanning) &&
      (!e.config.exclude ==>
        (s'.excluded == s.excluded &&
         s'.rows == (if e.accepts(1 + |s.rows|) then s.rows + [RowFor(e, t, KeepAsBot)] else s.rows) &&
         RowFor(e, t, KeepAsBot)[12] == e.formatters.boolToInt(true)))
  {
  }

  /**
   * Three trades under the prefix with exclusion on and batches of two: only
   * the second, whose buyer is whitelisted, is written; all three are counted,
   * two are excluded, and one pause is taken after the second record.
   */
  lemma ExclusionScenario(e: Env, es: seq<Entry>, t1: Trade, t2: Trade, t3: Trade)
    requires |es| == 3 && e.config.exclude && e.config.batchSize == 2 && e.accepts(1)
    requires e.decode(es[0].value) == Some(t1) && e.decode(es[1].value) == Some(t2) && e.decode(es[2].value) == Some(t3)
    requires !Known(t1, e.config.whitelist) && t2.buyer in e.config.whitelist && !Known(t3, e.config.whitelist)
    ensures Run(e, es) == ScanState(3, 2, [RowFor(e, t2, Keep)], 1, 1, Scanning)
  {
    var s1 := ScanState(1, 1, [], 1, 0, Scanning);
    var s2 := ScanState(2, 1, [RowFor(e, t2, Keep)], 0, 1, Scanning);
    assert es[..0] == [];
    RunExtend(e, es, 0);
    assert Handle(e, 1, es[0].value) == Dropped;
    assert Run(e, es[..1]) == s1;
    RunExtend(e, es, 1);
    assert Handle(e, 1, es[1].value) == Written(t2, Keep);
    assert Run(e, es[..2]) == s2;
    RunExtend(e, es, 2);
    assert Handle(e, 2, es[2].value) == Dropped;
    assert es[..3] == es;
  }

  /** With nothing under the prefix, the scan is the initial state: no rows, no counts, no pauses. */
  lemma EmptyScan(e: Env, store: seq<Entry>)
    requires forall i | 0 <= i < |store| :: !HasPrefix(store[i].key, TradePrefix)
    ensures Run(e, Scanned(store, TradePrefix)) == Initial
  {

  }

  /** What the scan run as a whole ended with. */
  datatype Outcome = Fatal | ScanAborted | Completed

  /**
   * The per-record callback: decode, count, classify, pick decimal places,
   * write. `failed` reports a decode or write error.
   */
  method ProcessRecord(value: Bytes, config: Config, markets: map<string, Market>,
                       decode: Bytes -> Option<Trade>, formatters: Formatters, w: CsvWriter, ghost e: Env)
    returns (failed: bool)
    requires e == Env(config, markets, decode, formatters, w.accepts)
    modifies config.stats, w
    ensures Handled(e, Handle(e, |old(w.rows)|, value), failed, old(w.rows), w.rows,
              old(config.stats.totalTrades), config.stats.totalTrades,
              old(config.stats.excludedTrades), config.stats.excludedTrades)
    ensures w.flushed == old(w.flushed)
  {
    var decoded := decode(value);
    if decoded.None? {
      return true;
    }
    var trade := decoded.value;
    config.stats.IncTotalTrades();

    var isBot := false;
    if trade.buyer !in config.whitelist {
      if trade.seller !in config.whitelist {
        if config.exclude {
          config.stats.IncExcludedTrades();
          return false;
        }
        isBot := true;
      }
    }

    var dp := 0;
    if trade.marketId in markets {
      if markets[trade.marketId].decimalPlaces > 0 {
        dp := markets[trade.marketId].decimalPlaces;
      }
    }

    var ok := w.Write(TradeToCsvRow(trade, dp, isBot, config.chainId, formatters));
    failed := !ok;
  }

  /**
   * The scan loop's bookkeeping against the scan state `s`: the writer holds
   * `rows0` and then the scan's rows, the counters have risen by the scan's
   * counts, and the batch position and pauses are the scan's.
   */
  ghost predicate Mirrors(s: ScanState, rows0: seq<Row>, rows: seq<Row>, total0: nat, total: nat,
                          excluded0: nat, excluded: nat, pos: int, pauses: nat)
  {
    s.status == Scanning && rows == rows0 + s.rows &&
    total == total0 + s.total && excluded == excluded0 + s.excluded &&
    pos == s.pos && pauses == s.pauses
  }

  /** What handling one record did to the writer and the counters, as `ProcessRecord` reports it. */
  ghost predicate Handled(e: Env, o: RecordOutcome, failed: bool, rows: seq<Row>, rows': seq<Row>,
                          total: nat, total': nat, excluded: nat, excluded': nat)
  {
    failed == (o.Undecodable? || o.WriteRejected?) &&
    total' == total + (if o.Undecodable? then 0 else 1) &&
    excluded' == excluded + (if o.Dropped? then 1 else 0) &&
    rows' == (if o.Written? then rows + [RowFor(e, o.trade, o.verdict)] else rows)
  }

  /**
   * A record handled without error, followed by the batch check, keeps the
   * bookkeeping in step with the scan.
   */
  lemma Advance(e: Env, s: ScanState, value: Bytes, rows0: seq<Row>, rows: seq<Row>, rows': seq<Row>,
                total0: nat, total: nat, total': nat, excluded0: nat, excluded: nat, excluded': nat,
                pos': int, pauses': nat)
    requires Mirrors(s, rows0, rows, total0, total, excluded0, excluded, s.pos, s.pauses)
    requires |rows0| == 1
    requires Handled(e, Handle(e, |rows|, value), false, rows, rows', total, total', excluded, excluded')
    requires if s.pos + 1 == e.config.batchSize then pos' == 0 && pauses' == s.pauses + 1
             else pos' == s.pos + 1 && pauses' == s.pauses
    ensures Mirrors(Step(e, s, value), rows0, rows', total0, total', excluded0, excluded', pos', pauses')
  {

  }

  /**
   * A record whose handling failed stops the scan: the final scan over all of
   * `es` is the one whose counts the writer and counters now show.
   */
  lemma StopAt(e: Env, es: seq<Entry>, k: nat, rows0: seq<Row>, rows: seq<Row>, rows': seq<Row>,
               total0: nat, total: nat, total': nat, excluded0: nat, excluded: nat, excluded': nat,
               pos: int, pauses: nat)
    requires k < |es| && Mirrors(Run(e, es[..k]), rows0, rows, total0, total, excluded0, excluded, pos, pauses)
    requires |rows0| == 1
    requires Handled(e, Handle(e, |rows|, es[k].value), true, rows, rows', total, total', excluded, excluded')
    ensures var s := Run(e, es);
      s.status != Scanning && rows' == rows0 + s.rows && pauses == s.pauses &&
      total' == total0 + s.total && excluded' == excluded0 + s.excluded
  {
    var s := Run(e, es[..k]);
    RunExtend(e, es, k);
    StepByOutcome(e, s, es[k].value);
    assert es == es[..k + 1] + es[k + 1..];
    StoppedStaysStopped(e, es[..k + 1], es[k + 1..]);
  }

  /** Inside the prefix block, the scan position is one of the visited entries. */
  lemma InScannedBlock(store: seq<Entry>, p: Bytes, i: nat)
    requires Seek(store, p) <= i < |store| && HasPrefix(store[i].key, p)
    requires i <= PrefixEnd(store, p, Seek(store, p))
    ensures i - Seek(store, p) < |Scanned(store, p)|
    ensures Scanned(store, p)[i - Seek(store, p)] == store[i]
  {
  }

  /**
   * The read-only view's body: seek to the trade prefix and handle entries
   * while their keys carry it, pausing after every full batch. Called with the
   * header already in the file; `failed` reports the error that stopped the
   * scan, if any.
   */
  method ScanTrades(store: seq<Entry>, config: Config, markets: map<string, Market>,
                    decode: Bytes -> Option<Trade>, formatters: Formatters, w: CsvWriter)
    returns (failed: bool, pauses: nat)
    requires |w.rows| == 1
    modifies config.stats, w
    ensures var s := Run(Env(config, markets, decode, formatters, w.accepts), Scanned(store, TradePrefix));
      failed == (s.status != Scanning) && pauses == s.pauses &&
      w.rows == old(w.rows) + s.rows &&
      config.stats.totalTrades == old(config.stats.totalTrades) + s.total &&
      config.stats.excludedTrades == old(config.stats.excludedTrades) + s.excluded
    ensures w.flushed == old(w.flushed)
  {
    ghost var env := Env(config, markets, decode, formatters, w.accepts);
    ghost var rows0, total0, excluded0 := w.rows, config.stats.totalTrades, config.stats.excludedTrades;
    ghost var scanned := Scanned(store, TradePrefix);
    var i := Seek(store, TradePrefix);
    ghost var start, end := i, PrefixEnd(store, TradePrefix, i);
    ghost var k, st := 0, Initial;
    var pos := 0;
    pauses, failed := 0, false;
    while i < |store| && HasPrefix(store[i].key, TradePrefix)
      invariant start <= i <= end && k == i - start && |scanned| == end - start
      invariant w.accepts == env.accepts && w.flushed == old(w.flushed)
      invariant st == Run(env, scanned[..k])
      invariant Mirrors(st, rows0, w.rows, total0, config.stats.totalTrades,
                        excluded0, config.stats.excludedTrades, pos, pauses)
      decreases |store| - i
    {
      InScannedBlock(store, TradePrefix, i);
      ghost var rows, total, excluded, pos0, pauses0 := w.rows, config.stats.totalTrades, config.stats.excludedTrades, pos, pauses;
      pos := pos + 1;
      failed := ProcessRecord(store[i].value, config, markets, decode, formatters, w, env);
      if failed {
        StopAt(env, scanned, k, rows0, rows, w.rows, total0, total, config.stats.totalTrades,
               excluded0, excluded, config.stats.excludedTrades, pos0, pauses0);
        return;
      }
      if pos == config.batchSize {
        pauses := pauses + 1;
        pos := 0;
      }
      Advance(env, st, store[i].value, rows0, rows, w.rows, total0, total, config.stats.totalTrades,
              excluded0, excluded, config.stats.excludedTrades, pos, pauses);
      RunExtend(env, scanned, k);
      i, k, st := i + 1, k + 1, Step(env, st, store[i].value);
    }
    assert i == end;
    assert scanned[..k] == scanned;
  }

  /**
   * The export run. A failed header write ends the process on the spot: nothing
   * is flushed and completion is never signalled. Otherwise the scan runs as
   * `Run` says over the entries the prefix scan visits, completion is
   * signalled and only then, as the function returns, the deferred flush
   * runs, whether the scan finished or stopped early.
   */
  method TradesToCSV(store: seq<Entry>, config: Config, markets: map<string, Market>,
                     decode: Bytes -> Option<Trade>, formatters: Formatters, accepts: nat -> bool)
    returns (w: CsvWriter, outcome: Outcome, pauses: nat, done: bool)
    modifies config.stats
    ensures fresh(w) && w.path == TradesCsvFile(config.chainId) && w.accepts == accepts
    ensures !accepts(0) ==>
      outcome == Fatal && w.rows == [] && !w.flushed && !done && pauses == 0 &&
      config.stats.totalTrades == old(config.stats.totalTrades) &&
      config.stats.excludedTrades == old(config.stats.excludedTrades)
    ensures accepts(0) ==>
      var s := Run(Env(config, markets, decode, formatters, accepts), Scanned(store, TradePrefix));
      outcome == (if s.status == Scanning then Completed else ScanAborted) &&
      w.rows == [TradeHeaderToCsvRow()] + s.rows && w.flushed && done && pauses == s.pauses &&
      config.stats.totalTrades == old(config.stats.totalTrades) + s.total &&
      config.stats.excludedTrades == old(config.stats.excludedTrades) + s.excluded
  {
    w := new CsvWriter(TradesCsvFile(config.chainId), accepts);
    pauses, done := 0, false;
    var ok := w.Write(TradeHeaderToCsvRow());
    if !ok {
      return w, Fatal, pauses, done;
    }
    var failed;
    failed, pauses := ScanTrades(store, config, markets, decode, formatters, w);
    outcome := if failed then ScanAborted else Completed;
    done := true;
    w.Flush();
  }
}
