/**
 * The pure parts of the trade exporter: the decoded trade, the market
 * metadata, the counterparty classifier, the decimal-places lookup, the CSV
 * header and row builders and the output file name.
 */
module TradeRows {
  import opened Wrappers
  import opened Decimal

  type uint64 = x: int | 0 <= x < 0x1_0000_0000_0000_0000
  type int64 = x: int | -0x8000_0000_0000_0000 <= x < 0x8000_0000_0000_0000

  /** The side whose order triggered the trade. */
  datatype Side = SideUnspecified | SideBuy | SideSell

  /** A decoded trade record. */
  datatype Trade = Trade(
    id: string,
    marketId: string,
    price: uint64,
    size: uint64,
    buyer: string,
    seller: string,
    aggressor: Side,
    buyOrder: string,
    sellOrder: string,
    timestamp: int64)

  /** Market metadata; only the decimal places matter here. */
  datatype Market = Market(decimalPlaces: int)

  type Row = seq<string>

  /**
   * The formatting helpers the row builder calls but whose bodies are not part
   * of this model: the price scaled by decimal places, the timestamp
   * rendering, the boolean-to-"0/1" rendering and the side's name.
   */
  datatype Formatters = Formatters(
    formatByDP: (uint64, int) -> string,
    formatDate: int64 -> string,
    boolToInt: bool -> string,
    sideName: Side -> string)

  /** What the exporter does with one trade. */
  datatype Verdict = Keep | KeepAsBot | Drop

  /** A trade is known when either party is whitelisted. */
  predicate Known(t: Trade, whitelist: set<string>) {
    t.buyer in whitelist || t.seller in whitelist
  }

  /**
   * The counterparty check: the buyer is looked up first, then the seller;
   * a trade with no whitelisted party is dropped under the exclusion policy
   * and otherwise kept tagged as a bot.
   */
  function Classify(t: Trade, whitelist: set<string>, exclude: bool): (v: Verdict)
    ensures v == Keep <==> Known(t, whitelist)
    ensures v == Drop <==> !Known(t, whitelist) && exclude
    ensures v == KeepAsBot <==> !Known(t, whitelist) && !exclude
  {
    if t.buyer !in whitelist then
      if t.seller !in whitelist then
        if exclude then Drop else KeepAsBot
      else Keep
    else Keep
  }

  /** The decimal places used for a market: its own when known and positive, 0 otherwise. */
  function MarketDecimalPlaces(markets: map<string, Market>, marketId: string): (dp: nat)
    ensures marketId in markets && markets[marketId].decimalPlaces > 0 ==> dp == markets[marketId].decimalPlaces
    ensures marketId !in markets ==> dp == 0
    ensures marketId in markets && markets[marketId].decimalPlaces <= 0 ==> dp == 0
  {
    if marketId in markets then
      if markets[marketId].decimalPlaces > 0 then markets[marketId].decimalPlaces else 0
    else 0
  }

  function TradeHeaderToCsvRow(): Row {
    ["ChainID", "ID", "MarketID", "Seller", "Buyer", "Size", "Price", "TickPrice",
     "Aggressor", "BuyOrder", "SellOrder", "Timestamp", "IsBot"]
  }

  function TradeToCsvRow(t: Trade, decimalPlaces: int, isBot: bool, chainId: string, f: Formatters): Row {
    [chainId, t.id, t.marketId, t.seller, t.buyer, DecimalString(t.size),
     f.formatByDP(t.price, decimalPlaces), DecimalString(t.price), f.sideName(t.aggressor),
     t.buyOrder, t.sellOrder, f.formatDate(t.timestamp), f.boolToInt(isBot)]
  }

  /**
   * Reference definition of a row looked up by column name: the value a
   * consumer expects under that header, or None for a name that is not a column.
   */
  function Cell(name: string, t: Trade, decimalPlaces: int, isBot: bool, chainId: string, f: Formatters): Option<string> {
    if name == "ChainID" then Some(chainId)
    else if name == "ID" then Some(t.id)
    else if name == "MarketID" then Some(t.marketId)
    else if name == "Seller" then Some(t.seller)
    else if name == "Buyer" then Some(t.buyer)
    else if name == "Size" then Some(DecimalString(t.size))
    else if name == "Price" then Some(f.formatByDP(t.price, decimalPlaces))
    else if name == "TickPrice" then Some(DecimalString(t.price))
    else if name == "Aggressor" then Some(f.sideName(t.aggressor))
    else if name == "BuyOrder" then Some(t.buyOrder)
    else if name == "SellOrder" then Some(t.sellOrder)
    else if name == "Timestamp" then Some(f.formatDate(t.timestamp))
    else if name == "IsBot" then Some(f.boolToInt(isBot))
    else None
  }

  /** The header has 13 columns, no name twice. */
  lemma HeaderColumns()
    ensures |TradeHeaderToCsvRow()| == 13
    ensures forall i, j | 0 <= i < j < 13 :: TradeHeaderToCsvRow()[i] != TradeHeaderToCsvRow()[j]
  {
  }

  /**
   * Every data row lines up with the header: it has as many fields, and the
   * field at each position is the value named by the header at that position.
   */
  lemma RowMatchesHeader(t: Trade, decimalPlaces: int, isBot: bool, chainId: string, f: Formatters)
    ensures |TradeToCsvRow(t, decimalPlaces, isBot, chainId, f)| == |TradeHeaderToCsvRow()|
    ensures forall i | 0 <= i < |TradeHeaderToCsvRow()| ::
      Cell(TradeHeaderToCsvRow()[i], t, decimalPlaces, isBot, chainId, f) == Some(TradeToCsvRow(t, decimalPlaces, isBot, chainId, f)[i])
  {
  }

  /** Size and tick price are the exact decimal numerals of the raw integers. */
  lemma RowNumbersReadBack(t: Trade, decimalPlaces: int, isBot: bool, chainId: string, f: Formatters)
    ensures var r := TradeToCsvRow(t, decimalPlaces, isBot, chainId, f);
      AllDigits(r[5]) && ParseDecimal(r[5]) == t.size && AllDigits(r[7]) && ParseDecimal(r[7]) == t.price
  {
    ParseDecimalString(t.size);
    ParseDecimalString(t.price);
  }

  function TradesCsvFile(chainId: string): string {
    "trades-" + chainId + ".csv"
  }

  /** Distinct chains write distinct files. */
  lemma TradesCsvFileInjective(a: string, b: string)
    requires TradesCsvFile(a) == TradesCsvFile(b)
    ensures a == b
  {
    var fa, fb := TradesCsvFile(a), TradesCsvFile(b);
    assert a == fa[7..|fa| - 4];
    assert b == fb[7..|fb| - 4];
  }
}
