/** The domestic stock list: extracting stock records from the rows of the
    exchange code files, merging the four exchanges with first-wins
    de-duplication by symbol, and looking a stock up. Reading the files and
    CSV tokenising are left out: each file arrives as its parsed rows, or
    None when it could not be read. */
module StockCsv {
  import opened Wrappers
  import SeqUtil

  datatype Exchange = KOSPI | KOSDAQ | KONEX | ELW

  function ExchangeName(e: Exchange): (s: string)
    ensures |s| > 0
  {
    match e
    case KOSPI => "KOSPI"
    case KOSDAQ => "KOSDAQ"
    case KONEX => "KONEX"
    case ELW => "ELW"
  }

  datatype StockInfo = StockInfo(symbol: string, name: string, sector: string, exchange: Exchange, realtimeSymbol: string)

  const SymbolHeader: string := "단축코드"
  const NameHeader: string := "한글명"
  const AltNameHeader: string := "한글종목명"
  const SectorHeader: string := "지수업종대분류"
  const NoSector: string := "N/A"

  /** `Array.prototype.indexOf`: the first position of `h`, or -1. */
  function IndexOf(header: seq<string>, h: string): (r: int)
    ensures r == -1 <==> h !in header
    ensures r != -1 ==> 0 <= r < |header| && header[r] == h && h !in header[..r]
  {
    if |header| == 0 then -1
    else if header[0] == h then 0
    else
      var rest := IndexOf(header[1..], h);
      if rest == -1 then -1
      else
        assert header[..rest + 1] == [header[0]] + header[1..][..rest];
        rest + 1
  }

  /** `row[i]`: undefined for a negative or out-of-range index. */
  function Cell(row: seq<string>, i: int): (c: Option<string>)
    ensures c.Some? <==> 0 <= i < |row|
    ensures c.Some? ==> c.value == row[i]
  {
    if 0 <= i < |row| then Some(row[i]) else None
  }

  /** A cell is truthy when it exists and is not the empty string. */
  predicate Truthy(c: Option<string>) {
    c.Some? && c.value != ""
  }

  /** One data row as a stock, or nothing when its symbol or name is missing
      or empty. */
  function ExtractRow(row: seq<string>, exchange: Exchange, symbolIndex: int, nameIndex: int, sectorIndex: int): (r: Option<StockInfo>)
    ensures r.Some? <==> Truthy(Cell(row, symbolIndex)) && Truthy(Cell(row, nameIndex))
    ensures r.Some? ==>
      && r.value.symbol == row[symbolIndex]
      && r.value.name == row[nameIndex]
      && r.value.exchange == exchange
      && r.value.realtimeSymbol == r.value.symbol
      && (r.value.sector == if Truthy(Cell(row, sectorIndex)) then row[sectorIndex] else NoSector)
  {
    var symbol := Cell(row, symbolIndex);
    var name := Cell(row, nameIndex);
    if !Truthy(symbol) || !Truthy(name) then None
    else
      var sector := Cell(row, sectorIndex);
      Some(StockInfo(symbol.value, name.value, if Truthy(sector) then sector.value else NoSector, exchange, symbol.value))
  }

  /** Every extracted stock is a well-formed record of the given exchange. */
  predicate WellFormed(s: StockInfo, exchange: Exchange) {
    && s.symbol != ""
    && s.name != ""
    && s.sector != ""
    && s.exchange == exchange
    && s.realtimeSymbol == s.symbol
  }

  /** The map-then-filter over the data rows. */
  function ExtractRows(rows: seq<seq<string>>, exchange: Exchange, symbolIndex: int, nameIndex: int, sectorIndex: int): (r: seq<StockInfo>)
    ensures |r| <= |rows|
    ensures forall i | 0 <= i < |r| :: WellFormed(r[i], exchange)
    ensures |r| == |rows| <==>
      forall i | 0 <= i < |rows| :: ExtractRow(rows[i], exchange, symbolIndex, nameIndex, sectorIndex).Some?
  {
    if |rows| == 0 then []
    else
      var rest := ExtractRows(rows[1..], exchange, symbolIndex, nameIndex, sectorIndex);
      assert forall i | 1 <= i < |rows| :: rows[i] == rows[1..][i - 1];
      match ExtractRow(rows[0], exchange, symbolIndex, nameIndex, sectorIndex)
      case None => rest
      case Some(s) => [s] + rest
  }

  /** Extraction distributes over concatenation: the surviving rows keep
      their relative order. */
  lemma {:induction false} ExtractDistributes(a: seq<seq<string>>, b: seq<seq<string>>, exchange: Exchange, si: int, ni: int, ci: int)
    ensures ExtractRows(a + b, exchange, si, ni, ci) == ExtractRows(a, exchange, si, ni, ci) + ExtractRows(b, exchange, si, ni, ci)
  {
    if |a| == 0 {
      assert a + b == b;
    } else {
      assert (a + b)[0] == a[0];
      assert (a + b)[1..] == a[1..] + b;
      ExtractDistributes(a[1..], b, exchange, si, ni, ci);
    }
  }

  /** A single row yields exactly what `ExtractRow` gives for it. */
  lemma ExtractSingle(row: seq<string>, exchange: Exchange, si: int, ni: int, ci: int)
    ensures ExtractRows([row], exchange, si, ni, ci) ==
      match ExtractRow(row, exchange, si, ni, ci) case None => [] case Some(s) => [s]
  {
    assert [row][1..] == [];
  }

  /** The column of the stock name: the primary header, else the
      alternative one. */
  function NameColumn(header: seq<string>): (i: int)
    ensures i == -1 <==> NameHeader !in header && AltNameHeader !in header
    ensures i != -1 ==> 0 <= i < |header|
    ensures NameHeader in header ==> header[i] == NameHeader
    ensures NameHeader !in header && AltNameHeader in header ==> header[i] == AltNameHeader
  {
    var n := IndexOf(header, NameHeader);
    if n == -1 then IndexOf(header, AltNameHeader) else n
  }

  /** The stocks of one exchange file: nothing without a header and at
      least one data row, nothing when the symbol or name column is missing,
      otherwise the rows with a symbol and a name, in order. */
  function ProcessCsvData(rows: seq<seq<string>>, exchange: Exchange): (r: seq<StockInfo>)
    ensures |rows| < 2 ==> r == []
    ensures |rows| >= 2 && (SymbolHeader !in rows[0] || NameColumn(rows[0]) == -1) ==> r == []
    ensures |rows| >= 2 && SymbolHeader in rows[0] && NameColumn(rows[0]) != -1 ==>
      r == ExtractRows(rows[1..], exchange, IndexOf(rows[0], SymbolHeader), NameColumn(rows[0]), IndexOf(rows[0], SectorHeader))
    ensures |r| <= |rows|
    ensures forall i | 0 <= i < |r| :: WellFormed(r[i], exchange)
  {
    if |rows| < 2 then []
    else
      var header := rows[0];
      var symbolIndex := IndexOf(header, SymbolHeader);
      var nameIndex := NameColumn(header);
      var sectorIndex := IndexOf(header, SectorHeader);
      if nameIndex == -1 || symbolIndex == -1 then []
      else ExtractRows(rows[1..], exchange, symbolIndex, nameIndex, sectorIndex)
  }

  /** A file with the sector column absent gives every stock the sector
      "N/A". */
  lemma {:induction false} MissingSectorColumnGivesNoSector(rows: seq<seq<string>>, exchange: Exchange, si: int, ni: int, i: nat)
    requires i < |ExtractRows(rows, exchange, si, ni, -1)|
    ensures ExtractRows(rows, exchange, si, ni, -1)[i].sector == NoSector
  {
    match ExtractRow(rows[0], exchange, si, ni, -1)
    case None =>
      MissingSectorColumnGivesNoSector(rows[1..], exchange, si, ni, i);
    case Some(s) =>
      if i > 0 {
        MissingSectorColumnGivesNoSector(rows[1..], exchange, si, ni, i - 1);
      }
  }

  /** The stocks of one file, or none when it could not be read. */
  function FileStocks(file: Option<seq<seq<string>>>, exchange: Exchange): seq<StockInfo> {
    match file
    case None => []
    case Some(rows) => ProcessCsvData(rows, exchange)
  }

  function SymbolOf(s: StockInfo): string {
    s.symbol
  }

  /** The four exchanges in load order. */
  function AllStocks(kospi: Option<seq<seq<string>>>, kosdaq: Option<seq<seq<string>>>,
                     konex: Option<seq<seq<string>>>, elw: Option<seq<seq<string>>>): seq<StockInfo>
  {
    FileStocks(kospi, KOSPI) + FileStocks(kosdaq, KOSDAQ) + FileStocks(konex, KONEX) + FileStocks(elw, ELW)
  }

  /** The merged stock list: the stocks of the four files in order, keeping
      the first stock seen for each symbol. */
  function LoadStocks(kospi: Option<seq<seq<string>>>, kosdaq: Option<seq<seq<string>>>,
                      konex: Option<seq<seq<string>>>, elw: Option<seq<seq<string>>>): (r: seq<StockInfo>)
    ensures forall i, j | 0 <= i < j < |r| :: r[i].symbol != r[j].symbol
    ensures forall i | 0 <= i < |r| :: r[i] in AllStocks(kospi, kosdaq, konex, elw)
    ensures SeqUtil.KeysOf(r, SymbolOf) == SeqUtil.KeysOf(AllStocks(kospi, kosdaq, konex, elw), SymbolOf)
    ensures SeqUtil.EachFirstOfKey(r, AllStocks(kospi, kosdaq, konex, elw), SymbolOf)
    ensures SeqUtil.InFirstOccurrenceOrder(r, AllStocks(kospi, kosdaq, konex, elw), SymbolOf)
    ensures |r| <= |AllStocks(kospi, kosdaq, konex, elw)|
  {
    SeqUtil.DedupBy(AllStocks(kospi, kosdaq, konex, elw), {}, SymbolOf)
  }

  /** Each stock kept is the first stock loaded with its symbol: a symbol
      listed on KOSPI and KOSDAQ resolves to the KOSPI record. */
  lemma LoadStocksKeepsFirst(kospi: Option<seq<seq<string>>>, kosdaq: Option<seq<seq<string>>>,
                             konex: Option<seq<seq<string>>>, elw: Option<seq<seq<string>>>, i: nat)
    requires i < |LoadStocks(kospi, kosdaq, konex, elw)|
    ensures var s := LoadStocks(kospi, kosdaq, konex, elw)[i];
      SeqUtil.FirstWithKey(AllStocks(kospi, kosdaq, konex, elw), s.symbol, SymbolOf) == Some(s)
  {
    SeqUtil.DedupByKeepsFirst(AllStocks(kospi, kosdaq, konex, elw), {}, SymbolOf, i);
  }

  /** The merged list starts with the KOSPI stocks (de-duplicated), and the
      later files only add the symbols KOSPI did not list. */
  lemma LoadStocksKospiFirst(kospi: Option<seq<seq<string>>>, kosdaq: Option<seq<seq<string>>>,
                             konex: Option<seq<seq<string>>>, elw: Option<seq<seq<string>>>)
    ensures var first := FileStocks(kospi, KOSPI);
      var later := FileStocks(kosdaq, KOSDAQ) + FileStocks(konex, KONEX) + FileStocks(elw, ELW);
      LoadStocks(kospi, kosdaq, konex, elw)
        == SeqUtil.DedupBy(first, {}, SymbolOf) + SeqUtil.DedupBy(later, SeqUtil.KeysOf(first, SymbolOf), SymbolOf)
  {
    var first := FileStocks(kospi, KOSPI);
    var later := FileStocks(kosdaq, KOSDAQ) + FileStocks(konex, KONEX) + FileStocks(elw, ELW);
    assert AllStocks(kospi, kosdaq, konex, elw) == first + later;
    SeqUtil.DedupByAppend(first, later, {}, SymbolOf);
    assert {} + SeqUtil.KeysOf(first, SymbolOf) == SeqUtil.KeysOf(first, SymbolOf);
  }

  /** A truthy exchange argument restricts the match to that exchange. */
  predicate Matches(s: StockInfo, symbol: string, exchange: Option<string>) {
    s.symbol == symbol && (Truthy(exchange) ==> ExchangeName(s.exchange) == exchange.value)
  }

  /** `Array.prototype.find` over the loaded stocks. */
  function FindStockInCsv(stocks: seq<StockInfo>, symbol: string, exchange: Option<string>): (r: Option<StockInfo>)
    ensures r.None? <==> forall i | 0 <= i < |stocks| :: !Matches(stocks[i], symbol, exchange)
    ensures r.Some? ==>
      exists i | 0 <= i < |stocks| ::
        && stocks[i] == r.value
        && Matches(stocks[i], symbol, exchange)
        && forall j | 0 <= j < i :: !Matches(stocks[j], symbol, exchange)
  {
    if |stocks| == 0 then None
    else if Matches(stocks[0], symbol, exchange) then Some(stocks[0])
    else
      var rest := FindStockInCsv(stocks[1..], symbol, exchange);
      assert forall i | 1 <= i < |stocks| :: stocks[i] == stocks[1..][i - 1];
      if rest.Some? then
        var k :| 0 <= k < |stocks[1..]| && stocks[1..][k] == rest.value &&
          Matches(stocks[1..][k], symbol, exchange) &&
          forall j | 0 <= j < k :: !Matches(stocks[1..][j], symbol, exchange);
        assert stocks[k + 1] == rest.value;
        rest
      else rest
  }

  /** Without an exchange, the lookup succeeds exactly when some stock
      carries the symbol. */
  lemma FindWithoutExchange(stocks: seq<StockInfo>, symbol: string)
    ensures FindStockInCsv(stocks, symbol, None).Some? <==> symbol in SeqUtil.KeysOf(stocks, SymbolOf)
  {
    if symbol in SeqUtil.KeysOf(stocks, SymbolOf) {
      var i :| 0 <= i < |stocks| && SymbolOf(stocks[i]) == symbol;
      assert Matches(stocks[i], symbol, None);
    }
  }

  /** In a loaded list (unique symbols) the lookup without an exchange
      finds the one stock with that symbol, exactly when it is listed. */
  lemma FindInLoadedList(kospi: Option<seq<seq<string>>>, kosdaq: Option<seq<seq<string>>>,
                         konex: Option<seq<seq<string>>>, elw: Option<seq<seq<string>>>, symbol: string)
    ensures var stocks := LoadStocks(kospi, kosdaq, konex, elw);
      var r := FindStockInCsv(stocks, symbol, None);
      && (r.Some? <==> symbol in SeqUtil.KeysOf(AllStocks(kospi, kosdaq, konex, elw), SymbolOf))
      && (r.Some? ==> SeqUtil.FirstWithKey(AllStocks(kospi, kosdaq, konex, elw), symbol, SymbolOf) == r)
  {
    var stocks := LoadStocks(kospi, kosdaq, konex, elw);
    var r := FindStockInCsv(stocks, symbol, None);
    FindWithoutExchange(stocks, symbol);
    if r.Some? {
      var i :| 0 <= i < |stocks| && stocks[i] == r.value && Matches(stocks[i], symbol, None) &&
        forall j | 0 <= j < i :: !Matches(stocks[j], symbol, None);
      assert SymbolOf(stocks[i]) == symbol;
      LoadStocksKeepsFirst(kospi, kosdaq, konex, elw, i);
    }
  }
}
