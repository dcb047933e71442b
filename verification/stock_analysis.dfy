/** The market-cap / sector checklist for one stock: the criteria chosen by
    the stored investor type, the two tests, the pass count and the gate on
    the trade button. Fetching the company overview is left out: its result
    is a parameter. */
module StockAnalysis {
  import opened Wrappers

  datatype Criteria = Criteria(marketCap: real, sectors: seq<string>, requiredCount: nat)

  const ConservativeCriteria: Criteria :=
    Criteria(10_000_000_000.0, ["Services", "Finance", "Utilities"], 2)

  const AggressiveCriteria: Criteria :=
    Criteria(1_000_000_000.0, ["Technology", "Manufacturing"], 1)

  /** "conservative" selects the conservative criteria; any other stored
      type the aggressive ones. */
  function SelectCriteria(investorType: string): (c: Criteria)
    ensures investorType == "conservative" ==> c == ConservativeCriteria
    ensures investorType != "conservative" ==> c == AggressiveCriteria
  {
    if investorType == "conservative" then ConservativeCriteria else AggressiveCriteria
  }

  /** The fields of the company overview the checklist reads. */
  datatype StockData = StockData(marketCapitalization: Option<real>, sector: Option<string>)

  /** `needle` occurs in `hay` starting at index `i`. */
  predicate OccursAt(needle: string, hay: string, i: int) {
    0 <= i <= |hay| - |needle| && hay[i..i + |needle|] == needle
  }

  /** `needle` occurs in `hay` at some position. */
  ghost predicate OccursIn(needle: string, hay: string) {
    exists i :: OccursAt(needle, hay, i)
  }

  /** `String.prototype.includes`. */
  function Includes(hay: string, needle: string): (b: bool)
    ensures b <==> OccursIn(needle, hay)
  {
    if |needle| > |hay| then
      assert forall i :: !OccursAt(needle, hay, i);
      false
    else if hay[..|needle|] == needle then
      assert OccursAt(needle, hay, 0);
      true
    else
      var rest := Includes(hay[1..], needle);
      assert rest ==> OccursIn(needle, hay) by {
        if rest {
          var i :| OccursAt(needle, hay[1..], i);
          assert hay[1..][i..i + |needle|] == hay[i + 1..i + 1 + |needle|];
          assert OccursAt(needle, hay, i + 1);
        }
      }
      assert OccursIn(needle, hay) ==> rest by {
        if OccursIn(needle, hay) {
          var i :| OccursAt(needle, hay, i);
          assert OccursAt(needle, hay[1..], i - 1);
        }
      }
      rest
  }

  /** The sector test: some listed sector occurs in the stock's sector text;
      a stock without a sector passes none. */
  function SectorMatches(sector: Option<string>, sectors: seq<string>): (b: bool)
    ensures b <==> sector.Some? && exists i | 0 <= i < |sectors| :: OccursIn(sectors[i], sector.value)
  {
    if sector.None? || |sectors| == 0 then false
    else
      assert forall i | 1 <= i < |sectors| :: sectors[i] == sectors[1..][i - 1];
      Includes(sector.value, sectors[0]) || SectorMatches(sector, sectors[1..])
  }

  /** The market-cap test: strictly above the threshold; an unknown market
      cap fails. */
  predicate MarketCapPasses(marketCap: Option<real>, threshold: real) {
    marketCap.Some? && marketCap.value > threshold
  }

  datatype Criterion =
    | MarketCapAbove(threshold: real, isPassed: bool)
    | SectorAmong(sectors: seq<string>, isPassed: bool)

  datatype AnalysisResult = AnalysisResult(criteria: seq<Criterion>, passCount: nat, requiredCount: nat)

  /** The number of criteria that passed. */
  function CountPassed(cs: seq<Criterion>): nat {
    if |cs| == 0 then 0 else (if cs[0].isPassed then 1 else 0) + CountPassed(cs[1..])
  }

  /** The analysis effect: nothing without company data or a (truthy)
      investor type; otherwise the two criteria in order and how many
      passed. */
  function Analyze(stockData: Option<StockData>, investorType: Option<string>): (r: Option<AnalysisResult>)
    ensures r.None? <==> stockData.None? || investorType.None? || investorType.value == ""
    ensures r.Some? ==>
      var c := SelectCriteria(investorType.value);
      && |r.value.criteria| == 2
      && r.value.criteria[0] == MarketCapAbove(c.marketCap, MarketCapPasses(stockData.value.marketCapitalization, c.marketCap))
      && r.value.criteria[1] == SectorAmong(c.sectors, SectorMatches(stockData.value.sector, c.sectors))
      && r.value.passCount == CountPassed(r.value.criteria) <= 2
      && r.value.requiredCount == c.requiredCount
  {
    if stockData.None? || investorType.None? || investorType.value == "" then None
    else
      var c := SelectCriteria(investorType.value);
      var marketCapPassed := MarketCapPasses(stockData.value.marketCapitalization, c.marketCap);
      var sectorPassed := SectorMatches(stockData.value.sector, c.sectors);
      var passCount := (if marketCapPassed then 1 else 0) + (if sectorPassed then 1 else 0);
      var criteria := [MarketCapAbove(c.marketCap, marketCapPassed), SectorAmong(c.sectors, sectorPassed)];
      assert CountPassed(criteria[1..][1..]) == 0;
      assert CountPassed(criteria) == passCount;
      Some(AnalysisResult(criteria, passCount, c.requiredCount))
  }

  /** The "go trade" button is enabled when enough criteria passed. */
  predicate TradeEnabled(r: AnalysisResult) {
    r.passCount >= r.requiredCount
  }

  /** A conservative investor needs both criteria; anyone else either one. */
  lemma TradeGate(stockData: StockData, investorType: string)
    requires investorType != ""
    ensures var r := Analyze(Some(stockData), Some(investorType)).value;
      var cap := r.criteria[0].isPassed;
      var sector := r.criteria[1].isPassed;
      && (investorType == "conservative" ==> (TradeEnabled(r) <==> cap && sector))
      && (investorType != "conservative" ==> (TradeEnabled(r) <==> cap || sector))
  {
  }

  /** A market cap exactly at the threshold does not pass. */
  lemma MarketCapIsStrict(threshold: real)
    ensures !MarketCapPasses(Some(threshold), threshold)
  {
  }

  /** "Information Technology" counts as a technology sector for an
      aggressive investor: the sector test is a substring test. */
  lemma SectorIsSubstringTest()
    ensures SectorMatches(Some("Information Technology"), AggressiveCriteria.sectors)
  {
    var hay := "Information Technology";
    assert hay[12..22] == "Technology";
    assert OccursAt(AggressiveCriteria.sectors[0], hay, 12);
  }
}
