/** The trade-detail comparison (`generateAnalysis`): a closed trade's
    PER, PBR and EPS are compared with the thresholds of the user's
    personality, split into satisfied and unsatisfied indicators, and turned
    into a summary and one remark per evaluated indicator; plus the currency
    conversion of `formatCurrency`. Sentences are modelled by their
    content; the Korean wording and `toFixed` rendering are left out. */
module TradeDetail {
  import opened Wrappers
  import opened TradeAnalytics
  import opened InvestmentPersonality

  /** The stock's ratios at the time of analysis. */
  datatype Fundamentals = Fundamentals(per: real, pbr: real, eps: real)

  /** The direction of a preference: the value must lie below or above it. */
  datatype Rule = LessThan | GreaterThan

  /** The `condition` closure of each result entry. */
  predicate Holds(rule: Rule, value: real, preference: real) {
    match rule
    case LessThan => value < preference
    case GreaterThan => value > preference
  }

  /** The printed comparison sign, found as the source finds it: by asking
      the condition about 1 against 2. */
  function Symbol(rule: Rule): (c: char)
    ensures rule == LessThan <==> c == '<'
    ensures rule == GreaterThan <==> c == '>'
  {
    if Holds(rule, 1.0, 2.0) then '<' else '>'
  }

  datatype IndicatorResult = IndicatorResult(name: string, value: real, preference: real, rule: Rule)

  /** Only an indicator with a positive value and a positive preference is
      evaluated. */
  predicate Evaluated(r: IndicatorResult) {
    r.value > 0.0 && r.preference > 0.0
  }

  /** The evaluated results whose condition holds (`want`) or fails
      (`!want`), in order. */
  function Select(rs: seq<IndicatorResult>, want: bool): (sel: seq<IndicatorResult>)
    ensures forall i | 0 <= i < |sel| ::
      sel[i] in rs && Evaluated(sel[i]) && Holds(sel[i].rule, sel[i].value, sel[i].preference) == want
    ensures forall r | r in rs && Evaluated(r) && Holds(r.rule, r.value, r.preference) == want :: r in sel
    ensures |sel| <= |rs|
  {
    if |rs| == 0 then []
    else
      var keep := Evaluated(rs[0]) && Holds(rs[0].rule, rs[0].value, rs[0].preference) == want;
      (if keep then [rs[0]] else []) + Select(rs[1..], want)
  }

  /** Selection distributes over concatenation, and a single result is
      kept exactly when it is evaluated with the wanted outcome: together
      these fix the order of the selection to the order of the results. */
  lemma {:induction false} SelectDistributes(a: seq<IndicatorResult>, b: seq<IndicatorResult>, want: bool)
    ensures Select(a + b, want) == Select(a, want) + Select(b, want)
  {
    if |a| == 0 {
      assert a + b == b;
    } else {
      assert (a + b)[0] == a[0];
      assert (a + b)[1..] == a[1..] + b;
      SelectDistributes(a[1..], b, want);
    }
  }

  lemma SelectSingle(r: IndicatorResult, want: bool)
    ensures Select([r], want) == if Evaluated(r) && Holds(r.rule, r.value, r.preference) == want then [r] else []
  {
    assert [r][1..] == [];
  }

  /** The number of evaluated results. */
  function CountEvaluated(rs: seq<IndicatorResult>): nat {
    if |rs| == 0 then 0 else (if Evaluated(rs[0]) then 1 else 0) + CountEvaluated(rs[1..])
  }

  /** Satisfied and unsatisfied partition the evaluated results: no result
      is in both, and together they count exactly the evaluated ones. */
  lemma {:induction false} SelectPartitions(rs: seq<IndicatorResult>)
    ensures forall r | r in Select(rs, true) :: r !in Select(rs, false)
    ensures |Select(rs, true)| + |Select(rs, false)| == CountEvaluated(rs)
    ensures CountEvaluated(rs) <= |rs|
  {
    if |rs| > 0 {
      SelectPartitions(rs[1..]);
    }
  }

  /** The remark for one evaluated indicator. */
  datatype Point = Point(name: string, value: real, symbol: char, preference: real)

  function PointOf(r: IndicatorResult): Point {
    Point(r.name, r.value, Symbol(r.rule), r.preference)
  }

  function Points(rs: seq<IndicatorResult>): (ps: seq<Point>)
    ensures |ps| == |rs|
    ensures forall i | 0 <= i < |rs| :: ps[i] == PointOf(rs[i])
  {
    seq(|rs|, i requires 0 <= i < |rs| => PointOf(rs[i]))
  }

  /** `p` is the remark of an evaluated result of `rs` whose condition
      holds (`want`) or fails. */
  ghost predicate RemarkFrom(rs: seq<IndicatorResult>, p: Point, want: bool) {
    exists r | r in rs :: Evaluated(r) && Holds(r.rule, r.value, r.preference) == want && p == PointOf(r)
  }

  /** The remarks for the results whose condition holds (`want`) or fails:
      one per selected result, each made from an evaluated result with that
      outcome. */
  function Remarks(rs: seq<IndicatorResult>, want: bool): (ps: seq<Point>)
    ensures |ps| == |Select(rs, want)|
    ensures forall i | 0 <= i < |ps| :: RemarkFrom(rs, ps[i], want)
  {
    var sel := Select(rs, want);
    var ps := Points(sel);
    assert forall i | 0 <= i < |ps| :: sel[i] in rs && ps[i] == PointOf(sel[i]);
    ps
  }

  /** The summary sentence: profit or loss, and, when any indicator was
      evaluated, "k of n preferred indicators satisfied". */
  datatype SummaryText = SummaryText(isProfit: bool, satisfiedOfEvaluated: Option<(nat, nat)>)

  datatype Analysis = Analysis(
    analysisResults: seq<IndicatorResult>,
    summary: SummaryText,
    positivePoints: seq<Point>,
    negativePoints: seq<Point>)

  /** `generateAnalysis`. */
  function GenerateAnalysis(trade: AnalyzedTrade, f: Fundamentals, prefs: Preferences): (a: Analysis)
    ensures |a.analysisResults| == 3
    ensures a.analysisResults[0] == IndicatorResult("PER", f.per, prefs.per, LessThan)
    ensures a.analysisResults[1] == IndicatorResult("PBR", f.pbr, prefs.pbr, LessThan)
    ensures a.analysisResults[2] == IndicatorResult("EPS", f.eps, prefs.eps, GreaterThan)
    ensures a.summary.isProfit <==> trade.realizedProfitLoss > 0.0
    ensures a.summary.satisfiedOfEvaluated.None? <==> CountEvaluated(a.analysisResults) == 0
    ensures a.summary.satisfiedOfEvaluated.Some? ==>
      a.summary.satisfiedOfEvaluated.value == (|Select(a.analysisResults, true)|, CountEvaluated(a.analysisResults))
    ensures a.positivePoints == Points(Select(a.analysisResults, true))
    ensures a.negativePoints == Points(Select(a.analysisResults, false))
    ensures |a.positivePoints| + |a.negativePoints| == CountEvaluated(a.analysisResults) <= 3
    ensures forall i | 0 <= i < |a.positivePoints| :: RemarkFrom(a.analysisResults, a.positivePoints[i], true)
    ensures forall i | 0 <= i < |a.negativePoints| :: RemarkFrom(a.analysisResults, a.negativePoints[i], false)
  {
    var results := [
      IndicatorResult("PER", f.per, prefs.per, LessThan),
      IndicatorResult("PBR", f.pbr, prefs.pbr, LessThan),
      IndicatorResult("EPS", f.eps, prefs.eps, GreaterThan)];
    var satisfied := Select(results, true);
    var unsatisfied := Select(results, false);
    SelectPartitions(results);
    var evaluated := |satisfied| + |unsatisfied|;
    var summary := SummaryText(trade.realizedProfitLoss > 0.0,
                               if evaluated > 0 then Some((|satisfied|, evaluated)) else None);
    var positive := Remarks(results, true);
    var negative := Remarks(results, false);
    assert positive == Points(satisfied) && negative == Points(unsatisfied);
    Analysis(results, summary, positive, negative)
  }

  /** Every personality threshold is positive, so under the user's
      preferences an indicator is evaluated exactly when its value is
      positive. */
  lemma PersonalityNeverExcludes(trade: AnalyzedTrade, f: Fundamentals, p: Option<Personality>)
    ensures var a := GenerateAnalysis(trade, f, GetPreferenceValues(p));
      forall i | 0 <= i < 3 :: Evaluated(a.analysisResults[i]) <==> a.analysisResults[i].value > 0.0
  {
  }

  /** The sign a remark should print for an indicator of this name. */
  function ExpectedSymbol(name: string): char {
    if name == "EPS" then '>' else '<'
  }

  /** Remarks print '<' for PER and PBR and '>' for EPS, satisfied or not. */
  lemma RemarkSymbols(trade: AnalyzedTrade, f: Fundamentals, prefs: Preferences)
    ensures var a := GenerateAnalysis(trade, f, prefs);
      && (forall i | 0 <= i < |a.positivePoints| :: a.positivePoints[i].symbol == ExpectedSymbol(a.positivePoints[i].name))
      && (forall i | 0 <= i < |a.negativePoints| :: a.negativePoints[i].symbol == ExpectedSymbol(a.negativePoints[i].name))
  {
    var a := GenerateAnalysis(trade, f, prefs);
    assert forall r | r in a.analysisResults :: PointOf(r).symbol == ExpectedSymbol(r.name);
    forall i | 0 <= i < |a.positivePoints|
      ensures a.positivePoints[i].symbol == ExpectedSymbol(a.positivePoints[i].name)
    {
      assert RemarkFrom(a.analysisResults, a.positivePoints[i], true);
      var r :| r in a.analysisResults && Evaluated(r) && Holds(r.rule, r.value, r.preference) == true &&
        a.positivePoints[i] == PointOf(r);
    }
    forall i | 0 <= i < |a.negativePoints|
      ensures a.negativePoints[i].symbol == ExpectedSymbol(a.negativePoints[i].name)
    {
      assert RemarkFrom(a.analysisResults, a.negativePoints[i], false);
      var r :| r in a.analysisResults && Evaluated(r) && Holds(r.rule, r.value, r.preference) == false &&
        a.negativePoints[i] == PointOf(r);
    }
  }

  /** A breakeven trade is reported as a loss. */
  lemma BreakevenIsReportedAsLoss(trade: AnalyzedTrade, f: Fundamentals, prefs: Preferences)
    requires trade.realizedProfitLoss == 0.0
    ensures !GenerateAnalysis(trade, f, prefs).summary.isProfit
  {
  }

  datatype Currency = KRW | USD

  /** The amount `formatCurrency` renders: KRW amounts are divided by the
      exchange rate when showing USD and a non-zero rate is known; otherwise
      the amount is shown as it is. */
  function DisplayAmount(amount: real, currency: Currency, exchangeRate: Option<real>): (v: real)
    ensures currency == USD && exchangeRate.Some? && exchangeRate.value != 0.0 ==>
      v * exchangeRate.value == amount
    ensures !(currency == USD && exchangeRate.Some? && exchangeRate.value != 0.0) ==> v == amount
  {
    if currency == USD && exchangeRate.Some? && exchangeRate.value != 0.0 then amount / exchangeRate.value
    else amount
  }
}
