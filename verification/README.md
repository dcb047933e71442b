# Trading journal core, modelled in Dafny

This project models the logic underneath the React front end of a
stock-trading journal: the trade-log store and its analytics, the
indicator-versus-preference comment generator, the investment-personality quiz
and threshold table, the preferred-indicator selection with its mandatory
indicators, the trade-entry form rules, the risk checklist and the
market-cap/sector checklist, the domestic stock list built from the exchange
code files, the volume-rank carousel helpers, the favourites list and the
route-authorisation decision.

Each source concern has its own module. Every operation is a pure function
over immutable datatypes, and state lives in the values passed in and
returned.

- Browser storage becomes parameters. A read is a `Stored<T>` (absent,
  malformed or present), and a write is a `storageOk` flag.
- Dates become a `dayOf` function, and `Number()` coercion a `toNumber`
  function.
- `localeCompare` becomes a comparison function.
- Fresh ids become a parameter.

JavaScript truthiness is written out where the source relies on it: a missing
value, the number `0` and `""` are falsy, while any other text, `"0"`
included, is truthy. The risk checklist reads raw form values, so its guard
tests typed text and its arithmetic goes through `Number()`.

| file | module | models |
|---|---|---|
| wrappers.dfy | `Wrappers` | `Option` for `undefined`/`null` |
| storage.dfy | `BrowserStorage` | what a storage read can yield |
| seq_util.dfy | `SeqUtil` | remove-all filter, first-by-key lookup, first-wins de-duplication (`Set`/`Map` insertion order) |
| numeric.dfy | `Numeric` | integer test, absolute value, raw form values, `Number()` coercion, truthiness |
| trade_log.dfy | `TradeLogStore` | `TradeLog`, `calculateProfitRate`, add/update/delete |
| trade_analysis.dfy | `TradeAnalytics` | `analyzeSingleTrade`, `analyzeTradeLogs` |
| trade_detail.dfy | `TradeDetail` | `generateAnalysis`, the converted amount of `formatCurrency` |
| personality.dfy | `InvestmentPersonality` | threshold table, load, `setPersonalityData` |
| quiz.dfy | `PersonalityQuiz` | scoring, classification, navigation, completion gate |
| indicator_prefs.dfy | `IndicatorPreferences` | mandatory merge, load and save of preferences |
| indicator_selection.dfy | `IndicatorSelection` | open, toggle, mandatory lock, submit, display order |
| onboarding.dfy | `Onboarding` | quiz→indicators steps, toggle, submit, the re-firing open effect |
| trade_entry.dfy | `TradeEntryForm` | `TradeLogSchema`, comma stripping, submit |
| checklist.dfy | `Checklist` | `ChecklistSchema`, the risk rule of `onCalc` |
| stock_analysis.dfy | `StockAnalysis` | criteria, market-cap and sector tests, button gate |
| stock_csv.dfy | `StockCsv` | CSV row extraction, `loadStocks` merge, `findStockInCsv` |
| volume_rank.dfy | `VolumeRank` | `chunk`, price-change colour and text |
| favorites.dfy | `Favorites` | add, remove, membership, persistence |
| auth_routing.dfy | `AuthRouting` | the `authorized` callback |

## Model

| member | source | states |
|---|---|---|
| SeqUtil.RemoveAll | src/contexts/favorites-context.tsx:46 | The filtered list no longer holds the value, keeps every other element, holds nothing new and is no longer than the input. |
| SeqUtil.RemoveAllAppend | src/contexts/favorites-context.tsx:46 | Filtering distributes over concatenation, so the survivors keep their relative order. |
| SeqUtil.RemoveAllAbsent | src/contexts/favorites-context.tsx:46 | Filtering out a value that does not occur returns the list unchanged. |
| SeqUtil.FirstWithKey | src/lib/stock-utils.ts:112-114 | The lookup fails exactly when no element carries the key. Otherwise it returns the element at the first position whose key matches, and every earlier element has a different key. |
| SeqUtil.DedupBy | src/lib/stock-utils.ts:96-103 | The de-duplicated list has pairwise distinct keys, none already seen, and its key set is the input's minus the seen keys. Each kept element is the first input element with its key, and the kept elements appear in the order their keys first occur in the input. |
| SeqUtil.DedupByKeepsFirst | src/lib/stock-utils.ts:98-100 | Every element kept is the first input element with its key, so the first insertion wins. |
| SeqUtil.DedupByDistinct | src/contexts/indicator-preference-context.tsx:73 | A list whose keys are already distinct and unseen passes through unchanged. |
| SeqUtil.DedupBySkipSeen | src/contexts/indicator-preference-context.tsx:73 | A prefix made only of already-seen keys contributes nothing. |
| SeqUtil.DedupByAppend | src/lib/stock-utils.ts:96-103 | De-duplicating a concatenation gives the first part de-duplicated, followed by the second part de-duplicated against the keys the first part already had. |
| SeqUtil.DedupBySingle | src/lib/stock-utils.ts:98-100 | A single element is kept exactly when its key is not yet in the map. |
| TradeLogStore.RateOf | src/contexts/trade-log-context.tsx:56-70 | A rate exists exactly when the sell price and quantity are present and the buy price and quantity are positive. The rate times the purchase cost is 100 times the gain, and it is positive exactly when the sale exceeds the purchase. |
| TradeLogStore.CalculateProfitRate | src/contexts/trade-log-context.tsx:56-70 | The same guard and percentage-gain relation stated for a record; the sell date plays no part. |
| TradeLogStore.ProfitRateIgnoresStoredRate | src/contexts/trade-log-context.tsx:56-70 | The computed rate never depends on the rate a record already stores. |
| TradeLogStore.AddTradeLog | src/contexts/trade-log-context.tsx:73-82 | Exactly one record is appended at the end, earlier records are untouched, and the new record carries the input fields, the fresh id and its own computed profit rate. |
| TradeLogStore.Overlay | src/contexts/trade-log-context.tsx:89 | For each of the nine patchable keys (id, symbol, name, the buy leg and the sell leg), the merged record has the patch value (even `undefined`) when the key is present and the old value when it is absent. The stored rate is untouched. |
| TradeLogStore.Updated | src/contexts/trade-log-context.tsx:89-90 | An updated record is the overlay with its profit rate recomputed from the merged fields. |
| TradeLogStore.UpdateTradeLog | src/contexts/trade-log-context.tsx:85-96 | Length and positions are kept; records with another id are identical, and each record with the id becomes its update. |
| TradeLogStore.DeleteTradeLog | src/contexts/trade-log-context.tsx:99-101 | No survivor has the id; every record with another id survives, and nothing new appears. |
| TradeLogStore.DeleteAbsentIsNoOp | src/contexts/trade-log-context.tsx:99-101 | Deleting an id that no record carries changes nothing. |
| TradeLogStore.DeleteDistributes | src/contexts/trade-log-context.tsx:100 | Deletion distributes over concatenation, so order is preserved. |
| TradeLogStore.AddThenDeleteRoundTrip | src/contexts/trade-log-context.tsx:73-101 | Deleting the record just added under a fresh id restores the previous list. |
| TradeLogStore.UpdateIdempotent | src/contexts/trade-log-context.tsx:85-96 | Applying the same update twice equals applying it once. |
| TradeLogStore.UpdateAbsentIsNoOp | src/contexts/trade-log-context.tsx:85-96 | Updating an id that no record carries changes nothing. |
| TradeAnalytics.AnalyzeSingleTrade | src/lib/analysis-utils.ts:40-63 | A record is analysed exactly when its sell price, quantity and date are truthy. Identity, buy and sell fields are copied. Principal, sale amount and P/L are the products and the difference. The return rate is 0 on zero principal and otherwise satisfies rate × principal = 100 × P/L. The holding period is the day difference. |
| TradeAnalytics.CollectAnalyzed | src/lib/analysis-utils.ts:71-73 | At most as many analysed trades as records, with equality exactly when every record is closed; each entry is the analysis of some record. |
| TradeAnalytics.CollectDistributes | src/lib/analysis-utils.ts:71-73 | Collection distributes over concatenation, so analysed trades keep input order. |
| TradeAnalytics.CollectSingle | src/lib/analysis-utils.ts:71-73 | A single closed record yields its analysis; a single open one yields nothing. |
| TradeAnalytics.WinsPlusLossesBounded | src/lib/analysis-utils.ts:80-84 | Wins plus losses never exceed the number of analysed trades (breakeven trades count as neither). |
| TradeAnalytics.ReduceComputesTotals | src/lib/analysis-utils.ts:75-94 | The accumulating reduce yields the independent recursive sums of P/L, principal and holding days and the counts of wins and losses. |
| TradeAnalytics.PercentBounded | src/lib/analysis-utils.ts:101 | A count out of a larger count, as a percentage, lies in [0, 100]. |
| TradeAnalytics.AnalyzeTradeLogs | src/lib/analysis-utils.ts:70-114 | Totals and counts equal the reference sums over the analysed trades, and wins + losses ≤ trades. The overall rate is 0 on zero principal and otherwise the P/L-to-principal percentage. Win rate and average holding are 0 with no trades and otherwise the ratios. Win rate lies in [0, 100]. |
| TradeAnalytics.EmptyJournalSummary | src/lib/analysis-utils.ts:96-113 | An empty journal gives an all-zero summary with no analysed trades. |
| TradeAnalytics.StoredRateMatchesReturnRate | src/lib/analysis-utils.ts:49 | For a closed record with a positive buy leg, the store's profit rate equals the analytics' return rate. |
| TradeAnalytics.ZeroSalePriceDiverges | src/lib/analysis-utils.ts:42-44 | A sale at price 0 gets a stored rate of −100% but the analytics treat the record as open. |
| TradeAnalytics.ExampleSingleClosedTrade | src/lib/analysis-utils.ts:46-50 | 10 shares bought at 10000 and sold at 12000 ten days later give principal 100000, P/L 20000, rate 20 and 10 days. |
| TradeAnalytics.ExampleWinAndLoss | src/lib/analysis-utils.ts:75-101 | A +5000 and a −3000 trade give total P/L 2000 on 80000, overall rate 2.5, one win, one loss, win rate 50. |
| TradeDetail.Symbol | src/components/analysis/trade-detail-modal.tsx:55-56 | The printed symbol is '<' exactly for the less-than rule and '>' exactly for the greater-than rule. |
| TradeDetail.Select | src/components/analysis/trade-detail-modal.tsx:46-47 | The selection holds exactly the evaluated indicators (positive value and preference) whose condition has the wanted outcome. |
| TradeDetail.SelectDistributes | src/components/analysis/trade-detail-modal.tsx:46-47 | Filtering distributes over concatenation, so the selected results keep their relative order. |
| TradeDetail.SelectSingle | src/components/analysis/trade-detail-modal.tsx:46-47 | A single result is kept exactly when it is evaluated and its condition has the wanted outcome. |
| TradeDetail.SelectPartitions | src/components/analysis/trade-detail-modal.tsx:46-47 | Satisfied and unsatisfied selections are disjoint and together have as many entries as there are evaluated indicators. |
| TradeDetail.Points | src/components/analysis/trade-detail-modal.tsx:55-56 | One remark per selected indicator, in order. |
| TradeDetail.GenerateAnalysis | src/components/analysis/trade-detail-modal.tsx:39-59 | Three results in the order PER (<), PBR (<), EPS (>) with the given values and thresholds. It is a profit exactly when P/L > 0. The "k of n" sentence appears exactly when n > 0, with k the number of satisfied indicators and n the number evaluated. The positive remarks are one per satisfied indicator and the negative ones one per unsatisfied indicator, in result order. |
| TradeDetail.PersonalityNeverExcludes | src/components/analysis/trade-detail-modal.tsx:46-47 | Under any personality's thresholds an indicator is evaluated exactly when its value is positive. |
| TradeDetail.Remarks | src/components/analysis/trade-detail-modal.tsx:55-56 | One remark per selected indicator, each made from an evaluated indicator with the wanted outcome. |
| TradeDetail.RemarkSymbols | src/components/analysis/trade-detail-modal.tsx:55-56 | Positive and negative remarks both print '>' for EPS and '<' for PER and PBR. |
| TradeDetail.BreakevenIsReportedAsLoss | src/components/analysis/trade-detail-modal.tsx:49-50 | A zero P/L is described as a loss. |
| TradeDetail.DisplayAmount | src/components/analysis/trade-detail-modal.tsx:27-28 | For USD with a truthy rate the shown value times the rate is the amount; otherwise the amount is shown as is. |
| InvestmentPersonality.ParsePersonality | src/contexts/investment-personality-context.tsx:65-66 | A recognised stored text yields the tier whose name it is. |
| InvestmentPersonality.ParseName | src/contexts/investment-personality-context.tsx:86-90 | Parsing a tier's stored name gives the tier back. |
| InvestmentPersonality.GetPreferenceValues | src/contexts/investment-personality-context.tsx:98-108 | The three table rows (10/0.8/2000, 25/2.0/1000, 15/1.2/1500); no tier gives the moderate row; every threshold is positive. |
| InvestmentPersonality.ThresholdsMonotone | src/contexts/investment-personality-context.tsx:100-106 | From conservative to moderate to aggressive the PER and PBR thresholds strictly rise and the EPS threshold strictly falls. |
| InvestmentPersonality.LoadPersonality | src/contexts/investment-personality-context.tsx:60-79 | Any read or decode failure gives moderate with no answers. Otherwise a missing tier gives moderate, a stored tier is parsed, and stored answers are adopted. |
| InvestmentPersonality.LoadedPreferencesDefaultModerate | src/contexts/investment-personality-context.tsx:65-75 | Unless a tier was actually read, the thresholds in force after loading are the moderate row. |
| InvestmentPersonality.SetPersonalityData | src/contexts/investment-personality-context.tsx:81-96 | A successful write replaces answers and tier together; a failed one changes nothing. |
| PersonalityQuiz.OptionScoresInRange | src/components/survey/investment-personality-quiz.tsx:19-90 | Seven questions, every option scoring between 1 and 5. |
| PersonalityQuiz.InitialAnswers | src/components/survey/investment-personality-quiz.tsx:99 | One unanswered slot per question. |
| PersonalityQuiz.ClassifyBands | src/components/survey/investment-personality-quiz.tsx:118-124 | Conservative exactly for totals ≤ 10, moderate exactly for 11–24, aggressive exactly for ≥ 25. |
| PersonalityQuiz.ClassifyMonotone | src/components/survey/investment-personality-quiz.tsx:118-124 | A higher total never yields a more conservative tier. |
| PersonalityQuiz.TotalScoreBounds | src/components/survey/investment-personality-quiz.tsx:115 | With every answer between 1 and 5 the total lies between the count and five times the count. |
| PersonalityQuiz.FullQuizScoreRange | src/components/survey/investment-personality-quiz.tsx:19-115 | A fully answered quiz with offered scores totals between 7 and 35. |
| PersonalityQuiz.HandleAnswer | src/components/survey/investment-personality-quiz.tsx:108-112 | Only the given slot changes, to the score; the length is kept. |
| PersonalityQuiz.HandleAnswerTotal | src/components/survey/investment-personality-quiz.tsx:108-115 | Answering a question changes the total by the new score minus the old contribution. |
| PersonalityQuiz.HandleNext | src/components/survey/investment-personality-quiz.tsx:130-134 | The index advances by one exactly when it is before the last question, and otherwise stays; it stays in range. |
| PersonalityQuiz.HandlePrev | src/components/survey/investment-personality-quiz.tsx:136-140 | The index goes back by one exactly when it is above 0, and otherwise stays; it stays in range. |
| PersonalityQuiz.NextThenPrev | src/components/survey/investment-personality-quiz.tsx:130-140 | Before the last question, next then previous returns to the same question. |
| PersonalityQuiz.PrevThenNext | src/components/survey/investment-personality-quiz.tsx:130-140 | After the first question, previous then next returns to the same question. |
| PersonalityQuiz.Footer | src/components/survey/investment-personality-quiz.tsx:181-189 | The finish button shows exactly on the last question and is enabled exactly when all are answered; otherwise next is enabled exactly when the current question is answered. |
| PersonalityQuiz.AdoptInitialAnswers | src/components/survey/investment-personality-quiz.tsx:102-106 | Given answers are adopted exactly when their length is the number of questions. |
| PersonalityQuiz.CalculatePersonality | src/components/survey/investment-personality-quiz.tsx:114-128 | On a successful save the answers are stored with the tier of their total's band. |
| IndicatorPreferences.KeysAreElements | src/contexts/indicator-preference-context.tsx:73 | Keying indicators by themselves, the key set is the element set. |
| IndicatorPreferences.MergeMandatory | src/contexts/indicator-preference-context.tsx:73 | The merge starts with EPS, PBR, then the other input keys de-duplicated, in the order they first occur in the input; no duplicates; its elements are exactly the mandatory ones and the inputs. |
| IndicatorPreferences.MergedTailIsDistinct | src/contexts/indicator-preference-context.tsx:73 | After EPS and PBR, a merged list is already free of repeats and of the mandatory keys, so de-duplicating it again changes nothing. |
| IndicatorPreferences.MergeIdempotent | src/contexts/indicator-preference-context.tsx:73 | Merging an already merged list returns it unchanged. |
| IndicatorPreferences.MergeExtends | src/contexts/indicator-preference-context.tsx:73 | Merging a longer list extends the merge of its prefix with the new keys that are neither mandatory nor already present, in first-occurrence order. |
| IndicatorPreferences.MergeContainsMandatory | src/contexts/indicator-preference-context.tsx:24 | The merge always contains EPS and PBR and is never empty. |
| IndicatorPreferences.LoadPreferences | src/contexts/indicator-preference-context.tsx:44-68 | Nothing stored, or an error, gives exactly [EPS, PBR]; a stored list gives its merge; the mandatory keys are always present. |
| IndicatorPreferences.SetPreferences | src/contexts/indicator-preference-context.tsx:70-85 | A successful save sets the merge of the new list; a failed one changes nothing. |
| IndicatorSelection.OpenSelection | src/components/survey/indicator-preference-modal.tsx:43-48 | On open the selection is the merge of the initial indicators, holding both mandatory keys. |
| IndicatorSelection.Toggle | src/components/survey/indicator-preference-modal.tsx:50-56 | The toggled key's membership flips and every other key's stays. An unselected key is appended at the end; a selected one is filtered out, other keys keeping their order. |
| IndicatorSelection.ToggleTwiceRestores | src/components/survey/indicator-preference-modal.tsx:50-56 | Toggling an absent key twice restores the list exactly. |
| IndicatorSelection.CheckboxChange | src/components/survey/indicator-preference-modal.tsx:93-94 | A mandatory checkbox leaves the selection unchanged; any other flips its key; mandatory membership never changes. |
| IndicatorSelection.ClicksKeepMandatory | src/components/survey/indicator-preference-modal.tsx:93-94 | Any click sequence keeps both mandatory keys selected. |
| IndicatorSelection.SubmitSelection | src/components/survey/indicator-preference-modal.tsx:58-60 | The submitted list starts with EPS, PBR, has no duplicates, and holds exactly the mandatory and selected keys. |
| IndicatorSelection.DisplayCompare | src/components/survey/indicator-preference-modal.tsx:80-86 | Mandatory sorts before non-mandatory and after it the other way round; ties go to the label comparison. |
| IndicatorSelection.SortedOrderPutsMandatoryFirst | src/components/survey/indicator-preference-modal.tsx:80-86 | In any order consistent with the comparator, no mandatory key follows a non-mandatory one. |
| Onboarding.Apply | src/components/survey/onboarding-modal.tsx:51-70 | Opening sets the initial step and the merged selection. Finishing the quiz moves to the indicator step. A checkbox applies the locked toggle. |
| Onboarding.IndicatorsStepIsFinal | src/components/survey/onboarding-modal.tsx:51-62 | With the open effect firing only when the modal opens, once on the indicator step no event other than reopening moves back. |
| Onboarding.MandatoryStaysSelected | src/components/survey/onboarding-modal.tsx:64-70 | The mandatory keys stay selected through any event sequence. |
| Onboarding.ApplyAsWritten | src/components/survey/onboarding-modal.tsx:41-58 | With a prop that keeps its identity an event acts as intended. With a fresh `initialIndicators` array every render, any state change is followed by the open effect, resetting step and selection to the props. |
| Onboarding.IndicatorsStepUnreachableAsWritten | src/components/survey/onboarding-modal.tsx:41-62 | As written, a modal opened on the quiz step without `initialIndicators` stays on the quiz step through any events. |
| Onboarding.QuizCompletionUndoneAsWritten | src/components/survey/onboarding-modal.tsx:51-62 | Completing the quiz reaches the indicator step in the intended model but not as written. |
| Onboarding.StablePropRunsAsIntended | src/components/survey/onboarding-modal.tsx:51-58 | With a prop that keeps its identity, the written component runs exactly as the intended model. |
| Onboarding.Submit | src/components/survey/onboarding-modal.tsx:72-85 | Submission always saves (the empty-list warning cannot occur) the merged selection, which holds both mandatory keys. |
| TradeEntryForm.Blank | src/components/trades/add-trade-log-modal.tsx:29-40 | An empty string becomes `undefined`; anything else is kept. |
| TradeEntryForm.ParsePrice | src/components/trades/add-trade-log-modal.tsx:24 | A price is accepted exactly when it coerces to a number ≥ 0, and the accepted value is that number. |
| TradeEntryForm.ParseQuantity | src/components/trades/add-trade-log-modal.tsx:25 | A quantity is accepted exactly when it coerces to an integer ≥ 1, and the accepted value is that integer. |
| TradeEntryForm.Validate | src/components/trades/add-trade-log-modal.tsx:21-50 | An accepted form keeps the symbol, name and buy date as typed, with non-empty symbol and name and a date of shape dddd-dd-dd. Its buy price and quantity are the coerced inputs (price ≥ 0, integer quantity ≥ 1). Its sell leg is all present or all absent. When present, it holds the coerced sell price and quantity under the same rules and the typed sell date of the same shape. Blank sell inputs become absent. Missing symbol, name or date, or a sell leg half filled, is rejected. |
| TradeEntryForm.WellFormedFormAccepted | src/components/trades/add-trade-log-modal.tsx:21-50 | Conversely, a form meeting every field rule with a wholly blank or wholly valid sell leg is accepted. |
| TradeEntryForm.SubmitForm | src/components/trades/add-trade-log-modal.tsx:154-163 | A valid form is handed to `addTradeLog` unchanged; an invalid one never reaches the store. |
| TradeEntryForm.EnteredRecordProfitRate | src/components/trades/add-trade-log-modal.tsx:154-160 | A record entered through the form has a profit rate exactly when its sell leg is filled and its buy price is positive. |
| TradeEntryForm.EnteredRecordClosedness | src/components/trades/add-trade-log-modal.tsx:154-160 | A record entered through the form is closed for the analytics exactly when its sell leg is filled with a non-zero price. |
| TradeEntryForm.StripCommas | src/components/trades/add-trade-log-modal.tsx:202 | The result has no comma and keeps every other character. |
| TradeEntryForm.StripCommasAppend | src/components/trades/add-trade-log-modal.tsx:202 | Stripping distributes over concatenation, so the remaining characters keep their order. |
| TradeEntryForm.StripCommasSingle | src/components/trades/add-trade-log-modal.tsx:202 | A single character is dropped exactly when it is a comma. |
| TradeEntryForm.StripCommasNoComma | src/components/trades/add-trade-log-modal.tsx:202 | Text without commas is unchanged. |
| TradeEntryForm.StripCommasIdempotent | src/components/trades/add-trade-log-modal.tsx:202 | Stripping twice equals stripping once. |
| TradeEntryForm.PriceInput | src/components/trades/add-trade-log-modal.tsx:200-204 | Typed price text becomes `undefined` exactly when nothing but commas was typed, and otherwise the comma-free text. |
| Checklist.Passes | src/components/checklist/checklist-form.tsx:18-26 | A falsy account, entry, stop or quantity (undefined, empty text or the number 0; typed "0" is truthy) fails. Otherwise the check passes exactly when the risk value is at most the coerced limit and the target is truthy. |
| Checklist.RiskOf | src/components/checklist/checklist-form.tsx:23 | Any NaN operand gives NaN. A non-zero account gives a finite risk with risk × account = 100 × exposure. A zero account gives an infinity of the exposure's sign, or NaN for zero exposure. |
| Checklist.DefaultsFail | src/components/checklist/checklist-form.tsx:14-22 | The default values hit the guard, so the untouched form does not pass. |
| Checklist.TypedZeroTargetPasses | src/components/checklist/checklist-form.tsx:18-26 | A target typed as "0" is truthy, so the check passes although the schema rejects it. |
| Checklist.ZeroAccountFails | src/components/checklist/checklist-form.tsx:19-24 | An account that coerces to 0, with a non-negative quantity, never passes. |
| Checklist.SchemaClearsGuard | src/lib/schemas.ts:3-10 | With `Number("")` = 0, values the schema accepts never hit the guard and give a finite risk, so passing is exactly risk ≤ limit. |
| Checklist.RiskSymmetric | src/components/checklist/checklist-form.tsx:23 | Swapping entry and stop changes neither the risk nor the verdict. |
| Checklist.PassMonotoneInMaxRisk | src/components/checklist/checklist-form.tsx:24 | Raising the coerced risk limit never turns a pass into a fail. |
| Checklist.PassMonotoneInAccount | src/components/checklist/checklist-form.tsx:23-24 | With a positive account and a non-negative quantity, raising the account to a truthy larger value never turns a pass into a fail. |
| Checklist.FlatStopPasses | src/components/checklist/checklist-form.tsx:23-25 | Entry equal to stop with a non-zero account gives zero risk, which passes with a truthy target and a non-negative limit. |
| StockAnalysis.SelectCriteria | src/components/checklist/stock-analysis.tsx:21-31 | "conservative" selects 10B, [Services, Finance, Utilities], 2 required; anything else 1B, [Technology, Manufacturing], 1 required. |
| StockAnalysis.Includes | src/components/checklist/stock-analysis.tsx:80 | The substring test holds exactly when the needle occurs at some position. |
| StockAnalysis.SectorMatches | src/components/checklist/stock-analysis.tsx:80 | The sector criterion passes exactly when the stock has a sector in which some listed sector occurs. |
| StockAnalysis.Analyze | src/components/checklist/stock-analysis.tsx:63-93 | No analysis without company data or a non-empty investor type. Otherwise exactly two criteria: market cap strictly above the threshold, then the sector test. The pass count is the number passed (≤ 2), and the required count comes from the criteria. |
| StockAnalysis.TradeGate | src/components/checklist/stock-analysis.tsx:137 | The trade button is enabled for a conservative investor exactly when both criteria pass, for anyone else exactly when either does. |
| StockAnalysis.MarketCapIsStrict | src/components/checklist/stock-analysis.tsx:71 | A market cap exactly at the threshold fails. |
| StockAnalysis.SectorIsSubstringTest | src/components/checklist/stock-analysis.tsx:80 | "Information Technology" passes the aggressive sector test. |
| StockCsv.IndexOf | src/lib/stock-utils.ts:22 | −1 exactly when the header is absent; otherwise the first position holding it. |
| StockCsv.Cell | src/lib/stock-utils.ts:49-50 | A cell exists exactly for an in-range index, and is that cell. |
| StockCsv.ExtractRow | src/lib/stock-utils.ts:48-60 | A row yields a stock exactly when its symbol and name cells are non-empty. The stock has that symbol and name, the file's exchange, realtime symbol equal to symbol, and the sector cell or "N/A". |
| StockCsv.ExtractRows | src/lib/stock-utils.ts:40-62 | No more stocks than rows, equality exactly when every row yields one; each stock well formed for the exchange. |
| StockCsv.ExtractDistributes | src/lib/stock-utils.ts:47-61 | Extraction distributes over concatenation, so the surviving rows keep their order. |
| StockCsv.ExtractSingle | src/lib/stock-utils.ts:47-61 | A single row yields what that row's extraction gives. |
| StockCsv.NameColumn | src/lib/stock-utils.ts:25-28 | The name column is the primary header if present, else the alternative, else −1. |
| StockCsv.ProcessCsvData | src/lib/stock-utils.ts:15-38 | Fewer than two rows, or a missing symbol or name column, give nothing; otherwise the extraction of the data rows with the found columns, each stock well formed. |
| StockCsv.MissingSectorColumnGivesNoSector | src/lib/stock-utils.ts:57 | Without a sector column every stock's sector is "N/A". |
| StockCsv.LoadStocks | src/lib/stock-utils.ts:87-103 | The merged list has unique symbols and covers every symbol loaded from the four files. Each entry is the first stock loaded with its symbol, and the entries appear in the order their symbols first occur across KOSPI, KOSDAQ, KONEX and ELW. |
| StockCsv.LoadStocksKeepsFirst | src/lib/stock-utils.ts:96-101 | Each kept stock is the first one loaded with its symbol, in exchange order. |
| StockCsv.LoadStocksKospiFirst | src/lib/stock-utils.ts:87-103 | The merged list is the de-duplicated KOSPI stocks followed by the later files' stocks whose symbols KOSPI did not list. |
| StockCsv.FindStockInCsv | src/lib/stock-utils.ts:108-115 | No result exactly when nothing matches (symbol, plus the exchange when a truthy one is given); otherwise the first match. |
| StockCsv.FindWithoutExchange | src/lib/stock-utils.ts:114 | Without an exchange, the lookup succeeds exactly when some stock carries the symbol. |
| StockCsv.FindInLoadedList | src/lib/stock-utils.ts:108-115 | Without an exchange, a lookup in the loaded list succeeds exactly for a loaded symbol and returns its first-loaded stock. |
| VolumeRank.Chunk | src/components/trades/volume-rank-carousel.tsx:45-52 | No groups exactly for the empty array; every group non-empty and at most size long, all but the last exactly size. |
| VolumeRank.ChunkFlattens | src/components/trades/volume-rank-carousel.tsx:45-52 | Concatenating the groups gives back the array. |
| VolumeRank.ChunkCount | src/components/trades/volume-rank-carousel.tsx:45-52 | The number of groups n satisfies (n − 1)·size < length ≤ n·size, that is, the length divided by size rounded up. |
| VolumeRank.PriceChangeColour | src/components/trades/volume-rank-carousel.tsx:27-33 | Red exactly for signs 1 and 2, blue exactly for 4 and 5, gray otherwise. |
| VolumeRank.FormatPriceChange | src/components/trades/volume-rank-carousel.tsx:36-42 | An up arrow for signs 1 and 2, a down arrow for 4 and 5, no prefix otherwise, always followed by the rate and '%'. |
| VolumeRank.ArrowMatchesColour | src/components/trades/volume-rank-carousel.tsx:27-42 | The text shows an up arrow exactly when red, a down arrow exactly when blue, and no arrow exactly when gray. |
| Favorites.LoadFavorites | src/contexts/favorites-context.tsx:17-26 | A stored list is adopted; a missing or undecodable one leaves the list empty. |
| Favorites.AddFavorite | src/contexts/favorites-context.tsx:36-42 | The symbol is appended, length grows by one, earlier entries are kept, and a successful write persists the new list. |
| Favorites.RemoveFavorite | src/contexts/favorites-context.tsx:44-50 | The symbol is gone, every other symbol's membership is kept, and a successful write persists the new list. |
| Favorites.MembershipAfterUpdate | src/contexts/favorites-context.tsx:36-54 | After adding, the symbol is a favourite; after removing, it is not; other symbols are unaffected. |
| Favorites.AddThenRemoveRoundTrip | src/contexts/favorites-context.tsx:36-50 | Adding a new symbol and removing it restores the list. |
| Favorites.RemovePreservesOrder | src/contexts/favorites-context.tsx:46 | Removal distributes over concatenation, keeping relative order. |
| AuthRouting.Authorized | src/auth.ts:20-36 | A signed-in user at exactly "/" is redirected to "/dashboard". A signed-out user on an application prefix is denied. A signed-in user is never denied. Everything else is allowed. |
| AuthRouting.ProtectionIsPrefixClosed | src/auth.ts:22 | Extending a protected path keeps it protected and denied to signed-out users. |
| AuthRouting.ExampleDecisions | src/auth.ts:20-36 | "/" redirects a signed-in user. "/dashboard" and "/quizzes" are denied to signed-out users. "/analysis" is allowed. |

## Left out

- Browser storage and JSON are not modelled. Reads arrive as a `Stored<T>` value and writes as a success flag. The trade-log load and save effects are left out; the list is the value passed in and returned.
- CSV tokenising (Papa.parse with BOM and empty-line handling) and file reading are left out. Each exchange file arrives already split into rows, or as None when unreadable.
- The module-level cache of `loadStocks` is left out; every call recomputes the merged list.
- Date parsing and `differenceInDays` are not modelled; they are the `dayOf` parameter.
- `Number()` coercion and `parseInt` are not modelled. Coercion is the `toNumber` parameter, which returns None where JavaScript gives NaN.
- Floating-point arithmetic is modelled as exact reals, with no rounding. NaN and infinities appear only in the checklist's risk formula, where they decide the outcome. `toNumber` never yields an infinity, so text such as "Infinity" is not modelled.
- `toFixed`, `toLocaleString` and `Intl.NumberFormat` rendering are left out, and so is the wording of the Korean messages. The comment generator keeps the structure of its sentences (the profit flag and the "k of n" counts), not their text.
- Id generation from the clock and `Math.random` is a parameter of `AddTradeLog`.
- The sorting algorithm is left out; only the comparator and what any order consistent with it must look like are modelled. `localeCompare` is a parameter.
- React effects, rendering, toasts, dialogs and hook wiring are left out; each handler is a function from state to state. The exception is the onboarding modal's open effect, whose re-firing is modelled (see Findings). The endless effect/render loop it also causes has the same values in every round, so only its effect on the step is stated.
- The network and LLM clients, the API routes and their caches, the currency context and the remaining UI components are left out because they hold no stateable logic beyond I/O.
- The modelled source has no value/growth threshold classifier and no pass-rate tier evaluator, so neither is modelled.
- TradeLogStore.Overlay: a `profitRate` key in an update patch is not modelled, because the update recomputes the rate anyway. An explicit `undefined` on a required field is not modelled either.
- TradeAnalytics.AnalyzeSingleTrade: the stored `profitRate` that the object spread also copies into an analysed trade is not part of the analysed record.
- PersonalityQuiz.HandleAnswer: requires an index inside the answer list. JavaScript would grow the array on an out-of-range index, but the quiz only passes the current question index.
- InvestmentPersonality.ParsePersonality: a stored value that is not one of the three tier names is collapsed to None. It has the same effect on the thresholds as the moderate fall-through.
- StockAnalysis.Analyze: market capitalisation and sector come as an optional number and an optional text. A non-numeric market cap is treated as missing, and the description strings of each criterion are not modelled.
- VolumeRank.Chunk: requires a positive whole size. JavaScript would loop forever on size 0, and the carousel always passes 2.

## Findings

| source | as written | input that shows it | evidently intended | confidence | as-written member | corrected member |
|---|---|---|---|---|---|---|
| src/components/survey/onboarding-modal.tsx:41-58 | `initialIndicators = []` is a fresh array on every render and is a dependency of the open effect, so while the modal is open the effect re-runs after every state change and calls `setStep(initialStep)` | the stored `investmentPersonality` entry decodes to a falsy JSON value (`null`, `""`, `0` or `false`; with nothing stored the context falls back to "moderate", src/contexts/investment-personality-context.tsx:65-69); the dashboard then opens the modal without `initialIndicators` (src/app/(app)/dashboard/page.tsx:56-60, 113-116); the user completes the quiz; the re-render re-fires the effect and the step is "quiz" again | the effect runs when the modal opens, so completing the quiz leads to the indicator step | medium, not executed | Onboarding.IndicatorsStepUnreachableAsWritten | Onboarding.IndicatorsStepIsFinal |
