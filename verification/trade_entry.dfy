/** The trade-entry form (`TradeLogSchema` and its submit): field rules,
    the all-or-nothing sell leg, the "YYYY-MM-DD" date shape, comma
    stripping in the price inputs, and the hand-over of a valid form to the
    store. `Number()` coercion of text is a parameter: it yields None where
    JavaScript yields NaN. */
module TradeEntryForm {
  import opened Wrappers
  import opened TradeLogStore
  import opened TradeAnalytics
  import opened Numeric
  import SeqUtil

  /** The form's raw values; the text fields are kept as typed. */
  datatype FormInput = FormInput(
    symbol: string,
    name: string,
    buyPrice: Field,
    buyQuantity: Field,
    buyDate: string,
    sellPrice: Field,
    sellQuantity: Field,
    sellDate: Field)

  /** The sell fields' preprocessing: an empty string becomes `undefined`. */
  function Blank(f: Field): (g: Field)
    ensures g.Undefined? <==> f.Undefined? || f == Text("")
    ensures !g.Undefined? ==> g == f
  {
    if f == Text("") then Undefined else f
  }

  predicate IsDigit(c: char) {
    '0' <= c <= '9'
  }

  /** `/^\d{4}-\d{2}-\d{2}$/`. */
  predicate IsDateText(s: string) {
    && |s| == 10
    && IsDigit(s[0]) && IsDigit(s[1]) && IsDigit(s[2]) && IsDigit(s[3])
    && s[4] == '-'
    && IsDigit(s[5]) && IsDigit(s[6])
    && s[7] == '-'
    && IsDigit(s[8]) && IsDigit(s[9])
  }

  /** A price: a number of at least 0. */
  function ParsePrice(f: Field, toNumber: string -> Option<real>): (r: Option<real>)
    ensures r.Some? <==> Coerce(f, toNumber).Some? && Coerce(f, toNumber).value >= 0.0
    ensures r.Some? ==> r.value >= 0.0 && Some(r.value) == Coerce(f, toNumber)
  {
    var n := Coerce(f, toNumber);
    if n.Some? && n.value >= 0.0 then n else None
  }

  /** A quantity: an integer of at least 1. */
  function ParseQuantity(f: Field, toNumber: string -> Option<real>): (r: Option<int>)
    ensures r.Some? <==>
      Coerce(f, toNumber).Some? && IsInteger(Coerce(f, toNumber).value) && Coerce(f, toNumber).value >= 1.0
    ensures r.Some? ==> r.value >= 1
    ensures r.Some? ==> Coerce(f, toNumber) == Some(r.value as real)
  {
    var n := Coerce(f, toNumber);
    if n.Some? && IsInteger(n.value) && n.value >= 1.0 then Some(n.value.Floor) else None
  }

  /** An optional sell field after preprocessing: `Ok(None)` when left
      blank, `Ok(Some(v))` when filled in validly, `Err` otherwise. */
  datatype Parsed<T> = Ok(value: Option<T>) | Err

  function ParseSellPrice(f: Field, toNumber: string -> Option<real>): Parsed<real> {
    if Blank(f).Undefined? then Ok(None)
    else var p := ParsePrice(f, toNumber); if p.Some? then Ok(p) else Err
  }

  function ParseSellQuantity(f: Field, toNumber: string -> Option<real>): Parsed<int> {
    if Blank(f).Undefined? then Ok(None)
    else var q := ParseQuantity(f, toNumber); if q.Some? then Ok(q) else Err
  }

  function ParseSellDate(f: Field): Parsed<string> {
    if Blank(f).Undefined? then Ok(None)
    else if f.Text? && IsDateText(f.text) then Ok(Some(f.text))
    else Err
  }

  /** How many of the three sell fields are filled in. */
  function FilledCount(p: Option<real>, q: Option<int>, d: Option<string>): nat {
    (if p.Some? then 1 else 0) + (if q.Some? then 1 else 0) + (if d.Some? then 1 else 0)
  }

  /** The schema: every field rule, then the refinement that the sell leg is
      filled in completely or not at all. A valid form yields the record
      handed to `addTradeLog`. */
  function Validate(input: FormInput, toNumber: string -> Option<real>): (r: Option<NewTrade>)
    ensures r.Some? ==>
      && |r.value.symbol| >= 1 && |r.value.name| >= 1
      && r.value.symbol == input.symbol && r.value.name == input.name
      && r.value.buyPrice >= 0.0 && r.value.buyQuantity >= 1
      && r.value.buyDate == input.buyDate && IsDateText(r.value.buyDate)
    ensures r.Some? ==>
      || (r.value.sellPrice.None? && r.value.sellQuantity.None? && r.value.sellDate.None?)
      || (r.value.sellPrice.Some? && r.value.sellQuantity.Some? && r.value.sellDate.Some?)
    ensures r.Some? ==>
      && Some(r.value.buyPrice) == Coerce(input.buyPrice, toNumber)
      && Some(r.value.buyQuantity as real) == Coerce(input.buyQuantity, toNumber)
    ensures r.Some? && r.value.sellPrice.Some? ==>
      r.value.sellPrice.value >= 0.0 && r.value.sellQuantity.value >= 1 && IsDateText(r.value.sellDate.value)
    ensures r.Some? && r.value.sellPrice.Some? ==>
      && Some(r.value.sellPrice.value) == Coerce(input.sellPrice, toNumber)
      && Some(r.value.sellQuantity.value as real) == Coerce(input.sellQuantity, toNumber)
      && input.sellDate.Text? && r.value.sellDate.value == input.sellDate.text
    ensures r.Some? ==> (r.value.sellPrice.None? <==> Blank(input.sellPrice).Undefined?)
    ensures r.Some? ==> (r.value.sellDate.None? <==> Blank(input.sellDate).Undefined?)
    ensures r.Some? ==> (r.value.sellQuantity.None? <==> Blank(input.sellQuantity).Undefined?)
    ensures |input.symbol| == 0 || |input.name| == 0 || !IsDateText(input.buyDate) ==> r.None?
    ensures Blank(input.sellPrice).Undefined? != Blank(input.sellDate).Undefined? ==> r.None?
    ensures Blank(input.sellQuantity).Undefined? != Blank(input.sellPrice).Undefined? ==> r.None?
  {
    var buyPrice := ParsePrice(input.buyPrice, toNumber);
    var buyQuantity := ParseQuantity(input.buyQuantity, toNumber);
    var sellPrice := ParseSellPrice(input.sellPrice, toNumber);
    var sellQuantity := ParseSellQuantity(input.sellQuantity, toNumber);
    var sellDate := ParseSellDate(input.sellDate);
    if |input.symbol| >= 1 && |input.name| >= 1 && buyPrice.Some? && buyQuantity.Some?
       && IsDateText(input.buyDate) && sellPrice.Ok? && sellQuantity.Ok? && sellDate.Ok?
       && FilledCount(sellPrice.value, sellQuantity.value, sellDate.value) in {0, 3}
    then
      Some(NewTrade(input.symbol, input.name, buyPrice.value, buyQuantity.value, input.buyDate,
                    sellPrice.value, sellQuantity.value, sellDate.value))
    else None
  }

  /** The converse direction: a form that meets every field rule, with the
      sell leg left wholly blank or filled in wholly and validly, is
      accepted. */
  lemma WellFormedFormAccepted(input: FormInput, toNumber: string -> Option<real>)
    requires |input.symbol| >= 1 && |input.name| >= 1 && IsDateText(input.buyDate)
    requires ParsePrice(input.buyPrice, toNumber).Some? && ParseQuantity(input.buyQuantity, toNumber).Some?
    requires
      || (Blank(input.sellPrice).Undefined? && Blank(input.sellQuantity).Undefined? && Blank(input.sellDate).Undefined?)
      || (&& !Blank(input.sellPrice).Undefined? && ParsePrice(input.sellPrice, toNumber).Some?
          && !Blank(input.sellQuantity).Undefined? && ParseQuantity(input.sellQuantity, toNumber).Some?
          && input.sellDate.Text? && IsDateText(input.sellDate.text))
    ensures Validate(input, toNumber).Some?
    ensures Validate(input, toNumber).value.sellPrice.Some? <==> !Blank(input.sellPrice).Undefined?
  {
  }

  /** `onSubmit`: a valid form is appended to the journal unchanged; an
      invalid one never reaches the store. */
  function SubmitForm(logs: seq<TradeLog>, input: FormInput, toNumber: string -> Option<real>, newId: string): (r: seq<TradeLog>)
    ensures Validate(input, toNumber).None? ==> r == logs
    ensures Validate(input, toNumber).Some? ==> r == AddTradeLog(logs, Validate(input, toNumber).value, newId)
  {
    var v := Validate(input, toNumber);
    if v.Some? then AddTradeLog(logs, v.value, newId) else logs
  }

  /** A record entered through the form has a stored profit rate exactly
      when its sell leg is filled in and its buy price is positive. */
  lemma EnteredRecordProfitRate(logs: seq<TradeLog>, input: FormInput, toNumber: string -> Option<real>, newId: string)
    requires Validate(input, toNumber).Some?
    ensures var rec := SubmitForm(logs, input, toNumber, newId)[|logs|];
      rec.profitRate.Some? <==> rec.sellPrice.Some? && rec.buyPrice > 0.0
  {
  }

  /** A record entered through the form is closed for the analytics exactly
      when its sell leg is filled in with a non-zero price. */
  lemma EnteredRecordClosedness(logs: seq<TradeLog>, input: FormInput, toNumber: string -> Option<real>, newId: string)
    requires Validate(input, toNumber).Some?
    ensures var rec := SubmitForm(logs, input, toNumber, newId)[|logs|];
      IsClosed(rec) <==> rec.sellPrice.Some? && rec.sellPrice.value != 0.0
  {
    var rec := SubmitForm(logs, input, toNumber, newId)[|logs|];
    if rec.sellDate.Some? {
      assert |rec.sellDate.value| == 10;
    }
  }

  /** `value.replace(/,/g, '')`: every comma removed, the other
      characters kept in order. */
  function StripCommas(s: string): (r: string)
    ensures ',' !in r
    ensures forall c | c != ',' :: c in r <==> c in s
    ensures |r| <= |s|
  {
    SeqUtil.RemoveAll(s, ',')
  }

  /** Stripping works piece by piece, and a single character is dropped
      exactly when it is a comma: together these fix the order of what
      remains. */
  lemma StripCommasAppend(a: string, b: string)
    ensures StripCommas(a + b) == StripCommas(a) + StripCommas(b)
  {
    SeqUtil.RemoveAllAppend(a, b, ',');
  }

  lemma StripCommasSingle(c: char)
    ensures StripCommas([c]) == if c == ',' then "" else [c]
  {
    assert [c][1..] == [];
  }

  /** Text without commas passes through unchanged, so stripping twice is
      the same as stripping once. */
  lemma StripCommasNoComma(s: string)
    requires ',' !in s
    ensures StripCommas(s) == s
  {
    SeqUtil.RemoveAllAbsent(s, ',');
  }

  lemma StripCommasIdempotent(s: string)
    ensures StripCommas(StripCommas(s)) == StripCommas(s)
  {
    StripCommasNoComma(StripCommas(s));
  }

  /** The price inputs' change handler: commas removed, and nothing left
      means `undefined`. */
  function PriceInput(typed: string): (f: Field)
    ensures f.Undefined? <==> StripCommas(typed) == ""
    ensures f.Text? ==> f.text == StripCommas(typed) && ',' !in f.text
    ensures !f.Num?
  {
    var parsed := StripCommas(typed);
    if parsed == "" then Undefined else Text(parsed)
  }
}
