/** The pre-trade risk checklist: the form's numeric schema and the risk
    rule `onCalc` applies on every change. `onCalc` reads the form's raw
    current values, which the schema has not necessarily accepted: the
    defaults are numbers, and an edited number input holds the typed text.
    So the zero guard is JavaScript truthiness on those raw values (a typed
    "0" is truthy), and the arithmetic goes through `Number()`, where NaN
    and division by zero are written out. */
module Checklist {
  import opened Wrappers
  import opened Numeric

  datatype ChecklistValues = ChecklistValues(
    entry: Field, stop: Field, target: Field, qty: Field, acct: Field, maxRiskPct: Field)

  /** The form's `defaultValues`. */
  const Defaults: ChecklistValues :=
    ChecklistValues(Num(0.0), Num(0.0), Num(0.0), Num(0.0), Num(0.0), Num(1.0))

  /** `ChecklistSchema` on the coerced values: prices and account size
      strictly positive, quantity a strictly positive integer, maximum risk
      between 0.1 and 5 percent. */
  predicate SchemaValid(v: ChecklistValues, toNumber: string -> Option<real>) {
    && Coerce(v.entry, toNumber).Some? && Coerce(v.entry, toNumber).value > 0.0
    && Coerce(v.stop, toNumber).Some? && Coerce(v.stop, toNumber).value > 0.0
    && Coerce(v.target, toNumber).Some? && Coerce(v.target, toNumber).value > 0.0
    && Coerce(v.qty, toNumber).Some? && Coerce(v.qty, toNumber).value > 0.0 && IsInteger(Coerce(v.qty, toNumber).value)
    && Coerce(v.acct, toNumber).Some? && Coerce(v.acct, toNumber).value > 0.0
    && Coerce(v.maxRiskPct, toNumber).Some?
    && 0.1 <= Coerce(v.maxRiskPct, toNumber).value <= 5.0
  }

  /** The guard `!acct || !entry || !stop || !qty` on the raw values. */
  predicate AnyFalsy(v: ChecklistValues) {
    !Truthy(v.acct) || !Truthy(v.entry) || !Truthy(v.stop) || !Truthy(v.qty)
  }

  /** A JavaScript number result of the risk formula. */
  datatype RiskValue = Finite(pct: real) | PlusInfinity | MinusInfinity | NotANumber

  /** `Math.abs(entry - stop) * qty / acct * 100` on coerced operands: NaN
      if any operand is NaN; a division by zero gives an infinity of the
      exposure's sign, or NaN for 0 / 0. */
  function RiskOf(entry: Option<real>, stop: Option<real>, qty: Option<real>, acct: Option<real>): (r: RiskValue)
    ensures entry.None? || stop.None? || qty.None? || acct.None? ==> r == NotANumber
    ensures entry.Some? && stop.Some? && qty.Some? && acct.Some? && acct.value != 0.0 ==>
      r.Finite? && r.pct * acct.value == Abs(entry.value - stop.value) * qty.value * 100.0
    ensures entry.Some? && stop.Some? && qty.Some? && acct == Some(0.0) ==>
      var exposure := Abs(entry.value - stop.value) * qty.value;
      && (r == PlusInfinity <==> exposure > 0.0)
      && (r == MinusInfinity <==> exposure < 0.0)
      && (r == NotANumber <==> exposure == 0.0)
  {
    if entry.None? || stop.None? || qty.None? || acct.None? then NotANumber
    else
      var exposure := Abs(entry.value - stop.value) * qty.value;
      if acct.value != 0.0 then Finite(exposure / acct.value * 100.0)
      else if exposure > 0.0 then PlusInfinity
      else if exposure < 0.0 then MinusInfinity
      else NotANumber
  }

  function Risk(v: ChecklistValues, toNumber: string -> Option<real>): RiskValue {
    RiskOf(Coerce(v.entry, toNumber), Coerce(v.stop, toNumber), Coerce(v.qty, toNumber), Coerce(v.acct, toNumber))
  }

  /** `risk <= maxRiskPct`: any comparison with NaN is false, and minus
      infinity is below every number. */
  predicate AtMost(r: RiskValue, limit: Option<real>) {
    limit.Some? &&
    match r
    case Finite(p) => p <= limit.value
    case MinusInfinity => true
    case _ => false
  }

  /** `onCalc`: fails when any guarded value is falsy; otherwise passes when
      the risk is within the maximum and the target is truthy. */
  function Passes(v: ChecklistValues, toNumber: string -> Option<real>): (ok: bool)
    ensures AnyFalsy(v) ==> !ok
    ensures !AnyFalsy(v) ==>
      (ok <==> AtMost(Risk(v, toNumber), Coerce(v.maxRiskPct, toNumber)) && Truthy(v.target))
  {
    if AnyFalsy(v) then false
    else AtMost(Risk(v, toNumber), Coerce(v.maxRiskPct, toNumber)) && Truthy(v.target)
  }

  /** The untouched form does not pass. */
  lemma DefaultsFail(toNumber: string -> Option<real>)
    ensures AnyFalsy(Defaults)
    ensures !Passes(Defaults, toNumber)
  {
  }

  /** Any values the schema accepts clear the guard and give a finite risk,
      so for such values only the risk bound decides. */
  lemma SchemaClearsGuard(v: ChecklistValues, toNumber: string -> Option<real>)
    requires EmptyIsZero(toNumber)
    requires SchemaValid(v, toNumber)
    ensures !AnyFalsy(v)
    ensures Risk(v, toNumber).Finite?
    ensures Passes(v, toNumber) <==> Risk(v, toNumber).pct <= Coerce(v.maxRiskPct, toNumber).value
  {
    NonZeroIsTruthy(v.acct, toNumber);
    NonZeroIsTruthy(v.entry, toNumber);
    NonZeroIsTruthy(v.stop, toNumber);
    NonZeroIsTruthy(v.qty, toNumber);
    NonZeroIsTruthy(v.target, toNumber);
  }

  /** A target typed as "0" is truthy, so the check passes although the
      schema rejects a zero target. */
  lemma TypedZeroTargetPasses(toNumber: string -> Option<real>)
    requires toNumber("100") == Some(100.0) && toNumber("99") == Some(99.0) && toNumber("0") == Some(0.0)
    requires toNumber("1") == Some(1.0) && toNumber("10000") == Some(10000.0)
    ensures var v := ChecklistValues(Text("100"), Text("99"), Text("0"), Text("1"), Text("10000"), Num(1.0));
      Passes(v, toNumber) && !SchemaValid(v, toNumber)
  {
    var v := ChecklistValues(Text("100"), Text("99"), Text("0"), Text("1"), Text("10000"), Num(1.0));
    assert Risk(v, toNumber).pct * 10000.0 == 100.0;
  }

  /** An account typed as "0" passes the guard; with a non-negative
      quantity the risk is then infinite or NaN, so the check fails. */
  lemma ZeroAccountFails(v: ChecklistValues, toNumber: string -> Option<real>)
    requires Coerce(v.acct, toNumber) == Some(0.0)
    requires Coerce(v.qty, toNumber).Some? && Coerce(v.qty, toNumber).value >= 0.0
    ensures !Passes(v, toNumber)
  {
    var e := Coerce(v.entry, toNumber);
    var s := Coerce(v.stop, toNumber);
    if e.Some? && s.Some? {
      assert Abs(e.value - s.value) * Coerce(v.qty, toNumber).value >= 0.0;
    }
  }

  /** Swapping entry and stop changes neither the risk nor the verdict. */
  lemma RiskSymmetric(v: ChecklistValues, toNumber: string -> Option<real>)
    ensures Risk(v, toNumber) == Risk(v.(entry := v.stop, stop := v.entry), toNumber)
    ensures Passes(v, toNumber) == Passes(v.(entry := v.stop, stop := v.entry), toNumber)
  {
    var e := Coerce(v.entry, toNumber);
    var s := Coerce(v.stop, toNumber);
    if e.Some? && s.Some? {
      assert Abs(e.value - s.value) == Abs(s.value - e.value);
    }
  }

  /** Allowing more risk never turns a pass into a fail. */
  lemma PassMonotoneInMaxRisk(v: ChecklistValues, toNumber: string -> Option<real>, maxRiskPct: Field)
    requires Passes(v, toNumber)
    requires Coerce(maxRiskPct, toNumber).Some? && Coerce(v.maxRiskPct, toNumber).Some?
    requires Coerce(maxRiskPct, toNumber).value >= Coerce(v.maxRiskPct, toNumber).value
    ensures Passes(v.(maxRiskPct := maxRiskPct), toNumber)
  {
  }

  /** With a positive account and a non-negative quantity, a larger
      account never turns a pass into a fail. */
  lemma PassMonotoneInAccount(v: ChecklistValues, toNumber: string -> Option<real>, acct: Field)
    requires Truthy(acct)
    requires Coerce(v.acct, toNumber).Some? && Coerce(acct, toNumber).Some?
    requires Coerce(v.acct, toNumber).value > 0.0 && Coerce(acct, toNumber).value >= Coerce(v.acct, toNumber).value
    requires Coerce(v.qty, toNumber).Some? && Coerce(v.qty, toNumber).value >= 0.0
    requires Passes(v, toNumber)
    ensures Passes(v.(acct := acct), toNumber)
  {
    var w := v.(acct := acct);
    var a0 := Coerce(v.acct, toNumber).value;
    var a1 := Coerce(acct, toNumber).value;
    var e := Coerce(v.entry, toNumber);
    var s := Coerce(v.stop, toNumber);
    if e.Some? && s.Some? {
      var exposure := Abs(e.value - s.value) * Coerce(v.qty, toNumber).value;
      assert exposure >= 0.0;
      assert exposure / a1 <= exposure / a0 by {
        assert exposure / a1 * a1 == exposure;
        assert exposure / a0 * a0 == exposure;
      }
      assert Risk(w, toNumber).pct == exposure / a1 * 100.0;
      assert Risk(v, toNumber).pct == exposure / a0 * 100.0;
    }
  }

  /** With the stop at the entry price nothing is at risk, so the check
      passes whenever the guard is clear, the target truthy and the maximum
      not negative. */
  lemma FlatStopPasses(v: ChecklistValues, toNumber: string -> Option<real>)
    requires !AnyFalsy(v) && Truthy(v.target)
    requires Coerce(v.entry, toNumber).Some? && Coerce(v.entry, toNumber) == Coerce(v.stop, toNumber)
    requires Coerce(v.qty, toNumber).Some?
    requires Coerce(v.acct, toNumber).Some? && Coerce(v.acct, toNumber).value != 0.0
    requires Coerce(v.maxRiskPct, toNumber).Some? && Coerce(v.maxRiskPct, toNumber).value >= 0.0
    ensures Risk(v, toNumber) == Finite(0.0)
    ensures Passes(v, toNumber)
  {
  }
}
