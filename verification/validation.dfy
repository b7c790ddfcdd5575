/**
 * `ValidationService`: pure checks from a domain record to the ordered list
 * of error messages it provokes. An empty list means the record passed.
 *
 * `LocalDate.now()` is the parameter `today`. Two validators can throw a
 * `NullPointerException` on inputs they were evidently meant to report on;
 * each is modelled twice, as written (`...AsWritten`, returning an `Outcome`)
 * and as a total function the rest of the model uses.
 */
module Validation {
  import opened Common
  import opened Domain
  import opened Issues

  /**
   * One `if (failed) errors.add(...)` of a validator: the issue when the
   * check fails, nothing otherwise. A validator is the concatenation of its
   * checks in source order; an `if / else if` pair becomes two checks whose
   * conditions exclude each other.
   */
  function Check(failed: bool, issue: Issue): seq<Issue>
  {
    if failed then [issue] else []
  }

  // ---------------------------------------------------------------- positions

  /**
   * What a Java validator does on an input: return its error list, or throw
   * a `NullPointerException` before returning.
   */
  datatype Outcome = Returned(issues: seq<Issue>) | ThrowsNullPointer

  /** A position every check accepts, stated field by field. */
  predicate WellFormedPosition(p: Position) {
    && !IsBlank(p.positionId)
    && !IsBlank(p.tradeId)
    && !IsBlank(p.underlierId)
    && p.notionalAmount.Some? && p.notionalAmount.value > 0.0
    && !IsBlank(p.notionalCurrency) && |p.notionalCurrency.value| == 3
    && p.effectiveDate.Some?
    && (p.terminationDate.None? || p.effectiveDate.value <= p.terminationDate.value)
    && p.lots.Some? && |p.lots.value| > 0
  }

  /** The three identifier checks of `validatePosition`. */
  function PositionIdChecks(x: Position): (r: seq<Issue>)
    ensures r == [] <==> !IsBlank(x.positionId) && !IsBlank(x.tradeId) && !IsBlank(x.underlierId)
    ensures PositionIdRequired in r <==> IsBlank(x.positionId)
    ensures TradeIdRequired in r <==> IsBlank(x.tradeId)
    ensures UnderlierIdRequired in r <==> IsBlank(x.underlierId)
    ensures |r| <= 3
  {
      Check(IsBlank(x.positionId), PositionIdRequired)
    + Check(IsBlank(x.tradeId), TradeIdRequired)
    + Check(IsBlank(x.underlierId), UnderlierIdRequired)
  }

  /**
   * The notional checks: a missing or non-positive amount, a missing currency
   * or one whose length is not 3. Each `else if` pair reports at most one issue.
   */
  function NotionalChecks(x: Position): (r: seq<Issue>)
    ensures r == [] <==> x.notionalAmount.Some? && x.notionalAmount.value > 0.0
                         && !IsBlank(x.notionalCurrency) && |x.notionalCurrency.value| == 3
    ensures NotionalRequired in r <==> x.notionalAmount.None?
    ensures NotionalNotPositive in r <==> x.notionalAmount.Some? && x.notionalAmount.value <= 0.0
    ensures NotionalCurrencyRequired in r <==> IsBlank(x.notionalCurrency)
    ensures NotionalCurrencyLength in r <==> !IsBlank(x.notionalCurrency) && |x.notionalCurrency.value| != 3
    ensures |r| <= 2
  {
      Check(x.notionalAmount.None?, NotionalRequired)
    + Check(x.notionalAmount.Some? && x.notionalAmount.value <= 0.0, NotionalNotPositive)
    + Check(IsBlank(x.notionalCurrency), NotionalCurrencyRequired)
    + Check(!IsBlank(x.notionalCurrency) && |x.notionalCurrency.value| != 3, NotionalCurrencyLength)
  }

  /**
   * The date and lot checks. The termination date is compared only with an
   * effective date that is present, so a missing effective date is reported
   * once, as missing.
   */
  function ScheduleChecks(x: Position): (r: seq<Issue>)
    ensures r == [] <==> x.effectiveDate.Some?
                         && (x.terminationDate.None? || x.effectiveDate.value <= x.terminationDate.value)
                         && x.lots.Some? && |x.lots.value| > 0
    ensures EffectiveDateRequired in r <==> x.effectiveDate.None?
    ensures TerminationBeforeEffective in r <==>
              x.terminationDate.Some? && x.effectiveDate.Some? && x.terminationDate.value < x.effectiveDate.value
    ensures PositionNeedsLot in r <==> x.lots.None? || x.lots.value == []
    ensures |r| <= 2
  {
      Check(x.effectiveDate.None?, EffectiveDateRequired)
    + Check(x.terminationDate.Some? && x.effectiveDate.Some? && x.terminationDate.value < x.effectiveDate.value,
            TerminationBeforeEffective)
    + Check(x.lots.None? || x.lots.value == [], PositionNeedsLot)
  }

  /** `validatePosition`, total: a null position gives only its own error. */
  function ValidatePosition(p: Option<Position>): (r: seq<Issue>)
    ensures p.None? ==> r == [PositionNull]
    ensures p.Some? ==> (r == [] <==> WellFormedPosition(p.value))
    ensures p.Some? ==> |r| <= 7
  {
    if p.None? then [PositionNull]
    else PositionIdChecks(p.value) + NotionalChecks(p.value) + ScheduleChecks(p.value)
  }

  /** A termination date with no effective date to compare it with. */
  predicate DanglingTermination(p: Position) {
    p.terminationDate.Some? && p.effectiveDate.None?
  }

  /**
   * `validatePosition` as the Java code is written: the termination test
   * calls `isBefore` on a null effective date and throws. On every other
   * input it returns what `ValidatePosition` returns.
   */
  function ValidatePositionAsWritten(p: Option<Position>): (r: Outcome)
    ensures r.ThrowsNullPointer? <==> p.Some? && DanglingTermination(p.value)
    ensures r.Returned? ==> r.issues == ValidatePosition(p)
  {
    if p.None? then Returned([PositionNull])
    else
      var x := p.value;
      if x.terminationDate.Some? && x.effectiveDate.None? then ThrowsNullPointer
      else Returned(
          PositionIdChecks(x) + NotionalChecks(x)
        + (Check(x.effectiveDate.None?, EffectiveDateRequired)
           + Check(x.terminationDate.Some? && x.terminationDate.value < x.effectiveDate.value,
                   TerminationBeforeEffective)
           + Check(x.lots.None? || x.lots.value == [], PositionNeedsLot)))
  }

  /**
   * A position with a termination date but no effective date makes the
   * written validator throw; the total one reports the missing effective
   * date and nothing about the order of the dates.
   */
  lemma DanglingTerminationThrows(p: Position)
    requires DanglingTermination(p)
    ensures ValidatePositionAsWritten(Some(p)) == ThrowsNullPointer
    ensures EffectiveDateRequired in ValidatePosition(Some(p))
    ensures TerminationBeforeEffective !in ValidatePosition(Some(p))
  {
  }

  /** A null, empty or whitespace-only position id is reported; any other id is not. */
  lemma PositionIdRule(x: Position)
    ensures PositionIdRequired in ValidatePosition(Some(x)) <==> IsBlank(x.positionId)
  {
  }

  /** A present notional is reported exactly when it is zero or negative. */
  lemma NotionalPositiveRule(x: Position)
    ensures NotionalNotPositive in ValidatePosition(Some(x)) <==>
              x.notionalAmount.Some? && x.notionalAmount.value <= 0.0
  {
  }

  /** A non-blank notional currency is reported exactly when its length is not 3. */
  lemma NotionalCurrencyRule(x: Position)
    ensures NotionalCurrencyLength in ValidatePosition(Some(x)) <==>
              !IsBlank(x.notionalCurrency) && |x.notionalCurrency.value| != 3
  {
  }

  /** Termination strictly before the effective date is reported; the same day is not. */
  lemma TerminationOrderRule(x: Position)
    ensures TerminationBeforeEffective in ValidatePosition(Some(x)) <==>
              x.terminationDate.Some? && x.effectiveDate.Some? && x.terminationDate.value < x.effectiveDate.value
  {
  }

  /** A null or empty lot list is reported. */
  lemma LotRule(x: Position)
    ensures PositionNeedsLot in ValidatePosition(Some(x)) <==> x.lots.None? || x.lots.value == []
  {
  }

  // ------------------------------------------------------------------- trades

  /** Every position of the list is present and well formed. */
  predicate AllWellFormed(ps: seq<Option<Position>>) {
    forall i :: 0 <= i < |ps| ==> ps[i].Some? && WellFormedPosition(ps[i].value)
  }

  /**
   * The position loop of `validateTrade`: each position's errors, in list
   * order. A null position is reported as such, and each position adds at
   * most seven errors.
   */
  function PositionErrors(ps: seq<Option<Position>>): (r: seq<Issue>)
    ensures None in ps ==> PositionNull in r
    ensures |r| <= 7 * |ps|
  {
    if ps == [] then []
    else
      var h, t := ValidatePosition(ps[0]), PositionErrors(ps[1..]);
      assert None in ps ==> ps[0] == None || None in ps[1..];
      h + t
  }

  /** The position loop reports nothing exactly when every position is present and well formed. */
  lemma {:induction false} PositionErrorsEmpty(ps: seq<Option<Position>>)
    ensures PositionErrors(ps) == [] <==> AllWellFormed(ps)
  {
    if ps != [] {
      PositionErrorsEmpty(ps[1..]);
      AllWellFormedCons(ps);
    }
  }

  /** A non-empty list is well formed when its first position and the rest are. */
  lemma AllWellFormedCons(ps: seq<Option<Position>>)
    requires ps != []
    ensures AllWellFormed(ps) <==> ps[0].Some? && WellFormedPosition(ps[0].value) && AllWellFormed(ps[1..])
  {
    assert forall k :: 0 <= k < |ps| - 1 ==> ps[1..][k] == ps[k + 1];
  }

  /** Validating a split list is validating each part: errors come out in position order. */
  lemma {:induction false} PositionErrorsAppend(a: seq<Option<Position>>, b: seq<Option<Position>>)
    ensures PositionErrors(a + b) == PositionErrors(a) + PositionErrors(b)
  {
    if a == [] {
      assert a + b == b;
    } else {
      assert (a + b)[1..] == a[1..] + b;
      assert (a + b)[0] == a[0];
      PositionErrorsAppend(a[1..], b);
    }
  }

  /**
   * Position `i`'s errors occupy one contiguous block of the list, after the
   * errors of the positions before it and before those of the positions after it.
   */
  lemma PositionErrorsBlock(ps: seq<Option<Position>>, i: int)
    requires 0 <= i < |ps|
    ensures PositionErrors(ps)
         == PositionErrors(ps[..i]) + (ValidatePosition(ps[i]) + PositionErrors(ps[i + 1..]))
  {
    CutAt(ps, i);
    PositionErrorsAppend(ps[..i], ps[i..]);
  }

  /** Cutting a sequence at `i` and gluing it back gives it back; the second part starts with `s[i]`. */
  lemma CutAt<T>(s: seq<T>, i: int)
    requires 0 <= i < |s|
    ensures s[..i] + s[i..] == s
    ensures s[i..][0] == s[i] && s[i..][1..] == s[i + 1..]
  {
  }

  /** The trade-level errors of `validateTrade`, before its positions are visited. */
  function TradeHeaderErrors(t: Trade, today: Date): (r: seq<Issue>)
    ensures TradeIdRequired in r <==> IsBlank(t.tradeId)
    ensures ProductIdRequired in r <==> IsBlank(t.productId)
    ensures TradeDateRequired in r <==> t.tradeDate.None?
    ensures TradeDateInFuture in r <==> t.tradeDate.Some? && t.tradeDate.value > today
    ensures r == [] <==> !IsBlank(t.tradeId) && !IsBlank(t.productId) &&
                         t.tradeDate.Some? && t.tradeDate.value <= today
  {
      Check(IsBlank(t.tradeId), TradeIdRequired)
    + Check(IsBlank(t.productId), ProductIdRequired)
    + Check(t.tradeDate.None?, TradeDateRequired)
    + Check(t.tradeDate.Some? && t.tradeDate.value > today, TradeDateInFuture)
  }

  /** A trade `validateTrade` accepts on day `today`. */
  predicate WellFormedTrade(t: Trade, today: Date) {
    && !IsBlank(t.tradeId)
    && !IsBlank(t.productId)
    && t.tradeDate.Some? && t.tradeDate.value <= today
    && t.positions.Some? && |t.positions.value| > 0
    && AllWellFormed(t.positions.value)
  }

  /**
   * `validateTrade`: a null trade gives only its own error; otherwise the
   * trade-level errors, then either the single missing-positions error or
   * every position's errors in order.
   */
  function ValidateTrade(t: Option<Trade>, today: Date): (r: seq<Issue>)
    ensures t.None? ==> r == [TradeNull]
    ensures t.Some? && (t.value.positions.None? || t.value.positions.value == []) ==>
              r == TradeHeaderErrors(t.value, today) + [TradeNeedsPosition]
    ensures t.Some? && t.value.positions.Some? && t.value.positions.value != [] ==>
              r == TradeHeaderErrors(t.value, today) + PositionErrors(t.value.positions.value)
    ensures t.Some? ==> (r == [] <==> WellFormedTrade(t.value, today))
  {
    if t.None? then [TradeNull]
    else
      var x := t.value;
      TradeHeaderErrors(x, today)
      + (if x.positions.None? || x.positions.value == [] then [TradeNeedsPosition]
         else
           PositionErrorsEmpty(x.positions.value);
           PositionErrors(x.positions.value))
  }

  /** A trade dated today passes the date check; one dated tomorrow fails it. */
  lemma TradeDateBoundary(t: Trade, today: Date)
    ensures TradeDateInFuture !in TradeHeaderErrors(t.(tradeDate := Some(today)), today)
    ensures TradeDateInFuture in TradeHeaderErrors(t.(tradeDate := Some(today + 1)), today)
  {
  }

  // ---------------------------------------------------------------- cashflows

  /** A cashflow every check of `validateCashflow` accepts. */
  predicate WellFormedCashflow(c: Cashflow) {
    && !IsBlank(c.cashflowId)
    && !IsBlank(c.tradeId)
    && !IsBlank(c.positionId)
    && c.cashflowType.Some?
    && !IsBlank(c.payerPartyId)
    && !IsBlank(c.receiverPartyId)
    && c.payerPartyId != c.receiverPartyId
    && !IsBlank(c.currency) && |c.currency.value| == 3
    && c.amount.Some? && c.amount.value != 0.0
    && c.settlementDate.Some?
    && c.paymentType.Some?
    && c.cashflowStatus.Some?
    && !IsBlank(c.originEventId)
    && c.revisionNumber.Some? && c.revisionNumber.value > 0
  }

  /** The identifier and type checks of `validateCashflow`. */
  function CashflowIdChecks(x: Cashflow): (r: seq<Issue>)
    ensures r == [] <==> !IsBlank(x.cashflowId) && !IsBlank(x.tradeId) && !IsBlank(x.positionId)
                         && x.cashflowType.Some?
    ensures CashflowIdRequired in r <==> IsBlank(x.cashflowId)
    ensures TradeIdRequired in r <==> IsBlank(x.tradeId)
    ensures PositionIdRequired in r <==> IsBlank(x.positionId)
    ensures CashflowTypeRequired in r <==> x.cashflowType.None?
    ensures forall i :: i in r ==> i.CashflowIdRequired? || i.TradeIdRequired? || i.PositionIdRequired?
                                   || i.CashflowTypeRequired?
    ensures |r| <= 4
  {
      Check(IsBlank(x.cashflowId), CashflowIdRequired)
    + Check(IsBlank(x.tradeId), TradeIdRequired)
    + Check(IsBlank(x.positionId), PositionIdRequired)
    + Check(x.cashflowType.None?, CashflowTypeRequired)
  }

  /**
   * The party checks of `validateCashflow`. Parties that are equal and
   * non-null are reported even when both are blank.
   */
  function CashflowPartyChecks(x: Cashflow): (r: seq<Issue>)
    ensures r == [] <==> !IsBlank(x.payerPartyId) && !IsBlank(x.receiverPartyId)
                         && x.payerPartyId != x.receiverPartyId
    ensures PayerRequired in r <==> IsBlank(x.payerPartyId)
    ensures ReceiverRequired in r <==> IsBlank(x.receiverPartyId)
    ensures SameParty in r <==> x.payerPartyId.Some? && x.payerPartyId == x.receiverPartyId
    ensures forall i :: i in r ==> i.PayerRequired? || i.ReceiverRequired? || i.SameParty?
    ensures |r| <= 3
  {
      Check(IsBlank(x.payerPartyId), PayerRequired)
    + Check(IsBlank(x.receiverPartyId), ReceiverRequired)
    + Check(x.payerPartyId.Some? && x.receiverPartyId.Some? && x.payerPartyId == x.receiverPartyId,
            SameParty)
  }

  /**
   * The currency and amount checks. A zero amount is refused, a negative one
   * is not; each `else if` pair reports at most one issue.
   */
  function CashflowMoneyChecks(x: Cashflow): (r: seq<Issue>)
    ensures r == [] <==> !IsBlank(x.currency) && |x.currency.value| == 3
                         && x.amount.Some? && x.amount.value != 0.0
    ensures CurrencyRequired in r <==> IsBlank(x.currency)
    ensures CurrencyLength in r <==> !IsBlank(x.currency) && |x.currency.value| != 3
    ensures AmountRequired in r <==> x.amount.None?
    ensures AmountZero in r <==> x.amount == Some(0.0)
    ensures forall i :: i in r ==> i.CurrencyRequired? || i.CurrencyLength? || i.AmountRequired? || i.AmountZero?
    ensures |r| <= 2
  {
      Check(IsBlank(x.currency), CurrencyRequired)
    + Check(!IsBlank(x.currency) && |x.currency.value| != 3, CurrencyLength)
    + Check(x.amount.None?, AmountRequired)
    + Check(x.amount.Some? && x.amount.value == 0.0, AmountZero)
  }

  /** The settlement date, payment type and status checks. */
  function CashflowStateChecks(x: Cashflow): (r: seq<Issue>)
    ensures r == [] <==> x.settlementDate.Some? && x.paymentType.Some? && x.cashflowStatus.Some?
    ensures SettlementDateRequired in r <==> x.settlementDate.None?
    ensures PaymentTypeRequired in r <==> x.paymentType.None?
    ensures StatusRequired in r <==> x.cashflowStatus.None?
    ensures forall i :: i in r ==> i.SettlementDateRequired? || i.PaymentTypeRequired? || i.StatusRequired?
    ensures |r| <= 3
  {
      Check(x.settlementDate.None?, SettlementDateRequired)
    + Check(x.paymentType.None?, PaymentTypeRequired)
    + Check(x.cashflowStatus.None?, StatusRequired)
  }

  /** The origin event and revision checks. */
  function CashflowOriginChecks(x: Cashflow): (r: seq<Issue>)
    ensures r == [] <==> !IsBlank(x.originEventId) && x.revisionNumber.Some? && x.revisionNumber.value > 0
    ensures OriginEventRequired in r <==> IsBlank(x.originEventId)
    ensures RevisionNotPositive in r <==> x.revisionNumber.None? || x.revisionNumber.value <= 0
    ensures forall i :: i in r ==> i.OriginEventRequired? || i.RevisionNotPositive?
    ensures |r| <= 2
  {
      Check(IsBlank(x.originEventId), OriginEventRequired)
    + Check(x.revisionNumber.None? || x.revisionNumber.value <= 0, RevisionNotPositive)
  }

  /** `validateCashflow`: a null cashflow gives only its own error. */
  function ValidateCashflow(c: Option<Cashflow>): (r: seq<Issue>)
    ensures c.None? ==> r == [CashflowNull]
    ensures c.Some? ==> (r == [] <==> WellFormedCashflow(c.value))
    ensures c.Some? ==> |r| <= 14
  {
    if c.None? then [CashflowNull]
    else CashflowIdChecks(c.value) + CashflowPartyChecks(c.value)
         + CashflowMoneyChecks(c.value) + CashflowStateChecks(c.value) + CashflowOriginChecks(c.value)
  }

  /** An issue is reported for a present cashflow exactly when one of its five check groups reports it. */
  lemma ReportedByGroup(x: Cashflow, i: Issue)
    ensures i in ValidateCashflow(Some(x)) <==>
              i in CashflowIdChecks(x) || i in CashflowPartyChecks(x) || i in CashflowMoneyChecks(x)
              || i in CashflowStateChecks(x) || i in CashflowOriginChecks(x)
  {
    var a, b, m, t, o := CashflowIdChecks(x), CashflowPartyChecks(x), CashflowMoneyChecks(x),
                         CashflowStateChecks(x), CashflowOriginChecks(x);
    assert ValidateCashflow(Some(x)) == a + b + m + t + o;
  }

  /** A null or blank cashflow id is reported, and only then. */
  lemma CashflowIdRule(x: Cashflow)
    ensures CashflowIdRequired in ValidateCashflow(Some(x)) <==> IsBlank(x.cashflowId)
  {
    ReportedByGroup(x, CashflowIdRequired);
  }

  /** A null or blank trade id is reported, and only then. */
  lemma CashflowTradeIdRule(x: Cashflow)
    ensures TradeIdRequired in ValidateCashflow(Some(x)) <==> IsBlank(x.tradeId)
  {
    ReportedByGroup(x, TradeIdRequired);
  }

  /** A null or blank position id is reported, and only then. */
  lemma CashflowPositionIdRule(x: Cashflow)
    ensures PositionIdRequired in ValidateCashflow(Some(x)) <==> IsBlank(x.positionId)
  {
    ReportedByGroup(x, PositionIdRequired);
  }

  /** A null cashflow type is reported, and only then. */
  lemma CashflowTypeRule(x: Cashflow)
    ensures CashflowTypeRequired in ValidateCashflow(Some(x)) <==> x.cashflowType.None?
  {
    ReportedByGroup(x, CashflowTypeRequired);
  }

  /** In the returned strings: "Cashflow ID is required" is listed exactly for a null or blank id. */
  lemma CashflowIdMessageRule(x: Cashflow)
    ensures "Cashflow ID is required" in Messages(ValidateCashflow(Some(x))) <==> IsBlank(x.cashflowId)
  {
    CashflowIdRule(x);
    MessagesReport(ValidateCashflow(Some(x)), CashflowIdRequired);
    assert CashflowIdRequired.Message() == "Cashflow ID is required";
  }

  /** Each party id is reported exactly when it is null or blank. */
  lemma RequiredPartyRule(x: Cashflow)
    ensures PayerRequired in ValidateCashflow(Some(x)) <==> IsBlank(x.payerPartyId)
    ensures ReceiverRequired in ValidateCashflow(Some(x)) <==> IsBlank(x.receiverPartyId)
  {
    ReportedByGroup(x, PayerRequired);
    ReportedByGroup(x, ReceiverRequired);
  }

  /** A null settlement date is reported, and only then. */
  lemma SettlementDateRule(x: Cashflow)
    ensures SettlementDateRequired in ValidateCashflow(Some(x)) <==> x.settlementDate.None?
  {
    ReportedByGroup(x, SettlementDateRequired);
  }

  /** A null payment type is reported, and only then. */
  lemma PaymentTypeRule(x: Cashflow)
    ensures PaymentTypeRequired in ValidateCashflow(Some(x)) <==> x.paymentType.None?
  {
    ReportedByGroup(x, PaymentTypeRequired);
  }

  /** A null status is reported, and only then. */
  lemma StatusRule(x: Cashflow)
    ensures StatusRequired in ValidateCashflow(Some(x)) <==> x.cashflowStatus.None?
  {
    ReportedByGroup(x, StatusRequired);
  }

  /** The origin event id is reported exactly when it is null or blank. */
  lemma OriginEventRule(x: Cashflow)
    ensures OriginEventRequired in ValidateCashflow(Some(x)) <==> IsBlank(x.originEventId)
  {
    ReportedByGroup(x, OriginEventRequired);
  }

  /** Equal, non-null payer and receiver ids are reported (even when both are blank). */
  lemma SamePartyRule(x: Cashflow)
    ensures SameParty in ValidateCashflow(Some(x)) <==>
              x.payerPartyId.Some? && x.payerPartyId == x.receiverPartyId
  {
    ReportedByGroup(x, SameParty);
  }

  /** A non-blank currency is reported exactly when its length is not 3. */
  lemma CurrencyLengthRule(x: Cashflow)
    ensures CurrencyLength in ValidateCashflow(Some(x)) <==>
              !IsBlank(x.currency) && |x.currency.value| != 3
  {
    ReportedByGroup(x, CurrencyLength);
  }

  /** A zero amount is reported; a non-zero one, negative included, is not. */
  lemma AmountZeroRule(x: Cashflow)
    ensures AmountZero in ValidateCashflow(Some(x)) <==> x.amount == Some(0.0)
  {
    ReportedByGroup(x, AmountZero);
  }

  /** A null amount is reported as missing. */
  lemma AmountPresentRule(x: Cashflow)
    ensures AmountRequired in ValidateCashflow(Some(x)) <==> x.amount.None?
  {
    ReportedByGroup(x, AmountRequired);
  }

  /** A null, zero or negative revision number is reported. */
  lemma RevisionRule(x: Cashflow)
    ensures RevisionNotPositive in ValidateCashflow(Some(x)) <==>
              x.revisionNumber.None? || x.revisionNumber.value <= 0
  {
    ReportedByGroup(x, RevisionNotPositive);
  }

  /** Negative amounts are accepted; only a zero or missing amount is refused. */
  lemma NegativeAmountAccepted(c: Cashflow)
    requires c.amount.Some? && c.amount.value < 0.0
    ensures AmountZero !in ValidateCashflow(Some(c))
    ensures AmountRequired !in ValidateCashflow(Some(c))
  {
    AmountZeroRule(c);
    AmountPresentRule(c);
  }

  /**
   * The field annotations declared on `Cashflow`, together with the rules
   * the annotations cannot express (distinct parties, non-zero amount,
   * a status, a positive revision), imply that `validateCashflow` passes;
   * conversely a passing cashflow has a 3-character currency and non-blank ids.
   */
  lemma DeclaredConstraintsAgree(c: Cashflow)
    ensures DeclaredConstraints(c) && c.payerPartyId != c.receiverPartyId && c.amount != Some(0.0)
            && c.cashflowStatus.Some? && c.revisionNumber.Some? && c.revisionNumber.value > 0
            ==> ValidateCashflow(Some(c)) == []
    ensures ValidateCashflow(Some(c)) == [] ==>
              |c.currency.value| == 3 && !IsBlank(c.cashflowId) && !IsBlank(c.originEventId)
  {
  }

  // --------------------------------------------------------- lifecycle events

  predicate WellFormedEvent(e: LifecycleEvent) {
    && !IsBlank(e.eventId)
    && !IsBlank(e.tradeId)
    && e.timestamp.Some?
    && !IsBlank(e.eventType)
  }

  /** `validateLifecycleEvent`. */
  function ValidateLifecycleEvent(e: Option<LifecycleEvent>): (r: seq<Issue>)
    ensures e.None? ==> r == [EventNull]
    ensures e.Some? ==> (r == [] <==> WellFormedEvent(e.value))
    ensures e.Some? ==> (EventIdRequired in r <==> IsBlank(e.value.eventId))
    ensures e.Some? ==> (TradeIdRequired in r <==> IsBlank(e.value.tradeId))
    ensures e.Some? ==> (EventTimestampRequired in r <==> e.value.timestamp.None?)
    ensures e.Some? ==> (EventTypeRequired in r <==> IsBlank(e.value.eventType))
    ensures e.Some? ==> |r| <= 4
  {
    if e.None? then [EventNull]
    else
      var x := e.value;
      ( Check(IsBlank(x.eventId), EventIdRequired)
      + Check(IsBlank(x.tradeId), TradeIdRequired)
      + Check(x.timestamp.None?, EventTimestampRequired)
      + Check(IsBlank(x.eventType), EventTypeRequired))
  }

  // ---------------------------------------------------- cashflow generation

  /** Every element of a position list is non-null. */
  predicate NoNullPositions(ps: seq<Option<Position>>) {
    forall i :: 0 <= i < |ps| ==> ps[i].Some?
  }

  /** The valuation date lies within the position's effective..termination window, ends included. */
  predicate InWindow(p: Position, v: Date) {
    && (p.effectiveDate.None? || p.effectiveDate.value <= v)
    && (p.terminationDate.None? || v <= p.terminationDate.value)
  }

  /** The valuation date falls before the position's effective date. */
  predicate BeforeWindow(p: Position, v: Date) {
    p.effectiveDate.Some? && v < p.effectiveDate.value
  }

  /** The valuation date falls after the position's termination date. */
  predicate AfterWindow(p: Position, v: Date) {
    p.terminationDate.Some? && v > p.terminationDate.value
  }

  /**
   * The two window checks of one loop iteration: each side is reported, with
   * the position's id, exactly when the valuation date falls on that side.
   */
  function WindowChecks(p: Position, v: Date): (r: seq<Issue>)
    ensures r == [] <==> InWindow(p, v)
    ensures ValuationBeforeEffective(p.positionId) in r <==> BeforeWindow(p, v)
    ensures ValuationAfterTermination(p.positionId) in r <==> AfterWindow(p, v)
    ensures forall i :: i in r ==> i == ValuationBeforeEffective(p.positionId) || i == ValuationAfterTermination(p.positionId)
    ensures |r| <= 2
    ensures forall i :: i in r ==> !Fixed(i)
  {
      Check(p.effectiveDate.Some? && v < p.effectiveDate.value, ValuationBeforeEffective(p.positionId))
    + Check(p.terminationDate.Some? && v > p.terminationDate.value, ValuationAfterTermination(p.positionId))
  }

  /** The per-position loop of `validateCashflowGeneration`. */
  function WindowErrors(ps: seq<Option<Position>>, v: Date): (r: seq<Issue>)
    requires NoNullPositions(ps)
    ensures r == [] <==> forall i :: 0 <= i < |ps| ==> InWindow(ps[i].value, v)
    ensures |r| <= 2 * |ps|
    ensures forall i :: i in r ==> !Fixed(i)
  {
    if ps == [] then []
    else
      var h, t := WindowChecks(ps[0].value, v), WindowErrors(ps[1..], v);
      assert forall i :: 1 <= i < |ps| ==> ps[i] == ps[1..][i - 1];
      h + t
  }

  /** Some position of `ps` with id `id` is valued before its effective date. */
  predicate SomeBefore(ps: seq<Option<Position>>, v: Date, id: Option<string>)
    requires NoNullPositions(ps)
  {
    exists i :: 0 <= i < |ps| && ps[i].value.positionId == id && BeforeWindow(ps[i].value, v)
  }

  /** Some position of `ps` with id `id` is valued after its termination date. */
  predicate SomeAfter(ps: seq<Option<Position>>, v: Date, id: Option<string>)
    requires NoNullPositions(ps)
  {
    exists i :: 0 <= i < |ps| && ps[i].value.positionId == id && AfterWindow(ps[i].value, v)
  }

  /** The witnesses of `SomeBefore` and `SomeAfter` are the head's or the tail's. */
  lemma SomeBeforeAfterCons(ps: seq<Option<Position>>, v: Date, id: Option<string>)
    requires NoNullPositions(ps) && ps != []
    ensures NoNullPositions(ps[1..])
    ensures SomeBefore(ps, v, id) <==>
              (ps[0].value.positionId == id && BeforeWindow(ps[0].value, v)) || SomeBefore(ps[1..], v, id)
    ensures SomeAfter(ps, v, id) <==>
              (ps[0].value.positionId == id && AfterWindow(ps[0].value, v)) || SomeAfter(ps[1..], v, id)
  {
    var t := ps[1..];
    assert forall j :: 0 <= j < |t| ==> t[j] == ps[j + 1];
    if SomeBefore(ps, v, id) {
      var i :| 0 <= i < |ps| && ps[i].value.positionId == id && BeforeWindow(ps[i].value, v);
      if i > 0 { assert t[i - 1] == ps[i]; }
    }
    if SomeAfter(ps, v, id) {
      var i :| 0 <= i < |ps| && ps[i].value.positionId == id && AfterWindow(ps[i].value, v);
      if i > 0 { assert t[i - 1] == ps[i]; }
    }
  }

  /**
   * A window error names a position exactly when some position with that id
   * falls on that side of its window: every such position is reported, and
   * no error is reported for the wrong side or for an id in the window.
   */
  lemma {:induction false} WindowErrorsReportEachPosition(ps: seq<Option<Position>>, v: Date, id: Option<string>)
    requires NoNullPositions(ps)
    ensures ValuationBeforeEffective(id) in WindowErrors(ps, v) <==> SomeBefore(ps, v, id)
    ensures ValuationAfterTermination(id) in WindowErrors(ps, v) <==> SomeAfter(ps, v, id)
  {
    if ps != [] {
      SomeBeforeAfterCons(ps, v, id);
      WindowErrorsReportEachPosition(ps[1..], v, id);
      assert WindowErrors(ps, v) == WindowChecks(ps[0].value, v) + WindowErrors(ps[1..], v);
    }
  }

  /** The positions of `t`, a null list read as an empty one. */
  function PositionsOrEmpty(t: Trade): (ps: seq<Option<Position>>)
    ensures t.positions.Some? ==> ps == t.positions.value
    ensures t.positions.None? ==> ps == []
  {
    if t.positions.None? then [] else t.positions.value
  }

  /** A trade and valuation date `validateCashflowGeneration` accepts. */
  predicate ReadyForGeneration(t: Trade, v: Date)
    requires NoNullPositions(PositionsOrEmpty(t))
  {
    && (t.tradeDate.None? || t.tradeDate.value <= v)
    && t.positions.Some? && |t.positions.value| > 0
    && forall i :: 0 <= i < |t.positions.value| ==> InWindow(t.positions.value[i].value, v)
  }

  /**
   * `validateCashflowGeneration`, with a null position list read as an empty
   * one: the missing-positions error is reported and the loop visits nothing.
   * Null elements of a present list are still excluded (Java dereferences them).
   */
  function ValidateCashflowGeneration(t: Option<Trade>, v: Option<Date>): (r: seq<Issue>)
    requires t.Some? && v.Some? ==> NoNullPositions(PositionsOrEmpty(t.value))
    ensures t.None? ==> r == [TradeNull]
    ensures t.Some? && v.None? ==> r == [ValuationDateRequired]
    ensures t.Some? && v.Some? ==> (r == [] <==> ReadyForGeneration(t.value, v.value))
    ensures t.Some? && v.Some? ==>
              (TradeNeedsPositionsForGeneration in r <==> PositionsOrEmpty(t.value) == [])
    ensures t.Some? && v.Some? && t.value.tradeDate.Some? && v.value < t.value.tradeDate.value ==>
              |r| > 0 && r[0] == ValuationBeforeTradeDate
    ensures t.Some? && v.Some? ==>
              (ValuationBeforeTradeDate in r <==> t.value.tradeDate.Some? && v.value < t.value.tradeDate.value)
  {
    if t.None? then [TradeNull]
    else if v.None? then [ValuationDateRequired]
    else
      var x := t.value;
      var ps := PositionsOrEmpty(x);
      ( Check(x.tradeDate.Some? && v.value < x.tradeDate.value, ValuationBeforeTradeDate)
      + Check(ps == [], TradeNeedsPositionsForGeneration)
      + WindowErrors(ps, v.value))
  }

  /**
   * The validator's window errors are those of its loop: a window error names
   * a position exactly when some position with that id falls on that side.
   */
  lemma GenerationReportsEachPosition(t: Trade, v: Date, id: Option<string>)
    requires NoNullPositions(PositionsOrEmpty(t))
    ensures ValuationBeforeEffective(id) in ValidateCashflowGeneration(Some(t), Some(v))
            <==> SomeBefore(PositionsOrEmpty(t), v, id)
    ensures ValuationAfterTermination(id) in ValidateCashflowGeneration(Some(t), Some(v))
            <==> SomeAfter(PositionsOrEmpty(t), v, id)
  {
    WindowErrorsReportEachPosition(PositionsOrEmpty(t), v, id);
  }

  /**
   * `validateCashflowGeneration` as the Java code is written: after recording
   * that the position list is missing it iterates the null list anyway, and
   * it dereferences every element. Where it does return, it agrees with
   * `ValidateCashflowGeneration`.
   */
  function ValidateCashflowGenerationAsWritten(t: Option<Trade>, v: Option<Date>): (r: Outcome)
    ensures r.ThrowsNullPointer? <==>
              t.Some? && v.Some? && (t.value.positions.None? || !NoNullPositions(t.value.positions.value))
    ensures r.Returned? ==> r.issues == ValidateCashflowGeneration(t, v)
  {
    if t.None? then Returned([TradeNull])
    else if v.None? then Returned([ValuationDateRequired])
    else if t.value.positions.None? || !NoNullPositions(t.value.positions.value) then ThrowsNullPointer
    else
      var x := t.value;
      var ps := x.positions.value;
      Returned(
          Check(x.tradeDate.Some? && v.value < x.tradeDate.value, ValuationBeforeTradeDate)
        + Check(ps == [], TradeNeedsPositionsForGeneration)
        + WindowErrors(ps, v.value))
  }

  /**
   * A trade whose position list is null makes the written validator throw;
   * read as empty, the list yields the missing-positions error instead.
   */
  lemma NullPositionListThrows(t: Trade, v: Date)
    requires t.positions.None?
    ensures ValidateCashflowGenerationAsWritten(Some(t), Some(v)) == ThrowsNullPointer
    ensures ValidateCashflowGeneration(Some(t), Some(v))
         == Check(t.tradeDate.Some? && v < t.tradeDate.value, ValuationBeforeTradeDate)
            + [TradeNeedsPositionsForGeneration]
  {
  }

  /** Valuation on the effective date or on the termination date is accepted. */
  lemma WindowBoundariesAccepted(p: Position)
    requires p.effectiveDate.Some? && p.terminationDate.Some?
    requires p.effectiveDate.value <= p.terminationDate.value
    ensures WindowErrors([Some(p)], p.effectiveDate.value) == []
    ensures WindowErrors([Some(p)], p.terminationDate.value) == []
  {
  }

  // ----------------------------------------------------------------- hasErrors

  /** `hasErrors`: the list exists and is non-empty. */
  function HasErrors(errors: Option<seq<string>>): (r: bool)
    ensures r ==> errors.Some?
    ensures errors.Some? ==> (r <==> |errors.value| > 0)
  {
    errors.Some? && errors.value != []
  }

  /** A validated trade has errors exactly when it is not well formed. */
  lemma HasErrorsIffRejected(t: Trade, today: Date)
    ensures HasErrors(Some(Messages(ValidateTrade(Some(t), today)))) <==> !WellFormedTrade(t, today)
    ensures !HasErrors(None)
  {
  }
}
