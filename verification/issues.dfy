/**
 * The errors `ValidationService` reports: one constructor per rule, the
 * exact message text the service adds to its error list, and the fact that
 * the messages identify the rules that produced them.
 */
module Issues {
  import opened Common

  /**
   * One constructor per rule of the service; `Message()` is the exact text
   * the Java code adds to its error list for that rule.
   */
  datatype Issue =
    | ValuationBeforeEffective(positionId: Option<string>)
    | ValuationAfterTermination(positionId: Option<string>)
    | TradeNull | TradeIdRequired | ProductIdRequired | TradeDateRequired | TradeDateInFuture
    | TradeNeedsPosition
    | PositionNull | PositionIdRequired | UnderlierIdRequired | NotionalRequired | NotionalNotPositive
    | NotionalCurrencyRequired | NotionalCurrencyLength | EffectiveDateRequired
    | TerminationBeforeEffective | PositionNeedsLot
    | CashflowNull | CashflowIdRequired | CashflowTypeRequired | PayerRequired | ReceiverRequired
    | SameParty | CurrencyRequired | CurrencyLength | AmountRequired | AmountZero
    | SettlementDateRequired | PaymentTypeRequired | StatusRequired | OriginEventRequired
    | RevisionNotPositive
    | EventNull | EventIdRequired | EventTimestampRequired | EventTypeRequired
    | ValuationDateRequired | ValuationBeforeTradeDate | TradeNeedsPositionsForGeneration
  {
    function Message(): string {
      match this
      case ValuationBeforeEffective(id) => BeforeEffectivePrefix + ShowNullable(id)
      case ValuationAfterTermination(id) => AfterTerminationPrefix + ShowNullable(id)
      case TradeNull => "Trade cannot be null"
      case TradeIdRequired => "Trade ID is required"
      case ProductIdRequired => "Product ID is required"
      case TradeDateRequired => "Trade date is required"
      case TradeDateInFuture => "Trade date cannot be in the future"
      case TradeNeedsPosition => "Trade must have at least one position"
      case PositionNull => "Position cannot be null"
      case PositionIdRequired => "Position ID is required"
      case UnderlierIdRequired => "Underlier ID is required"
      case NotionalRequired => "Notional amount is required"
      case NotionalNotPositive => "Notional amount must be positive"
      case NotionalCurrencyRequired => "Notional currency is required"
      case NotionalCurrencyLength => "Notional currency must be 3 characters"
      case EffectiveDateRequired => "Effective date is required"
      case TerminationBeforeEffective => "Termination date cannot be before effective date"
      case PositionNeedsLot => "Position must have at least one lot"
      case CashflowNull => "Cashflow cannot be null"
      case CashflowIdRequired => "Cashflow ID is required"
      case CashflowTypeRequired => "Cashflow type is required"
      case PayerRequired => "Payer party ID is required"
      case ReceiverRequired => "Receiver party ID is required"
      case SameParty => "Payer and receiver party cannot be the same"
      case CurrencyRequired => "Currency is required"
      case CurrencyLength => "Currency must be 3 characters"
      case AmountRequired => "Amount is required"
      case AmountZero => "Amount cannot be zero"
      case SettlementDateRequired => "Settlement date is required"
      case PaymentTypeRequired => "Payment type is required"
      case StatusRequired => "Cashflow status is required"
      case OriginEventRequired => "Origin event ID is required"
      case RevisionNotPositive => "Revision number must be positive"
      case EventNull => "Lifecycle event cannot be null"
      case EventIdRequired => "Event ID is required"
      case EventTimestampRequired => "Event timestamp is required"
      case EventTypeRequired => "Event type is required"
      case ValuationDateRequired => "Valuation date is required"
      case ValuationBeforeTradeDate => "Valuation date cannot be before trade date"
      case TradeNeedsPositionsForGeneration => "Trade must have positions for cashflow generation"
    }
  }

  /** The `List<String>` a validator returns: its issues' messages, in order. */
  function Messages(issues: seq<Issue>): (r: seq<string>)
    ensures |r| == |issues|
    ensures forall i :: 0 <= i < |issues| ==> r[i] == issues[i].Message()
  {
    seq(|issues|, i requires 0 <= i < |issues| => issues[i].Message())
  }

  /** The message prefixes of the two window issues; the position id follows. */
  const BeforeEffectivePrefix: string := "Valuation date cannot be before position effective date: "
  const AfterTerminationPrefix: string := "Valuation date cannot be after position termination date: "

  /** An issue whose message does not depend on a position id. */
  predicate Fixed(i: Issue) {
    !i.ValuationBeforeEffective? && !i.ValuationAfterTermination?
  }

  /**
   * Two issues a caller cannot tell apart from their messages: the same
   * issue, or two window issues of the same kind whose position ids render
   * alike (a null id and the id "null" both render as `null`).
   */
  predicate SameReport(a: Issue, b: Issue) {
    || a == b
    || (a.ValuationBeforeEffective? && b.ValuationBeforeEffective?
        && ShowNullable(a.positionId) == ShowNullable(b.positionId))
    || (a.ValuationAfterTermination? && b.ValuationAfterTermination?
        && ShowNullable(a.positionId) == ShowNullable(b.positionId))
  }

  // Injectivity of the fixed messages. The solver tells two string literals
  // apart cheaply when their lengths differ and expensively when they do not
  // (it compares them character by character). So the proof first sorts the
  // issues by message length (`Width`) and compares only messages of one
  // shared length. Each such pair is a ground lemma `<A>DiffersFrom<B>`, and
  // for widths shared by three or more issues the `OnlyTextOf<A>` lemmas
  // gather the pairs of one issue. The pairs sit in lemmas of their own
  // because each comparison costs close to a third of the solver's budget
  // for one proof: two or three of them together no longer fit.

  /** The length of a fixed issue's message, as a number the solver compares cheaply. */
  function Width(i: Issue): nat
    requires Fixed(i)
  {
    match i
    case TradeNull => 20
    case TradeIdRequired => 20
    case ProductIdRequired => 22
    case TradeDateRequired => 22
    case TradeDateInFuture => 34
    case TradeNeedsPosition => 37
    case PositionNull => 23
    case PositionIdRequired => 23
    case UnderlierIdRequired => 24
    case NotionalRequired => 27
    case NotionalNotPositive => 32
    case NotionalCurrencyRequired => 29
    case NotionalCurrencyLength => 38
    case EffectiveDateRequired => 26
    case TerminationBeforeEffective => 48
    case PositionNeedsLot => 35
    case CashflowNull => 23
    case CashflowIdRequired => 23
    case CashflowTypeRequired => 25
    case PayerRequired => 26
    case ReceiverRequired => 29
    case SameParty => 43
    case CurrencyRequired => 20
    case CurrencyLength => 29
    case AmountRequired => 18
    case AmountZero => 21
    case SettlementDateRequired => 27
    case PaymentTypeRequired => 24
    case StatusRequired => 27
    case OriginEventRequired => 27
    case RevisionNotPositive => 32
    case EventNull => 30
    case EventIdRequired => 20
    case EventTimestampRequired => 27
    case EventTypeRequired => 22
    case ValuationDateRequired => 26
    case ValuationBeforeTradeDate => 42
    case TradeNeedsPositionsForGeneration => 49
  }

  /** `Width` is the message length, for widths 18 to 20. */
  lemma LengthsOfWidth18To20(i: Issue)
    requires Fixed(i) && 18 <= Width(i) <= 20
    ensures |i.Message()| == Width(i)
  {
  }

  /** `Width` is the message length, for widths 21 to 23. */
  lemma LengthsOfWidth21To23(i: Issue)
    requires Fixed(i) && 21 <= Width(i) <= 23
    ensures |i.Message()| == Width(i)
  {
  }

  /** `Width` is the message length, for widths 24 to 26. */
  lemma LengthsOfWidth24To26(i: Issue)
    requires Fixed(i) && 24 <= Width(i) <= 26
    ensures |i.Message()| == Width(i)
  {
  }

  /** `Width` is the message length, for widths 27. */
  lemma LengthsOfWidth27(i: Issue)
    requires Fixed(i) && Width(i) == 27
    ensures |i.Message()| == Width(i)
  {
  }

  /** `Width` is the message length, for widths 28 to 32. */
  lemma LengthsOfWidth28To32(i: Issue)
    requires Fixed(i) && 28 <= Width(i) <= 32
    ensures |i.Message()| == Width(i)
  {
  }

  /** `Width` is the message length, for widths 33 to 42. */
  lemma LengthsOfWidth33To42(i: Issue)
    requires Fixed(i) && 33 <= Width(i) <= 42
    ensures |i.Message()| == Width(i)
  {
  }

  /** `Width` is the message length, for widths 43 to 49. */
  lemma LengthsOfWidth43To49(i: Issue)
    requires Fixed(i) && 43 <= Width(i) <= 49
    ensures |i.Message()| == Width(i)
  {
  }

  /** A fixed message is `Width` long, and no fixed message is longer than 49. */
  lemma FixedLength(i: Issue)
    requires Fixed(i)
    ensures |i.Message()| == Width(i) <= 49
  {
    if Width(i) <= 20 {
      LengthsOfWidth18To20(i);
    } else if Width(i) <= 23 {
      LengthsOfWidth21To23(i);
    } else if Width(i) <= 26 {
      LengthsOfWidth24To26(i);
    } else if Width(i) <= 27 {
      LengthsOfWidth27(i);
    } else if Width(i) <= 32 {
      LengthsOfWidth28To32(i);
    } else if Width(i) <= 42 {
      LengthsOfWidth33To42(i);
    } else {
      LengthsOfWidth43To49(i);
    }
  }

  /** The fixed issue of width 18. */
  lemma WidthNames18(i: Issue)
    requires Fixed(i) && Width(i) == 18
    ensures i == AmountRequired
  {
  }

  /** The fixed issues of width 20. */
  lemma WidthNames20(i: Issue)
    requires Fixed(i) && Width(i) == 20
    ensures i == TradeNull || i == TradeIdRequired || i == CurrencyRequired || i == EventIdRequired
  {
  }

  /** The fixed issue of width 21. */
  lemma WidthNames21(i: Issue)
    requires Fixed(i) && Width(i) == 21
    ensures i == AmountZero
  {
  }

  /** The fixed issues of width 22. */
  lemma WidthNames22(i: Issue)
    requires Fixed(i) && Width(i) == 22
    ensures i == ProductIdRequired || i == TradeDateRequired || i == EventTypeRequired
  {
  }

  /** The fixed issues of width 23. */
  lemma WidthNames23(i: Issue)
    requires Fixed(i) && Width(i) == 23
    ensures i == PositionNull || i == PositionIdRequired || i == CashflowNull || i == CashflowIdRequired
  {
  }

  /** The fixed issues of width 24. */
  lemma WidthNames24(i: Issue)
    requires Fixed(i) && Width(i) == 24
    ensures i == UnderlierIdRequired || i == PaymentTypeRequired
  {
  }

  /** The fixed issue of width 25. */
  lemma WidthNames25(i: Issue)
    requires Fixed(i) && Width(i) == 25
    ensures i == CashflowTypeRequired
  {
  }

  /** The fixed issues of width 26. */
  lemma WidthNames26(i: Issue)
    requires Fixed(i) && Width(i) == 26
    ensures i == EffectiveDateRequired || i == PayerRequired || i == ValuationDateRequired
  {
  }

  /** The fixed issues of width 27. */
  lemma WidthNames27(i: Issue)
    requires Fixed(i) && Width(i) == 27
    ensures i == NotionalRequired || i == SettlementDateRequired || i == StatusRequired || i == OriginEventRequired || i == EventTimestampRequired
  {
  }

  /** The fixed issues of width 29. */
  lemma WidthNames29(i: Issue)
    requires Fixed(i) && Width(i) == 29
    ensures i == NotionalCurrencyRequired || i == ReceiverRequired || i == CurrencyLength
  {
  }

  /** The fixed issue of width 30. */
  lemma WidthNames30(i: Issue)
    requires Fixed(i) && Width(i) == 30
    ensures i == EventNull
  {
  }

  /** The fixed issues of width 32. */
  lemma WidthNames32(i: Issue)
    requires Fixed(i) && Width(i) == 32
    ensures i == NotionalNotPositive || i == RevisionNotPositive
  {
  }

  /** The fixed issue of width 34. */
  lemma WidthNames34(i: Issue)
    requires Fixed(i) && Width(i) == 34
    ensures i == TradeDateInFuture
  {
  }

  /** The fixed issue of width 35. */
  lemma WidthNames35(i: Issue)
    requires Fixed(i) && Width(i) == 35
    ensures i == PositionNeedsLot
  {
  }

  /** The fixed issue of width 37. */
  lemma WidthNames37(i: Issue)
    requires Fixed(i) && Width(i) == 37
    ensures i == TradeNeedsPosition
  {
  }

  /** The fixed issue of width 38. */
  lemma WidthNames38(i: Issue)
    requires Fixed(i) && Width(i) == 38
    ensures i == NotionalCurrencyLength
  {
  }

  /** The fixed issue of width 42. */
  lemma WidthNames42(i: Issue)
    requires Fixed(i) && Width(i) == 42
    ensures i == ValuationBeforeTradeDate
  {
  }

  /** The fixed issue of width 43. */
  lemma WidthNames43(i: Issue)
    requires Fixed(i) && Width(i) == 43
    ensures i == SameParty
  {
  }

  /** The fixed issue of width 48. */
  lemma WidthNames48(i: Issue)
    requires Fixed(i) && Width(i) == 48
    ensures i == TerminationBeforeEffective
  {
  }

  /** The fixed issue of width 49. */
  lemma WidthNames49(i: Issue)
    requires Fixed(i) && Width(i) == 49
    ensures i == TradeNeedsPositionsForGeneration
  {
  }

  /** `TradeNull` and `TradeIdRequired` have different messages of width 20. */
  lemma TradeNullDiffersFromTradeIdRequired()
    ensures TradeNull.Message() != TradeIdRequired.Message()
  {
  }

  /** `TradeNull` and `CurrencyRequired` have different messages of width 20. */
  lemma TradeNullDiffersFromCurrencyRequired()
    ensures TradeNull.Message() != CurrencyRequired.Message()
  {
  }

  /** `TradeNull` and `EventIdRequired` have different messages of width 20. */
  lemma TradeNullDiffersFromEventIdRequired()
    ensures TradeNull.Message() != EventIdRequired.Message()
  {
  }

  /** `TradeIdRequired` and `CurrencyRequired` have different messages of width 20. */
  lemma TradeIdRequiredDiffersFromCurrencyRequired()
    ensures TradeIdRequired.Message() != CurrencyRequired.Message()
  {
  }

  /** `TradeIdRequired` and `EventIdRequired` have different messages of width 20. */
  lemma TradeIdRequiredDiffersFromEventIdRequired()
    ensures TradeIdRequired.Message() != EventIdRequired.Message()
  {
  }

  /** `CurrencyRequired` and `EventIdRequired` have different messages of width 20. */
  lemma CurrencyRequiredDiffersFromEventIdRequired()
    ensures CurrencyRequired.Message() != EventIdRequired.Message()
  {
  }

  /** The only fixed issue of width 20 whose message is that of `TradeNull` is `TradeNull`. */
  lemma OnlyTextOfTradeNull(b: Issue)
    requires Fixed(b) && Width(b) == 20
    ensures b.Message() == TradeNull.Message() ==> b == TradeNull
  {
    WidthNames20(b);
    TradeNullDiffersFromCurrencyRequired();
    TradeNullDiffersFromEventIdRequired();
    TradeNullDiffersFromTradeIdRequired();
  }

  /** The only fixed issue of width 20 whose message is that of `TradeIdRequired` is `TradeIdRequired`. */
  lemma OnlyTextOfTradeIdRequired(b: Issue)
    requires Fixed(b) && Width(b) == 20
    ensures b.Message() == TradeIdRequired.Message() ==> b == TradeIdRequired
  {
    WidthNames20(b);
    TradeIdRequiredDiffersFromCurrencyRequired();
    TradeIdRequiredDiffersFromEventIdRequired();
    TradeNullDiffersFromTradeIdRequired();
  }

  /** The only fixed issue of width 20 whose message is that of `CurrencyRequired` is `CurrencyRequired`. */
  lemma OnlyTextOfCurrencyRequired(b: Issue)
    requires Fixed(b) && Width(b) == 20
    ensures b.Message() == CurrencyRequired.Message() ==> b == CurrencyRequired
  {
    WidthNames20(b);
    CurrencyRequiredDiffersFromEventIdRequired();
    TradeIdRequiredDiffersFromCurrencyRequired();
    TradeNullDiffersFromCurrencyRequired();
  }

  /** The only fixed issue of width 20 whose message is that of `EventIdRequired` is `EventIdRequired`. */
  lemma OnlyTextOfEventIdRequired(b: Issue)
    requires Fixed(b) && Width(b) == 20
    ensures b.Message() == EventIdRequired.Message() ==> b == EventIdRequired
  {
    WidthNames20(b);
    CurrencyRequiredDiffersFromEventIdRequired();
    TradeIdRequiredDiffersFromEventIdRequired();
    TradeNullDiffersFromEventIdRequired();
  }

  /** Fixed issues of width 20 with the same message are the same issue. */
  lemma DistinctOfWidth20(a: Issue, b: Issue)
    requires Fixed(a) && Fixed(b) && Width(a) == Width(b) == 20
    ensures a.Message() == b.Message() ==> a == b
  {
    WidthNames20(a);
    if a == TradeNull {
      OnlyTextOfTradeNull(b);
    } else if a == TradeIdRequired {
      OnlyTextOfTradeIdRequired(b);
    } else if a == CurrencyRequired {
      OnlyTextOfCurrencyRequired(b);
    } else {
      OnlyTextOfEventIdRequired(b);
    }
  }

  /** `ProductIdRequired` and `TradeDateRequired` have different messages of width 22. */
  lemma ProductIdRequiredDiffersFromTradeDateRequired()
    ensures ProductIdRequired.Message() != TradeDateRequired.Message()
  {
  }

  /** `ProductIdRequired` and `EventTypeRequired` have different messages of width 22. */
  lemma ProductIdRequiredDiffersFromEventTypeRequired()
    ensures ProductIdRequired.Message() != EventTypeRequired.Message()
  {
  }

  /** `TradeDateRequired` and `EventTypeRequired` have different messages of width 22. */
  lemma TradeDateRequiredDiffersFromEventTypeRequired()
    ensures TradeDateRequired.Message() != EventTypeRequired.Message()
  {
  }

  /** The only fixed issue of width 22 whose message is that of `ProductIdRequired` is `ProductIdRequired`. */
  lemma OnlyTextOfProductIdRequired(b: Issue)
    requires Fixed(b) && Width(b) == 22
    ensures b.Message() == ProductIdRequired.Message() ==> b == ProductIdRequired
  {
    WidthNames22(b);
    ProductIdRequiredDiffersFromEventTypeRequired();
    ProductIdRequiredDiffersFromTradeDateRequired();
  }

  /** The only fixed issue of width 22 whose message is that of `TradeDateRequired` is `TradeDateRequired`. */
  lemma OnlyTextOfTradeDateRequired(b: Issue)
    requires Fixed(b) && Width(b) == 22
    ensures b.Message() == TradeDateRequired.Message() ==> b == TradeDateRequired
  {
    WidthNames22(b);
    ProductIdRequiredDiffersFromTradeDateRequired();
    TradeDateRequiredDiffersFromEventTypeRequired();
  }

  /** The only fixed issue of width 22 whose message is that of `EventTypeRequired` is `EventTypeRequired`. */
  lemma OnlyTextOfEventTypeRequired(b: Issue)
    requires Fixed(b) && Width(b) == 22
    ensures b.Message() == EventTypeRequired.Message() ==> b == EventTypeRequired
  {
    WidthNames22(b);
    ProductIdRequiredDiffersFromEventTypeRequired();
    TradeDateRequiredDiffersFromEventTypeRequired();
  }

  /** Fixed issues of width 22 with the same message are the same issue. */
  lemma DistinctOfWidth22(a: Issue, b: Issue)
    requires Fixed(a) && Fixed(b) && Width(a) == Width(b) == 22
    ensures a.Message() == b.Message() ==> a == b
  {
    WidthNames22(a);
    if a == ProductIdRequired {
      OnlyTextOfProductIdRequired(b);
    } else if a == TradeDateRequired {
      OnlyTextOfTradeDateRequired(b);
    } else {
      OnlyTextOfEventTypeRequired(b);
    }
  }

  /** `PositionNull` and `PositionIdRequired` have different messages of width 23. */
  lemma PositionNullDiffersFromPositionIdRequired()
    ensures PositionNull.Message() != PositionIdRequired.Message()
  {
  }

  /** `PositionNull` and `CashflowNull` have different messages of width 23. */
  lemma PositionNullDiffersFromCashflowNull()
    ensures PositionNull.Message() != CashflowNull.Message()
  {
  }

  /** `PositionNull` and `CashflowIdRequired` have different messages of width 23. */
  lemma PositionNullDiffersFromCashflowIdRequired()
    ensures PositionNull.Message() != CashflowIdRequired.Message()
  {
  }

  /** `PositionIdRequired` and `CashflowNull` have different messages of width 23. */
  lemma PositionIdRequiredDiffersFromCashflowNull()
    ensures PositionIdRequired.Message() != CashflowNull.Message()
  {
  }

  /** `PositionIdRequired` and `CashflowIdRequired` have different messages of width 23. */
  lemma PositionIdRequiredDiffersFromCashflowIdRequired()
    ensures PositionIdRequired.Message() != CashflowIdRequired.Message()
  {
  }

  /** `CashflowNull` and `CashflowIdRequired` have different messages of width 23. */
  lemma CashflowNullDiffersFromCashflowIdRequired()
    ensures CashflowNull.Message() != CashflowIdRequired.Message()
  {
  }

  /** The only fixed issue of width 23 whose message is that of `PositionNull` is `PositionNull`. */
  lemma OnlyTextOfPositionNull(b: Issue)
    requires Fixed(b) && Width(b) == 23
    ensures b.Message() == PositionNull.Message() ==> b == PositionNull
  {
    WidthNames23(b);
    PositionNullDiffersFromCashflowIdRequired();
    PositionNullDiffersFromCashflowNull();
    PositionNullDiffersFromPositionIdRequired();
  }

  /** The only fixed issue of width 23 whose message is that of `PositionIdRequired` is `PositionIdRequired`. */
  lemma OnlyTextOfPositionIdRequired(b: Issue)
    requires Fixed(b) && Width(b) == 23
    ensures b.Message() == PositionIdRequired.Message() ==> b == PositionIdRequired
  {
    WidthNames23(b);
    PositionIdRequiredDiffersFromCashflowIdRequired();
    PositionIdRequiredDiffersFromCashflowNull();
    PositionNullDiffersFromPositionIdRequired();
  }

  /** The only fixed issue of width 23 whose message is that of `CashflowNull` is `CashflowNull`. */
  lemma OnlyTextOfCashflowNull(b: Issue)
    requires Fixed(b) && Width(b) == 23
    ensures b.Message() == CashflowNull.Message() ==> b == CashflowNull
  {
    WidthNames23(b);
    CashflowNullDiffersFromCashflowIdRequired();
    PositionIdRequiredDiffersFromCashflowNull();
    PositionNullDiffersFromCashflowNull();
  }

  /** The only fixed issue of width 23 whose message is that of `CashflowIdRequired` is `CashflowIdRequired`. */
  lemma OnlyTextOfCashflowIdRequired(b: Issue)
    requires Fixed(b) && Width(b) == 23
    ensures b.Message() == CashflowIdRequired.Message() ==> b == CashflowIdRequired
  {
    WidthNames23(b);
    CashflowNullDiffersFromCashflowIdRequired();
    PositionIdRequiredDiffersFromCashflowIdRequired();
    PositionNullDiffersFromCashflowIdRequired();
  }

  /** Fixed issues of width 23 with the same message are the same issue. */
  lemma DistinctOfWidth23(a: Issue, b: Issue)
    requires Fixed(a) && Fixed(b) && Width(a) == Width(b) == 23
    ensures a.Message() == b.Message() ==> a == b
  {
    WidthNames23(a);
    if a == PositionNull {
      OnlyTextOfPositionNull(b);
    } else if a == PositionIdRequired {
      OnlyTextOfPositionIdRequired(b);
    } else if a == CashflowNull {
      OnlyTextOfCashflowNull(b);
    } else {
      OnlyTextOfCashflowIdRequired(b);
    }
  }

  /** `UnderlierIdRequired` and `PaymentTypeRequired` have different messages of width 24. */
  lemma UnderlierIdRequiredDiffersFromPaymentTypeRequired()
    ensures UnderlierIdRequired.Message() != PaymentTypeRequired.Message()
  {
  }

  /** Fixed issues of width 24 with the same message are the same issue. */
  lemma DistinctOfWidth24(a: Issue, b: Issue)
    requires Fixed(a) && Fixed(b) && Width(a) == Width(b) == 24
    ensures a.Message() == b.Message() ==> a == b
  {
    WidthNames24(a);
    WidthNames24(b);
    UnderlierIdRequiredDiffersFromPaymentTypeRequired();
  }

  /** `EffectiveDateRequired` and `PayerRequired` have different messages of width 26. */
  lemma EffectiveDateRequiredDiffersFromPayerRequired()
    ensures EffectiveDateRequired.Message() != PayerRequired.Message()
  {
  }

  /** `EffectiveDateRequired` and `ValuationDateRequired` have different messages of width 26. */
  lemma EffectiveDateRequiredDiffersFromValuationDateRequired()
    ensures EffectiveDateRequired.Message() != ValuationDateRequired.Message()
  {
  }

  /** `PayerRequired` and `ValuationDateRequired` have different messages of width 26. */
  lemma PayerRequiredDiffersFromValuationDateRequired()
    ensures PayerRequired.Message() != ValuationDateRequired.Message()
  {
  }

  /** The only fixed issue of width 26 whose message is that of `EffectiveDateRequired` is `EffectiveDateRequired`. */
  lemma OnlyTextOfEffectiveDateRequired(b: Issue)
    requires Fixed(b) && Width(b) == 26
    ensures b.Message() == EffectiveDateRequired.Message() ==> b == EffectiveDateRequired
  {
    WidthNames26(b);
    EffectiveDateRequiredDiffersFromPayerRequired();
    EffectiveDateRequiredDiffersFromValuationDateRequired();
  }

  /** The only fixed issue of width 26 whose message is that of `PayerRequired` is `PayerRequired`. */
  lemma OnlyTextOfPayerRequired(b: Issue)
    requires Fixed(b) && Width(b) == 26
    ensures b.Message() == PayerRequired.Message() ==> b == PayerRequired
  {
    WidthNames26(b);
    EffectiveDateRequiredDiffersFromPayerRequired();
    PayerRequiredDiffersFromValuationDateRequired();
  }

  /** The only fixed issue of width 26 whose message is that of `ValuationDateRequired` is `ValuationDateRequired`. */
  lemma OnlyTextOfValuationDateRequired(b: Issue)
    requires Fixed(b) && Width(b) == 26
    ensures b.Message() == ValuationDateRequired.Message() ==> b == ValuationDateRequired
  {
    WidthNames26(b);
    EffectiveDateRequiredDiffersFromValuationDateRequired();
    PayerRequiredDiffersFromValuationDateRequired();
  }

  /** Fixed issues of width 26 with the same message are the same issue. */
  lemma DistinctOfWidth26(a: Issue, b: Issue)
    requires Fixed(a) && Fixed(b) && Width(a) == Width(b) == 26
    ensures a.Message() == b.Message() ==> a == b
  {
    WidthNames26(a);
    if a == EffectiveDateRequired {
      OnlyTextOfEffectiveDateRequired(b);
    } else if a == PayerRequired {
      OnlyTextOfPayerRequired(b);
    } else {
      OnlyTextOfValuationDateRequired(b);
    }
  }

  /** `NotionalRequired` and `SettlementDateRequired` have different messages of width 27. */
  lemma NotionalRequiredDiffersFromSettlementDateRequired()
    ensures NotionalRequired.Message() != SettlementDateRequired.Message()
  {
  }

  /** `NotionalRequired` and `StatusRequired` have different messages of width 27. */
  lemma NotionalRequiredDiffersFromStatusRequired()
    ensures NotionalRequired.Message() != StatusRequired.Message()
  {
  }

  /** `NotionalRequired` and `OriginEventRequired` have different messages of width 27. */
  lemma NotionalRequiredDiffersFromOriginEventRequired()
    ensures NotionalRequired.Message() != OriginEventRequired.Message()
  {
  }

  /** `NotionalRequired` and `EventTimestampRequired` have different messages of width 27. */
  lemma NotionalRequiredDiffersFromEventTimestampRequired()
    ensures NotionalRequired.Message() != EventTimestampRequired.Message()
  {
  }

  /** `SettlementDateRequired` and `StatusRequired` have different messages of width 27. */
  lemma SettlementDateRequiredDiffersFromStatusRequired()
    ensures SettlementDateRequired.Message() != StatusRequired.Message()
  {
  }

  /** `SettlementDateRequired` and `OriginEventRequired` have different messages of width 27. */
  lemma SettlementDateRequiredDiffersFromOriginEventRequired()
    ensures SettlementDateRequired.Message() != OriginEventRequired.Message()
  {
  }

  /** `SettlementDateRequired` and `EventTimestampRequired` have different messages of width 27. */
  lemma SettlementDateRequiredDiffersFromEventTimestampRequired()
    ensures SettlementDateRequired.Message() != EventTimestampRequired.Message()
  {
  }

  /** `StatusRequired` and `OriginEventRequired` have different messages of width 27. */
  lemma StatusRequiredDiffersFromOriginEventRequired()
    ensures StatusRequired.Message() != OriginEventRequired.Message()
  {
  }

  /** `StatusRequired` and `EventTimestampRequired` have different messages of width 27. */
  lemma StatusRequiredDiffersFromEventTimestampRequired()
    ensures StatusRequired.Message() != EventTimestampRequired.Message()
  {
  }

  /** `OriginEventRequired` and `EventTimestampRequired` have different messages of width 27. */
  lemma OriginEventRequiredDiffersFromEventTimestampRequired()
    ensures OriginEventRequired.Message() != EventTimestampRequired.Message()
  {
  }

  /** The only fixed issue of width 27 whose message is that of `NotionalRequired` is `NotionalRequired`. */
  lemma OnlyTextOfNotionalRequired(b: Issue)
    requires Fixed(b) && Width(b) == 27
    ensures b.Message() == NotionalRequired.Message() ==> b == NotionalRequired
  {
    WidthNames27(b);
    NotionalRequiredDiffersFromEventTimestampRequired();
    NotionalRequiredDiffersFromOriginEventRequired();
    NotionalRequiredDiffersFromSettlementDateRequired();
    NotionalRequiredDiffersFromStatusRequired();
  }

  /** The only fixed issue of width 27 whose message is that of `SettlementDateRequired` is `SettlementDateRequired`. */
  lemma OnlyTextOfSettlementDateRequired(b: Issue)
    requires Fixed(b) && Width(b) == 27
    ensures b.Message() == SettlementDateRequired.Message() ==> b == SettlementDateRequired
  {
    WidthNames27(b);
    NotionalRequiredDiffersFromSettlementDateRequired();
    SettlementDateRequiredDiffersFromEventTimestampRequired();
    SettlementDateRequiredDiffersFromOriginEventRequired();
    SettlementDateRequiredDiffersFromStatusRequired();
  }

  /** The only fixed issue of width 27 whose message is that of `StatusRequired` is `StatusRequired`. */
  lemma OnlyTextOfStatusRequired(b: Issue)
    requires Fixed(b) && Width(b) == 27
    ensures b.Message() == StatusRequired.Message() ==> b == StatusRequired
  {
    WidthNames27(b);
    NotionalRequiredDiffersFromStatusRequired();
    SettlementDateRequiredDiffersFromStatusRequired();
    StatusRequiredDiffersFromEventTimestampRequired();
    StatusRequiredDiffersFromOriginEventRequired();
  }

  /** The only fixed issue of width 27 whose message is that of `OriginEventRequired` is `OriginEventRequired`. */
  lemma OnlyTextOfOriginEventRequired(b: Issue)
    requires Fixed(b) && Width(b) == 27
    ensures b.Message() == OriginEventRequired.Message() ==> b == OriginEventRequired
  {
    WidthNames27(b);
    NotionalRequiredDiffersFromOriginEventRequired();
    OriginEventRequiredDiffersFromEventTimestampRequired();
    SettlementDateRequiredDiffersFromOriginEventRequired();
    StatusRequiredDiffersFromOriginEventRequired();
  }

  /** The only fixed issue of width 27 whose message is that of `EventTimestampRequired` is `EventTimestampRequired`. */
  lemma OnlyTextOfEventTimestampRequired(b: Issue)
    requires Fixed(b) && Width(b) == 27
    ensures b.Message() == EventTimestampRequired.Message() ==> b == EventTimestampRequired
  {
    WidthNames27(b);
    NotionalRequiredDiffersFromEventTimestampRequired();
    OriginEventRequiredDiffersFromEventTimestampRequired();
    SettlementDateRequiredDiffersFromEventTimestampRequired();
    StatusRequiredDiffersFromEventTimestampRequired();
  }

  /** Fixed issues of width 27 with the same message are the same issue. */
  lemma DistinctOfWidth27(a: Issue, b: Issue)
    requires Fixed(a) && Fixed(b) && Width(a) == Width(b) == 27
    ensures a.Message() == b.Message() ==> a == b
  {
    WidthNames27(a);
    if a == NotionalRequired {
      OnlyTextOfNotionalRequired(b);
    } else if a == SettlementDateRequired {
      OnlyTextOfSettlementDateRequired(b);
    } else if a == StatusRequired {
      OnlyTextOfStatusRequired(b);
    } else if a == OriginEventRequired {
      OnlyTextOfOriginEventRequired(b);
    } else {
      OnlyTextOfEventTimestampRequired(b);
    }
  }

  /** `NotionalCurrencyRequired` and `ReceiverRequired` have different messages of width 29. */
  lemma NotionalCurrencyRequiredDiffersFromReceiverRequired()
    ensures NotionalCurrencyRequired.Message() != ReceiverRequired.Message()
  {
  }

  /** `NotionalCurrencyRequired` and `CurrencyLength` have different messages of width 29. */
  lemma NotionalCurrencyRequiredDiffersFromCurrencyLength()
    ensures NotionalCurrencyRequired.Message() != CurrencyLength.Message()
  {
  }

  /** `ReceiverRequired` and `CurrencyLength` have different messages of width 29. */
  lemma ReceiverRequiredDiffersFromCurrencyLength()
    ensures ReceiverRequired.Message() != CurrencyLength.Message()
  {
  }

  /** The only fixed issue of width 29 whose message is that of `NotionalCurrencyRequired` is `NotionalCurrencyRequired`. */
  lemma OnlyTextOfNotionalCurrencyRequired(b: Issue)
    requires Fixed(b) && Width(b) == 29
    ensures b.Message() == NotionalCurrencyRequired.Message() ==> b == NotionalCurrencyRequired
  {
    WidthNames29(b);
    NotionalCurrencyRequiredDiffersFromCurrencyLength();
    NotionalCurrencyRequiredDiffersFromReceiverRequired();
  }

  /** The only fixed issue of width 29 whose message is that of `ReceiverRequired` is `ReceiverRequired`. */
  lemma OnlyTextOfReceiverRequired(b: Issue)
    requires Fixed(b) && Width(b) == 29
    ensures b.Message() == ReceiverRequired.Message() ==> b == ReceiverRequired
  {
    WidthNames29(b);
    NotionalCurrencyRequiredDiffersFromReceiverRequired();
    ReceiverRequiredDiffersFromCurrencyLength();
  }

  /** The only fixed issue of width 29 whose message is that of `CurrencyLength` is `CurrencyLength`. */
  lemma OnlyTextOfCurrencyLength(b: Issue)
    requires Fixed(b) && Width(b) == 29
    ensures b.Message() == CurrencyLength.Message() ==> b == CurrencyLength
  {
    WidthNames29(b);
    NotionalCurrencyRequiredDiffersFromCurrencyLength();
    ReceiverRequiredDiffersFromCurrencyLength();
  }

  /** Fixed issues of width 29 with the same message are the same issue. */
  lemma DistinctOfWidth29(a: Issue, b: Issue)
    requires Fixed(a) && Fixed(b) && Width(a) == Width(b) == 29
    ensures a.Message() == b.Message() ==> a == b
  {
    WidthNames29(a);
    if a == NotionalCurrencyRequired {
      OnlyTextOfNotionalCurrencyRequired(b);
    } else if a == ReceiverRequired {
      OnlyTextOfReceiverRequired(b);
    } else {
      OnlyTextOfCurrencyLength(b);
    }
  }

  /** `NotionalNotPositive` and `RevisionNotPositive` have different messages of width 32. */
  lemma NotionalNotPositiveDiffersFromRevisionNotPositive()
    ensures NotionalNotPositive.Message() != RevisionNotPositive.Message()
  {
  }

  /** Fixed issues of width 32 with the same message are the same issue. */
  lemma DistinctOfWidth32(a: Issue, b: Issue)
    requires Fixed(a) && Fixed(b) && Width(a) == Width(b) == 32
    ensures a.Message() == b.Message() ==> a == b
  {
    WidthNames32(a);
    WidthNames32(b);
    NotionalNotPositiveDiffersFromRevisionNotPositive();
  }

  /** Fixed issues of the same width with the same message are the same issue. */
  lemma DistinctOfSameWidth(a: Issue, b: Issue)
    requires Fixed(a) && Fixed(b) && Width(a) == Width(b)
    ensures a.Message() == b.Message() ==> a == b
  {
    if Width(a) == 18 {
      WidthNames18(a);
      WidthNames18(b);
    } else if Width(a) == 20 {
      DistinctOfWidth20(a, b);
    } else if Width(a) == 21 {
      WidthNames21(a);
      WidthNames21(b);
    } else if Width(a) == 22 {
      DistinctOfWidth22(a, b);
    } else if Width(a) == 23 {
      DistinctOfWidth23(a, b);
    } else if Width(a) == 24 {
      DistinctOfWidth24(a, b);
    } else if Width(a) == 25 {
      WidthNames25(a);
      WidthNames25(b);
    } else if Width(a) == 26 {
      DistinctOfWidth26(a, b);
    } else if Width(a) == 27 {
      DistinctOfWidth27(a, b);
    } else if Width(a) == 29 {
      DistinctOfWidth29(a, b);
    } else if Width(a) == 30 {
      WidthNames30(a);
      WidthNames30(b);
    } else if Width(a) == 32 {
      DistinctOfWidth32(a, b);
    } else if Width(a) == 34 {
      WidthNames34(a);
      WidthNames34(b);
    } else if Width(a) == 35 {
      WidthNames35(a);
      WidthNames35(b);
    } else if Width(a) == 37 {
      WidthNames37(a);
      WidthNames37(b);
    } else if Width(a) == 38 {
      WidthNames38(a);
      WidthNames38(b);
    } else if Width(a) == 42 {
      WidthNames42(a);
      WidthNames42(b);
    } else if Width(a) == 43 {
      WidthNames43(a);
      WidthNames43(b);
    } else if Width(a) == 48 {
      WidthNames48(a);
      WidthNames48(b);
    } else {
      WidthNames49(a);
      WidthNames49(b);
    }
  }

  /** Two fixed issues with the same message are the same issue. */
  lemma FixedMessagesDistinct(a: Issue, b: Issue)
    requires Fixed(a) && Fixed(b)
    ensures a.Message() == b.Message() <==> a == b
  {
    if a.Message() == b.Message() {
      FixedLength(a);
      FixedLength(b);
      DistinctOfSameWidth(a, b);
    }
  }

  /** The window prefixes are longer than every fixed message and differ at index 25. */
  lemma WindowPrefixes(x: string, y: string)
    ensures |BeforeEffectivePrefix| == 57 && |AfterTerminationPrefix| == 58
    ensures BeforeEffectivePrefix + x != AfterTerminationPrefix + y
  {
    assert (BeforeEffectivePrefix + x)[25] == 'b';
    assert (AfterTerminationPrefix + y)[25] == 'a';
  }

  /** A common prefix cancels. */
  lemma PrefixCancels(p: string, x: string, y: string)
    ensures p + x == p + y <==> x == y
  {
    if p + x == p + y {
      assert x == (p + x)[|p|..];
      assert y == (p + y)[|p|..];
    }
  }

  /** A window message is its prefix followed by the rendered position id. */
  lemma WindowMessage(i: Issue)
    requires !Fixed(i)
    ensures i.ValuationBeforeEffective? ==> i.Message() == BeforeEffectivePrefix + ShowNullable(i.positionId)
    ensures i.ValuationAfterTermination? ==> i.Message() == AfterTerminationPrefix + ShowNullable(i.positionId)
  {
  }

  /** A window message is longer than every fixed one. */
  lemma WindowMessageLong(i: Issue)
    requires !Fixed(i)
    ensures |i.Message()| >= 57
  {
    WindowMessage(i);
    WindowPrefixes(ShowNullable(i.positionId), ShowNullable(i.positionId));
  }

  /** A window message determines the kind of window issue and the rendered id. */
  lemma WindowMessagesDistinct(a: Issue, b: Issue)
    requires !Fixed(a) && !Fixed(b)
    ensures a.Message() == b.Message() <==> SameReport(a, b)
  {
    var x, y := ShowNullable(a.positionId), ShowNullable(b.positionId);
    WindowMessage(a);
    WindowMessage(b);
    if a.ValuationBeforeEffective? && b.ValuationBeforeEffective? {
      PrefixCancels(BeforeEffectivePrefix, x, y);
    } else if a.ValuationAfterTermination? && b.ValuationAfterTermination? {
      PrefixCancels(AfterTerminationPrefix, x, y);
    } else if a.ValuationBeforeEffective? {
      WindowPrefixes(x, y);
    } else {
      WindowPrefixes(y, x);
    }
  }

  /**
   * The messages a validator returns identify its issues: two issues render
   * the same text exactly when they are the same report.
   */
  lemma MessageInjective(a: Issue, b: Issue)
    ensures a.Message() == b.Message() <==> SameReport(a, b)
  {
    if Fixed(a) && Fixed(b) {
      FixedMessagesDistinct(a, b);
    } else if !Fixed(a) && !Fixed(b) {
      WindowMessagesDistinct(a, b);
    } else if Fixed(a) {
      FixedLength(a);
      WindowMessageLong(b);
    } else {
      FixedLength(b);
      WindowMessageLong(a);
    }
  }

  /** A fixed issue's message is rendered by that issue alone. */
  lemma FixedMessageNames(a: Issue, i: Issue)
    requires Fixed(i)
    ensures a.Message() == i.Message() ==> a == i
  {
    MessageInjective(a, i);
  }

  /** A fixed issue was raised exactly when its message is among the returned messages. */
  lemma MessagesReport(issues: seq<Issue>, i: Issue)
    requires Fixed(i)
    ensures i.Message() in Messages(issues) <==> i in issues
  {
    var r := Messages(issues);
    if i.Message() in r {
      var k :| 0 <= k < |r| && r[k] == i.Message();
      FixedMessageNames(issues[k], i);
    }
    if i in issues {
      var k :| 0 <= k < |issues| && issues[k] == i;
      assert r[k] == i.Message();
    }
  }

  /** Rendering distributes over concatenation, so message order is issue order. */
  lemma MessagesAppend(a: seq<Issue>, b: seq<Issue>)
    ensures Messages(a + b) == Messages(a) + Messages(b)
  {
    var l, r := Messages(a + b), Messages(a) + Messages(b);
    forall k | 0 <= k < |l|
      ensures l[k] == r[k]
    {
      if k < |a| {
        assert (a + b)[k] == a[k];
      } else {
        assert (a + b)[k] == b[k - |a|];
      }
    }
  }
}
