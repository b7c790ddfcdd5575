/**
 * The CDM domain records the validators and the persistence mapper read:
 * `Trade`, `Position`, `Lot`, `LifecycleEvent` and `Cashflow`, with the
 * cashflow enums and the defaults its builder fills in.
 *
 * Every reference field of the Java classes may be null, so each is an
 * `Option`. Amounts (`BigDecimal`) are exact reals, scale ignored.
 */
module Domain {
  import opened Common

  /** Kinds of cashflow known to the domain; `RESET` has no persistence counterpart. */
  datatype CashflowType = ACCRUAL | INTEREST | FEE | DIVIDEND | PRINCIPAL | RESET
  {
    /** `Enum.name()`. */
    function Name(): string {
      match this
      case ACCRUAL => "ACCRUAL"
      case INTEREST => "INTEREST"
      case FEE => "FEE"
      case DIVIDEND => "DIVIDEND"
      case PRINCIPAL => "PRINCIPAL"
      case RESET => "RESET"
    }
  }

  datatype PaymentType = ACCRUAL | PRINCIPAL | DIVIDEND | FEE
  {
    function Name(): string {
      match this
      case ACCRUAL => "ACCRUAL"
      case PRINCIPAL => "PRINCIPAL"
      case DIVIDEND => "DIVIDEND"
      case FEE => "FEE"
    }
  }

  datatype CashflowStatus = ACCRUAL | SCHEDULED_PAYMENT | PAID_NOTSETTLED | SETTLED
  {
    function Name(): string {
      match this
      case ACCRUAL => "ACCRUAL"
      case SCHEDULED_PAYMENT => "SCHEDULED_PAYMENT"
      case PAID_NOTSETTLED => "PAID_NOTSETTLED"
      case SETTLED => "SETTLED"
    }
  }

  /** Every constant of each domain enum, in declaration order. */
  const AllCashflowTypes: seq<CashflowType> :=
    [CashflowType.ACCRUAL, CashflowType.INTEREST, CashflowType.FEE,
     CashflowType.DIVIDEND, CashflowType.PRINCIPAL, CashflowType.RESET]
  const AllPaymentTypes: seq<PaymentType> :=
    [PaymentType.ACCRUAL, PaymentType.PRINCIPAL, PaymentType.DIVIDEND, PaymentType.FEE]
  const AllStatuses: seq<CashflowStatus> :=
    [CashflowStatus.ACCRUAL, CashflowStatus.SCHEDULED_PAYMENT,
     CashflowStatus.PAID_NOTSETTLED, CashflowStatus.SETTLED]

  /** The `name()` strings of each domain enum. */
  function CashflowTypeNames(): set<string> {
    set t | t in AllCashflowTypes :: t.Name()
  }
  function PaymentTypeNames(): set<string> {
    set t | t in AllPaymentTypes :: t.Name()
  }
  function StatusNames(): set<string> {
    set t | t in AllStatuses :: t.Name()
  }

  /** The domain `CashflowType` has exactly six kinds, one of them `RESET`, and names tell them apart. */
  lemma CashflowTypeCatalogue()
    ensures forall t: CashflowType :: t in AllCashflowTypes
    ensures forall t: CashflowType, u: CashflowType :: t.Name() == u.Name() ==> t == u
    ensures CashflowTypeNames() == {"ACCRUAL", "INTEREST", "FEE", "DIVIDEND", "PRINCIPAL", "RESET"}
    ensures |CashflowTypeNames()| == 6
  {
    forall t: CashflowType
      ensures t in AllCashflowTypes
    {
      match t
      case ACCRUAL => assert t == AllCashflowTypes[0];
      case INTEREST => assert t == AllCashflowTypes[1];
      case FEE => assert t == AllCashflowTypes[2];
      case DIVIDEND => assert t == AllCashflowTypes[3];
      case PRINCIPAL => assert t == AllCashflowTypes[4];
      case RESET => assert t == AllCashflowTypes[5];
    }
    var names := CashflowTypeNames();
    assert names == {"ACCRUAL", "INTEREST", "FEE", "DIVIDEND", "PRINCIPAL", "RESET"} by {
      forall n | n in names
        ensures n in {"ACCRUAL", "INTEREST", "FEE", "DIVIDEND", "PRINCIPAL", "RESET"}
      {
      }
      assert CashflowType.ACCRUAL.Name() in names;
      assert CashflowType.INTEREST.Name() in names;
      assert CashflowType.FEE.Name() in names;
      assert CashflowType.DIVIDEND.Name() in names;
      assert CashflowType.PRINCIPAL.Name() in names;
      assert CashflowType.RESET.Name() in names;
    }
    DistinctNamesCount6("ACCRUAL", "INTEREST", "FEE", "DIVIDEND", "PRINCIPAL", "RESET");
  }

  lemma DistinctNamesCount6(a: string, b: string, c: string, d: string, e: string, f: string)
    requires a !in {b, c, d, e, f} && b !in {c, d, e, f} && c !in {d, e, f} && d !in {e, f} && e != f
    ensures |{a, b, c, d, e, f}| == 6
  {
    assert |{f}| == 1;
    assert |{e, f}| == 2 by { assert {e, f} == {e} + {f}; }
    assert |{d, e, f}| == 3 by { assert {d, e, f} == {d} + {e, f}; }
    assert |{c, d, e, f}| == 4 by { assert {c, d, e, f} == {c} + {d, e, f}; }
    assert |{b, c, d, e, f}| == 5 by { assert {b, c, d, e, f} == {b} + {c, d, e, f}; }
    assert {a, b, c, d, e, f} == {a} + {b, c, d, e, f};
  }

  /** A lot; only whether a position has any lot matters to the modelled core. */
  datatype Lot = Lot(
    lotId: Option<string>,
    positionId: Option<string>,
    tradeId: Option<string>,
    quantity: Option<real>,
    unitPrice: Option<real>,
    currency: Option<string>)

  datatype Position = Position(
    positionId: Option<string>,
    tradeId: Option<string>,
    underlierId: Option<string>,
    notionalAmount: Option<real>,
    notionalCurrency: Option<string>,
    effectiveDate: Option<Date>,
    terminationDate: Option<Date>,
    lots: Option<seq<Lot>>)

  /** A trade; its position list may be null and may hold null elements. */
  datatype Trade = Trade(
    tradeId: Option<string>,
    productId: Option<string>,
    tradeDate: Option<Date>,
    positions: Option<seq<Option<Position>>>)

  /** The fields of a lifecycle event the validator reads; `eventType` is the subclass's `getEventType()`. */
  datatype LifecycleEvent = LifecycleEvent(
    eventId: Option<string>,
    tradeId: Option<string>,
    timestamp: Option<Instant>,
    eventType: Option<string>)

  datatype Cashflow = Cashflow(
    cashflowId: Option<string>,
    tradeId: Option<string>,
    positionId: Option<string>,
    lotId: Option<string>,
    cashflowType: Option<CashflowType>,
    payerPartyId: Option<string>,
    receiverPartyId: Option<string>,
    currency: Option<string>,
    amount: Option<real>,
    settlementDate: Option<Date>,
    paymentType: Option<PaymentType>,
    cashflowStatus: Option<CashflowStatus>,
    originEventId: Option<string>,
    revisionNumber: Option<int>,
    isCancelled: Option<bool>,
    cancellationReason: Option<string>,
    statusTransitionTimestamp: Option<Instant>,
    settlementReference: Option<string>,
    createdTimestamp: Option<Instant>,
    updatedTimestamp: Option<Instant>)

  /** The builder's initial values: every field null before any setter is called. */
  const Unset: Cashflow := Cashflow(None, None, None, None, None, None, None, None, None, None,
                                    None, None, None, None, None, None, None, None, None, None)

  /**
   * Lombok builder state: the values given to setters so far, and whether
   * each `@Builder.Default` field had its setter called.
   */
  datatype CashflowBuilder = CashflowBuilder(
    values: Cashflow,
    statusSet: bool,
    revisionSet: bool,
    cancelledSet: bool)

  /** `Cashflow.builder()`. */
  const NewBuilder: CashflowBuilder := CashflowBuilder(Unset, false, false, false)

  /** The builder's three defaults: status ACCRUAL, revision 1, not cancelled. */
  const DefaultStatus: CashflowStatus := CashflowStatus.ACCRUAL
  const DefaultRevision: int := 1
  const DefaultCancelled: bool := false

  /**
   * `build()`: a field whose setter was called keeps what was given (even null);
   * an unset `@Builder.Default` field takes its default.
   */
  function Build(b: CashflowBuilder): (c: Cashflow)
    ensures c.cashflowStatus == (if b.statusSet then b.values.cashflowStatus else Some(DefaultStatus))
    ensures c.revisionNumber == (if b.revisionSet then b.values.revisionNumber else Some(DefaultRevision))
    ensures c.isCancelled == (if b.cancelledSet then b.values.isCancelled else Some(DefaultCancelled))
    ensures c.(cashflowStatus := b.values.cashflowStatus,
               revisionNumber := b.values.revisionNumber,
               isCancelled := b.values.isCancelled) == b.values
  {
    b.values.(
      cashflowStatus := if b.statusSet then b.values.cashflowStatus else Some(DefaultStatus),
      revisionNumber := if b.revisionSet then b.values.revisionNumber else Some(DefaultRevision),
      isCancelled := if b.cancelledSet then b.values.isCancelled else Some(DefaultCancelled))
  }

  /**
   * A cashflow built without calling the three defaulted setters is in status
   * ACCRUAL, at revision 1 and not cancelled, whatever the other setters gave.
   */
  lemma FreshCashflowDefaults(v: Cashflow)
    ensures var c := Build(CashflowBuilder(v, false, false, false));
      && c.cashflowStatus == Some(CashflowStatus.ACCRUAL)
      && c.revisionNumber == Some(1)
      && c.isCancelled == Some(false)
      && c.cashflowId == v.cashflowId && c.amount == v.amount && c.currency == v.currency
  {
  }

  /** `@Size(max = 50)`: a null value passes. */
  predicate AtMost50(x: Option<string>) {
    x.None? || |x.value| <= 50
  }

  /**
   * The bean-validation annotations declared on `Cashflow`: `@NotBlank`
   * ids, parties and currency, `@NotNull` type, amount, date and payment
   * type, 50-character ids, a currency of exactly 3 characters and 100-character
   * free-text fields.
   */
  predicate DeclaredConstraints(c: Cashflow) {
    && !IsBlank(c.cashflowId) && AtMost50(c.cashflowId)
    && !IsBlank(c.tradeId) && AtMost50(c.tradeId)
    && !IsBlank(c.positionId) && AtMost50(c.positionId)
    && AtMost50(c.lotId)
    && c.cashflowType.Some?
    && !IsBlank(c.payerPartyId) && AtMost50(c.payerPartyId)
    && !IsBlank(c.receiverPartyId) && AtMost50(c.receiverPartyId)
    && !IsBlank(c.currency) && |c.currency.value| == 3
    && c.amount.Some?
    && c.settlementDate.Some?
    && c.paymentType.Some?
    && !IsBlank(c.originEventId) && AtMost50(c.originEventId)
    && (c.cancellationReason.None? || |c.cancellationReason.value| <= 100)
    && (c.settlementReference.None? || |c.settlementReference.value| <= 100)
  }
}
