/**
 * The JPA entity a cashflow is persisted as, its own enums with their
 * `valueOf` lookups, and the `@PrePersist` / `@PreUpdate` hooks that fill
 * defaults and timestamps.
 */
module Entity {
  import opened Common
  import Domain

  /** Entity cashflow kinds: the domain's without `RESET`, plus three of its own. */
  datatype CashflowType = ACCRUAL | INTEREST | FEE | DIVIDEND | PRINCIPAL | COUPON | SETTLEMENT | TERMINATION
  {
    function Name(): string {
      match this
      case ACCRUAL => "ACCRUAL"
      case INTEREST => "INTEREST"
      case FEE => "FEE"
      case DIVIDEND => "DIVIDEND"
      case PRINCIPAL => "PRINCIPAL"
      case COUPON => "COUPON"
      case SETTLEMENT => "SETTLEMENT"
      case TERMINATION => "TERMINATION"
    }
  }

  /** Entity payment types carry the same eight names as the entity cashflow kinds. */
  datatype PaymentType = ACCRUAL | INTEREST | FEE | DIVIDEND | PRINCIPAL | COUPON | SETTLEMENT | TERMINATION
  {
    function Name(): string {
      match this
      case ACCRUAL => "ACCRUAL"
      case INTEREST => "INTEREST"
      case FEE => "FEE"
      case DIVIDEND => "DIVIDEND"
      case PRINCIPAL => "PRINCIPAL"
      case COUPON => "COUPON"
      case SETTLEMENT => "SETTLEMENT"
      case TERMINATION => "TERMINATION"
    }
  }

  datatype CashflowStatus = ACCRUAL | SCHEDULED_PAYMENT | PAID_NOTSETTLED | SETTLED
  {
    function Name(): string {
      match this
      case ACCRUAL => "ACCRUAL"
      case SCHEDULED_PAYMENT => "SCHEDULED_PAYMENT"
      case PAID_NOTSETTLED => "PAID_NOTSETTLED"
      case SETTLED => "SETTLED"
    }
  }

  /**
   * `CashflowType.valueOf(s)`: the constant named exactly `s`, or `None`
   * where Java throws `IllegalArgumentException`.
   */
  function ParseCashflowType(s: string): (r: Option<CashflowType>)
    ensures r.Some? ==> r.value.Name() == s
    ensures r.None? <==> forall t: CashflowType :: t.Name() != s
  {
    if s == "ACCRUAL" then Some(CashflowType.ACCRUAL)
    else if s == "INTEREST" then Some(CashflowType.INTEREST)
    else if s == "FEE" then Some(CashflowType.FEE)
    else if s == "DIVIDEND" then Some(CashflowType.DIVIDEND)
    else if s == "PRINCIPAL" then Some(CashflowType.PRINCIPAL)
    else if s == "COUPON" then Some(CashflowType.COUPON)
    else if s == "SETTLEMENT" then Some(CashflowType.SETTLEMENT)
    else if s == "TERMINATION" then Some(CashflowType.TERMINATION)
    else None
  }

  /** `PaymentType.valueOf(s)`. */
  function ParsePaymentType(s: string): (r: Option<PaymentType>)
    ensures r.Some? ==> r.value.Name() == s
    ensures r.None? <==> forall t: PaymentType :: t.Name() != s
  {
    if s == "ACCRUAL" then Some(PaymentType.ACCRUAL)
    else if s == "INTEREST" then Some(PaymentType.INTEREST)
    else if s == "FEE" then Some(PaymentType.FEE)
    else if s == "DIVIDEND" then Some(PaymentType.DIVIDEND)
    else if s == "PRINCIPAL" then Some(PaymentType.PRINCIPAL)
    else if s == "COUPON" then Some(PaymentType.COUPON)
    else if s == "SETTLEMENT" then Some(PaymentType.SETTLEMENT)
    else if s == "TERMINATION" then Some(PaymentType.TERMINATION)
    else None
  }

  /** `CashflowStatus.valueOf(s)`. */
  function ParseStatus(s: string): (r: Option<CashflowStatus>)
    ensures r.Some? ==> r.value.Name() == s
    ensures r.None? <==> forall t: CashflowStatus :: t.Name() != s
  {
    if s == "ACCRUAL" then Some(CashflowStatus.ACCRUAL)
    else if s == "SCHEDULED_PAYMENT" then Some(CashflowStatus.SCHEDULED_PAYMENT)
    else if s == "PAID_NOTSETTLED" then Some(CashflowStatus.PAID_NOTSETTLED)
    else if s == "SETTLED" then Some(CashflowStatus.SETTLED)
    else None
  }

  /** `valueOf(name())` gives back the constant: names are unique within each enum. */
  lemma ParseNameRoundTrip(t: CashflowType, p: PaymentType, st: CashflowStatus)
    ensures ParseCashflowType(t.Name()) == Some(t)
    ensures ParsePaymentType(p.Name()) == Some(p)
    ensures ParseStatus(st.Name()) == Some(st)
  {
  }

  /** Every constant of each entity enum, in declaration order. */
  const AllCashflowTypes: seq<CashflowType> :=
    [CashflowType.ACCRUAL, CashflowType.INTEREST, CashflowType.FEE, CashflowType.DIVIDEND,
     CashflowType.PRINCIPAL, CashflowType.COUPON, CashflowType.SETTLEMENT, CashflowType.TERMINATION]
  const AllPaymentTypes: seq<PaymentType> :=
    [PaymentType.ACCRUAL, PaymentType.INTEREST, PaymentType.FEE, PaymentType.DIVIDEND,
     PaymentType.PRINCIPAL, PaymentType.COUPON, PaymentType.SETTLEMENT, PaymentType.TERMINATION]
  const AllStatuses: seq<CashflowStatus> :=
    [CashflowStatus.ACCRUAL, CashflowStatus.SCHEDULED_PAYMENT,
     CashflowStatus.PAID_NOTSETTLED, CashflowStatus.SETTLED]

  function CashflowTypeNames(): set<string> {
    set t | t in AllCashflowTypes :: t.Name()
  }
  function PaymentTypeNames(): set<string> {
    set t | t in AllPaymentTypes :: t.Name()
  }
  function StatusNames(): set<string> {
    set t | t in AllStatuses :: t.Name()
  }

  /** The entity `CashflowType` list is complete. */
  lemma EntityTypesListed()
    ensures forall t: CashflowType :: t in AllCashflowTypes
  {
    forall t: CashflowType
      ensures t in AllCashflowTypes
    {
      match t
      case ACCRUAL => assert t == AllCashflowTypes[0];
      case INTEREST => assert t == AllCashflowTypes[1];
      case FEE => assert t == AllCashflowTypes[2];
      case DIVIDEND => assert t == AllCashflowTypes[3];
      case PRINCIPAL => assert t == AllCashflowTypes[4];
      case COUPON => assert t == AllCashflowTypes[5];
      case SETTLEMENT => assert t == AllCashflowTypes[6];
      case TERMINATION => assert t == AllCashflowTypes[7];
    }
  }

  /** The eight entity `CashflowType` names. */
  lemma EntityTypeNames()
    ensures CashflowTypeNames()
         == {"ACCRUAL", "INTEREST", "FEE", "DIVIDEND", "PRINCIPAL", "COUPON", "SETTLEMENT", "TERMINATION"}
  {
    var names := CashflowTypeNames();
    forall n | n in names
      ensures n in {"ACCRUAL", "INTEREST", "FEE", "DIVIDEND", "PRINCIPAL", "COUPON", "SETTLEMENT", "TERMINATION"}
    {
    }
    assert CashflowType.ACCRUAL.Name() in names;
    assert CashflowType.INTEREST.Name() in names;
    assert CashflowType.FEE.Name() in names;
    assert CashflowType.DIVIDEND.Name() in names;
    assert CashflowType.PRINCIPAL.Name() in names;
    assert CashflowType.COUPON.Name() in names;
    assert CashflowType.SETTLEMENT.Name() in names;
    assert CashflowType.TERMINATION.Name() in names;
  }

  /**
   * The entity `CashflowType` names are the domain's, less `RESET`, plus
   * `COUPON`, `SETTLEMENT` and `TERMINATION`.
   */
  lemma EntityTypeNamesVersusDomain()
    ensures forall t: CashflowType :: t in AllCashflowTypes
    ensures CashflowTypeNames()
         == (Domain.CashflowTypeNames() - {"RESET"}) + {"COUPON", "SETTLEMENT", "TERMINATION"}
  {
    EntityTypesListed();
    EntityTypeNames();
    Domain.CashflowTypeCatalogue();
  }

  /** The entity and domain `CashflowStatus` enums have exactly the same four names. */
  lemma StatusNamesAgree()
    ensures StatusNames() == Domain.StatusNames()
    ensures StatusNames() == {"ACCRUAL", "SCHEDULED_PAYMENT", "PAID_NOTSETTLED", "SETTLED"}
  {
    var names := StatusNames();
    forall n | n in names
      ensures n in {"ACCRUAL", "SCHEDULED_PAYMENT", "PAID_NOTSETTLED", "SETTLED"}
    {
    }
    assert CashflowStatus.ACCRUAL.Name() in names;
    assert CashflowStatus.SCHEDULED_PAYMENT.Name() in names;
    assert CashflowStatus.PAID_NOTSETTLED.Name() in names;
    assert CashflowStatus.SETTLED.Name() in names;
    var dnames := Domain.StatusNames();
    forall n | n in dnames
      ensures n in {"ACCRUAL", "SCHEDULED_PAYMENT", "PAID_NOTSETTLED", "SETTLED"}
    {
    }
    assert Domain.CashflowStatus.ACCRUAL.Name() in dnames;
    assert Domain.CashflowStatus.SCHEDULED_PAYMENT.Name() in dnames;
    assert Domain.CashflowStatus.PAID_NOTSETTLED.Name() in dnames;
    assert Domain.CashflowStatus.SETTLED.Name() in dnames;
  }

  /** Every domain payment type name is also an entity payment type name. */
  lemma PaymentNamesCovered()
    ensures Domain.PaymentTypeNames() <= PaymentTypeNames()
  {
    var names := PaymentTypeNames();
    assert PaymentType.ACCRUAL.Name() in names;
    assert PaymentType.PRINCIPAL.Name() in names;
    assert PaymentType.DIVIDEND.Name() in names;
    assert PaymentType.FEE.Name() in names;
  }

  /** The `cashflows` table row. */
  datatype CashflowEntity = CashflowEntity(
    cashflowId: Option<string>,
    tradeId: Option<string>,
    positionId: Option<string>,
    lotId: Option<string>,
    cashflowType: Option<CashflowType>,
    payerPartyId: Option<string>,
    receiverPartyId: Option<string>,
    currency: Option<string>,
    amount: Option<real>,
    settlementDate: Option<Date>,
    paymentType: Option<PaymentType>,
    cashflowStatus: Option<CashflowStatus>,
    statusTransitionTimestamp: Option<Instant>,
    settlementReference: Option<string>,
    originEventId: Option<string>,
    revisionNumber: Option<int>,
    isCancelled: Option<bool>,
    createdTimestamp: Option<Instant>,
    updatedTimestamp: Option<Instant>)

  /** The four fields `@PrePersist` may fill. */
  predicate HasCreateDefaults(e: CashflowEntity) {
    && e.createdTimestamp.Some?
    && e.updatedTimestamp.Some?
    && e.revisionNumber.Some?
    && e.isCancelled.Some?
  }

  /** `v` if it is non-null, else `d`. */
  function OrElse<T>(v: Option<T>, d: T): (r: Option<T>)
  {
    if v.Some? then v else Some(d)
  }

  /**
   * `@PrePersist onCreate()` at clock reading `now`: fills the created and
   * updated timestamps with `now`, the revision with 1 and the cancellation
   * flag with false, each only where it is null.
   */
  function OnCreate(e: CashflowEntity, now: Instant): (r: CashflowEntity)
    ensures HasCreateDefaults(r)
    ensures e.createdTimestamp.Some? ==> r.createdTimestamp == e.createdTimestamp
    ensures e.createdTimestamp.None? ==> r.createdTimestamp == Some(now)
    ensures e.updatedTimestamp.Some? ==> r.updatedTimestamp == e.updatedTimestamp
    ensures e.updatedTimestamp.None? ==> r.updatedTimestamp == Some(now)
    ensures e.revisionNumber.Some? ==> r.revisionNumber == e.revisionNumber
    ensures e.revisionNumber.None? ==> r.revisionNumber == Some(1)
    ensures e.isCancelled.Some? ==> r.isCancelled == e.isCancelled
    ensures e.isCancelled.None? ==> r.isCancelled == Some(false)
    ensures r.(createdTimestamp := e.createdTimestamp, updatedTimestamp := e.updatedTimestamp,
               revisionNumber := e.revisionNumber, isCancelled := e.isCancelled) == e
    ensures HasCreateDefaults(e) ==> r == e
  {
    e.(createdTimestamp := OrElse(e.createdTimestamp, now),
       updatedTimestamp := OrElse(e.updatedTimestamp, now),
       revisionNumber := OrElse(e.revisionNumber, 1),
       isCancelled := OrElse(e.isCancelled, false))
  }

  /** `onCreate` is idempotent: applying it again, at any later clock reading, changes nothing. */
  lemma OnCreateIdempotent(e: CashflowEntity, now: Instant, later: Instant)
    ensures OnCreate(OnCreate(e, now), later) == OnCreate(e, now)
  {
  }

  /** `@PreUpdate onUpdate()`: stamps `updatedTimestamp` with `now` and touches nothing else. */
  function OnUpdate(e: CashflowEntity, now: Instant): (r: CashflowEntity)
    ensures r.updatedTimestamp == Some(now)
    ensures r.(updatedTimestamp := e.updatedTimestamp) == e
  {
    e.(updatedTimestamp := Some(now))
  }

  /** After an update the created-defaults are still in place if they were before. */
  lemma OnUpdateKeepsCreateDefaults(e: CashflowEntity, now: Instant)
    requires HasCreateDefaults(e)
    ensures HasCreateDefaults(OnUpdate(e, now))
    ensures OnCreate(OnUpdate(e, now), now) == OnUpdate(e, now)
  {
  }
}
