/**
 * `CashflowPersistenceService`: the mapping from domain cashflows to
 * `cashflows` table rows, batch saving, the status update and the parsing of
 * the string filters of the cashflow search.
 *
 * The table is a map from cashflow id to row. Saving a row whose id is
 * already present fires `@PreUpdate`; saving a new one fires `@PrePersist`.
 * A Java exception becomes a `Failure`; since every public operation is
 * transactional, a failure leaves the table as it was.
 */
module Persistence {
  import opened Common
  import Domain
  import opened Entity

  /** The exceptions the modelled code can raise. */
  datatype Error =
    | NullPointer                     // `name()` of a null enum, `valueOf(null)`
    | NoEnumConstant(name: string)    // `valueOf` of a name the entity enum lacks
    | MissingId                       // persisting a row whose assigned `@Id` is null
    | IllegalPageRequest              // `PageRequest.of` with a negative page or a size below 1

  datatype Result<T> = Success(value: T) | Failure(error: Error)

  // ------------------------------------------------------------ enum mapping

  /**
   * `convertCashflowType`: the entity constant of the same name. A null type
   * and the domain-only `RESET` fail.
   */
  function ConvertCashflowType(t: Option<Domain.CashflowType>): (r: Result<CashflowType>)
    ensures r.Success? <==> t.Some? && t.value != Domain.CashflowType.RESET
    ensures r.Success? ==> r.value.Name() == t.value.Name()
    ensures t.None? ==> r == Failure(NullPointer)
    ensures t == Some(Domain.CashflowType.RESET) ==> r == Failure(NoEnumConstant("RESET"))
  {
    if t.None? then Failure(NullPointer)
    else match ParseCashflowType(t.value.Name())
      case Some(e) => Success(e)
      case None => Failure(NoEnumConstant(t.value.Name()))
  }

  /** `convertPaymentType`: defined on every non-null domain payment type, by name. */
  function ConvertPaymentType(p: Option<Domain.PaymentType>): (r: Result<PaymentType>)
    ensures r.Success? <==> p.Some?
    ensures r.Success? ==> r.value.Name() == p.value.Name()
    ensures p.None? ==> r == Failure(NullPointer)
  {
    if p.None? then Failure(NullPointer)
    else match ParsePaymentType(p.value.Name())
      case Some(e) => Success(e)
      case None => assert false; Failure(NullPointer)
  }

  /** `convertCashflowStatus`: defined on every non-null domain status, by name. */
  function ConvertCashflowStatus(s: Option<Domain.CashflowStatus>): (r: Result<CashflowStatus>)
    ensures r.Success? <==> s.Some?
    ensures r.Success? ==> r.value.Name() == s.value.Name()
    ensures s.None? ==> r == Failure(NullPointer)
  {
    if s.None? then Failure(NullPointer)
    else match ParseStatus(s.value.Name())
      case Some(e) => Success(e)
      case None => assert false; Failure(NullPointer)
  }

  /** The type conversion is injective where it is defined: distinct domain types never collide. */
  lemma ConversionsInjective(a: Domain.CashflowType, b: Domain.CashflowType,
                             p: Domain.PaymentType, q: Domain.PaymentType,
                             s: Domain.CashflowStatus, u: Domain.CashflowStatus)
    ensures ConvertCashflowType(Some(a)).Success? && ConvertCashflowType(Some(a)) == ConvertCashflowType(Some(b)) ==> a == b
    ensures ConvertPaymentType(Some(p)) == ConvertPaymentType(Some(q)) ==> p == q
    ensures ConvertCashflowStatus(Some(s)) == ConvertCashflowStatus(Some(u)) ==> s == u
  {
  }

  // ------------------------------------------------------- domain to entity

  /** A cashflow `convertToEntity` accepts: its three enums are set and its type is not `RESET`. */
  predicate Convertible(c: Domain.Cashflow) {
    && c.cashflowType.Some? && c.cashflowType.value != Domain.CashflowType.RESET
    && c.paymentType.Some?
    && c.cashflowStatus.Some?
  }

  /**
   * Row `e` carries cashflow `c`: every field copied unchanged, the enums by
   * name. The domain's cancellation reason has no column and is not carried.
   */
  predicate Mirrors(e: CashflowEntity, c: Domain.Cashflow) {
    && e.cashflowId == c.cashflowId
    && e.tradeId == c.tradeId
    && e.positionId == c.positionId
    && e.lotId == c.lotId
    && e.cashflowType.Some? && c.cashflowType.Some? && e.cashflowType.value.Name() == c.cashflowType.value.Name()
    && e.payerPartyId == c.payerPartyId
    && e.receiverPartyId == c.receiverPartyId
    && e.currency == c.currency
    && e.amount == c.amount
    && e.settlementDate == c.settlementDate
    && e.paymentType.Some? && c.paymentType.Some? && e.paymentType.value.Name() == c.paymentType.value.Name()
    && e.cashflowStatus.Some? && c.cashflowStatus.Some?
    && e.cashflowStatus.value.Name() == c.cashflowStatus.value.Name()
    && e.statusTransitionTimestamp == c.statusTransitionTimestamp
    && e.settlementReference == c.settlementReference
    && e.originEventId == c.originEventId
    && e.revisionNumber == c.revisionNumber
    && e.isCancelled == c.isCancelled
    && e.createdTimestamp == c.createdTimestamp
    && e.updatedTimestamp == c.updatedTimestamp
  }

  /**
   * `convertToEntity`: the builder's arguments are evaluated in order, so the
   * type conversion fails first, then the payment type, then the status.
   */
  function ConvertToEntity(c: Domain.Cashflow): (r: Result<CashflowEntity>)
    ensures r.Success? <==> Convertible(c)
    ensures r.Success? ==> Mirrors(r.value, c)
    ensures c.cashflowType == Some(Domain.CashflowType.RESET) ==> r == Failure(NoEnumConstant("RESET"))
    ensures r.Failure? ==> r.error == NullPointer || r.error == NoEnumConstant("RESET")
  {
    var t := ConvertCashflowType(c.cashflowType);
    if t.Failure? then Failure(t.error)
    else
      var p := ConvertPaymentType(c.paymentType);
      if p.Failure? then Failure(p.error)
      else
        var s := ConvertCashflowStatus(c.cashflowStatus);
        if s.Failure? then Failure(s.error)
        else Success(CashflowEntity(
          c.cashflowId, c.tradeId, c.positionId, c.lotId, Some(t.value),
          c.payerPartyId, c.receiverPartyId, c.currency, c.amount, c.settlementDate,
          Some(p.value), Some(s.value), c.statusTransitionTimestamp, c.settlementReference,
          c.originEventId, c.revisionNumber, c.isCancelled, c.createdTimestamp, c.updatedTimestamp))
  }

  /**
   * Two convertible cashflows map to the same row exactly when they differ at
   * most in their cancellation reason: the mapping forgets that field and nothing else.
   */
  lemma ConversionForgetsOnlyCancellationReason(c: Domain.Cashflow, d: Domain.Cashflow)
    requires Convertible(c) && Convertible(d)
    ensures ConvertToEntity(c) == ConvertToEntity(d) <==> c.(cancellationReason := d.cancellationReason) == d
  {
    if ConvertToEntity(c) == ConvertToEntity(d) {
      var e := ConvertToEntity(c).value;
      assert Mirrors(e, c) && Mirrors(e, d);
      ConversionsInjective(c.cashflowType.value, d.cashflowType.value,
                           c.paymentType.value, d.paymentType.value,
                           c.cashflowStatus.value, d.cashflowStatus.value);
      assert ConvertCashflowType(c.cashflowType) == Success(e.cashflowType.value);
      assert ConvertCashflowType(d.cashflowType) == Success(e.cashflowType.value);
      assert ConvertPaymentType(c.paymentType) == Success(e.paymentType.value);
      assert ConvertPaymentType(d.paymentType) == Success(e.paymentType.value);
      assert ConvertCashflowStatus(c.cashflowStatus) == Success(e.cashflowStatus.value);
      assert ConvertCashflowStatus(d.cashflowStatus) == Success(e.cashflowStatus.value);
    }
  }

  /**
   * A cashflow built without a type is rejected with a null pointer: the
   * builder gives the type no default, so a fresh builder's cashflow is
   * rejected too (`UntypedBuildNotConvertible(Domain.NewBuilder)`).
   */
  lemma UntypedBuildNotConvertible(b: Domain.CashflowBuilder)
    requires b.values.cashflowType.None?
    ensures ConvertToEntity(Domain.Build(b)) == Failure(NullPointer)
  {
  }

  // --------------------------------------------------------------- the table

  /** The `cashflows` table: rows by cashflow id. */
  type Table = map<string, CashflowEntity>

  /** Every row is stored under its own id. */
  predicate WellKeyed(db: Table) {
    forall k :: k in db ==> db[k].cashflowId == Some(k)
  }

  /** `a` and `b` agree on every column the persistence hooks do not fill. */
  predicate SameBusinessFields(a: CashflowEntity, b: CashflowEntity) {
    a.(createdTimestamp := b.createdTimestamp, updatedTimestamp := b.updatedTimestamp,
       revisionNumber := b.revisionNumber, isCancelled := b.isCancelled) == b
  }

  /** The four columns the persistence hooks may fill, as one value. */
  datatype Hooks = Hooks(created: Option<Instant>, updated: Option<Instant>, revision: Option<int>, cancelled: Option<bool>)

  /** The hook columns of a row. */
  function HooksOf(e: CashflowEntity): (h: Hooks)
    ensures h.created == e.createdTimestamp && h.updated == e.updatedTimestamp
    ensures h.revision == e.revisionNumber && h.cancelled == e.isCancelled
  {
    Hooks(e.createdTimestamp, e.updatedTimestamp, e.revisionNumber, e.isCancelled)
  }

  /** The domain fields that become a row's hook columns. */
  function CashflowHooks(c: Domain.Cashflow): (h: Hooks)
    ensures h.created == c.createdTimestamp && h.updated == c.updatedTimestamp
    ensures h.revision == c.revisionNumber && h.cancelled == c.isCancelled
  {
    Hooks(c.createdTimestamp, c.updatedTimestamp, c.revisionNumber, c.isCancelled)
  }

  /**
   * `after` is `before` once `onCreate` ran at `now`: a column that was set
   * keeps its value, a null one takes its default (`now`, `now`, 1, false).
   */
  predicate CreateFilled(after: Hooks, before: Hooks, now: Instant) {
    && after.created == (if before.created.Some? then before.created else Some(now))
    && after.updated == (if before.updated.Some? then before.updated else Some(now))
    && after.revision == (if before.revision.Some? then before.revision else Some(1))
    && after.cancelled == (if before.cancelled.Some? then before.cancelled else Some(false))
  }

  /** `after` is `before` once `onUpdate` ran at `now`: only the updated timestamp changes. */
  predicate UpdateStamped(after: Hooks, before: Hooks, now: Instant) {
    after == before.(updated := Some(now))
  }

  /** `findById`. */
  function FindById(db: Table, id: string): (r: Option<CashflowEntity>)
    ensures r.Some? <==> id in db
    ensures r.Some? ==> r.value == db[id]
  {
    if id in db then Some(db[id]) else None
  }

  /** A table after a save, and the row the save returned. */
  datatype Stored = Stored(db: Table, entity: CashflowEntity)

  /**
   * `repository.save(e)` at clock reading `now`: a row under an existing id
   * replaces it and is stamped by `onUpdate`; a new id is inserted after
   * `onCreate`. A null id cannot be persisted.
   */
  function Save(db: Table, e: CashflowEntity, now: Instant): (r: Result<Stored>)
    ensures r.Success? <==> e.cashflowId.Some?
    ensures r.Success? ==> var id := e.cashflowId.value;
      && r.value.db.Keys == db.Keys + {id}
      && r.value.db[id] == r.value.entity
      && (forall k :: k in db && k != id ==> r.value.db[k] == db[k])
      && SameBusinessFields(r.value.entity, e)
      && (id !in db ==> HasCreateDefaults(r.value.entity))
      && (id !in db ==> CreateFilled(HooksOf(r.value.entity), HooksOf(e), now))
      && (id in db ==> r.value.entity.updatedTimestamp == Some(now))
      && (id in db ==> r.value.entity.(updatedTimestamp := e.updatedTimestamp) == e)
      && (id in db ==> UpdateStamped(HooksOf(r.value.entity), HooksOf(e), now))
  {
    if e.cashflowId.None? then Failure(MissingId)
    else
      var id := e.cashflowId.value;
      var saved := if id in db then OnUpdate(e, now) else OnCreate(e, now);
      Success(Stored(db[id := saved], saved))
  }

  /** Saving keeps every row under its own id. */
  lemma SaveKeepsWellKeyed(db: Table, e: CashflowEntity, now: Instant)
    requires WellKeyed(db)
    ensures Save(db, e, now).Success? ==> WellKeyed(Save(db, e, now).value.db)
  {
  }

  /** The ids of a list of rows, nulls skipped. */
  function Ids(es: seq<CashflowEntity>): set<string> {
    set i | 0 <= i < |es| && es[i].cashflowId.Some? :: es[i].cashflowId.value
  }

  /** No later row of `es` has the id of row `i`. */
  predicate LastWithItsId(es: seq<CashflowEntity>, i: int)
    requires 0 <= i < |es|
  {
    forall j :: i < j < |es| ==> es[j].cashflowId != es[i].cashflowId
  }

  /** The ids of a list of cashflows, nulls skipped. */
  function CashflowIds(cs: seq<Domain.Cashflow>): set<string> {
    set i | 0 <= i < |cs| && cs[i].cashflowId.Some? :: cs[i].cashflowId.value
  }

  /** No later cashflow of `cs` has the id of cashflow `i`. */
  predicate LastCashflowWithItsId(cs: seq<Domain.Cashflow>, i: int)
    requires 0 <= i < |cs|
  {
    forall j :: i < j < |cs| ==> cs[j].cashflowId != cs[i].cashflowId
  }

  /** Rows converted index by index from cashflows have the cashflows' ids, and the same last rows per id. */
  lemma SameIdsAsCashflows(es: seq<CashflowEntity>, cs: seq<Domain.Cashflow>)
    requires |es| == |cs| && forall i :: 0 <= i < |cs| ==> es[i].cashflowId == cs[i].cashflowId
    ensures Ids(es) == CashflowIds(cs)
    ensures forall i :: 0 <= i < |cs| ==> (LastWithItsId(es, i) <==> LastCashflowWithItsId(cs, i))
  {
    forall k | k in Ids(es) ensures k in CashflowIds(cs) {
      var i :| 0 <= i < |es| && es[i].cashflowId.Some? && es[i].cashflowId.value == k;
      assert cs[i].cashflowId == es[i].cashflowId;
    }
    forall k | k in CashflowIds(cs) ensures k in Ids(es) {
      var i :| 0 <= i < |cs| && cs[i].cashflowId.Some? && cs[i].cashflowId.value == k;
      assert cs[i].cashflowId == es[i].cashflowId;
    }
  }

  /** A table after a batch save, and the rows the batch returned. */
  datatype Batch = Batch(db: Table, entities: seq<CashflowEntity>)

  /**
   * The writes of `repository.saveAll(es)`: the rows are saved one after
   * another; any row with a null id fails the whole batch.
   */
  function SaveEach(db: Table, es: seq<CashflowEntity>, now: Instant): (r: Result<Table>)
    ensures r.Success? <==> forall i :: 0 <= i < |es| ==> es[i].cashflowId.Some?
    decreases |es|
  {
    if es == [] then Success(db)
    else
      match Save(db, es[0], now)
      case Failure(err) => Failure(err)
      case Success(first) =>
        assert forall i :: 1 <= i < |es| ==> es[i] == es[1..][i - 1];
        SaveEach(first.db, es[1..], now)
  }

  /** The ids of a non-empty batch: the first row's and those of the rest. */
  lemma IdsCons(es: seq<CashflowEntity>)
    requires es != [] && es[0].cashflowId.Some?
    ensures Ids(es) == {es[0].cashflowId.value} + Ids(es[1..])
  {
    forall k | k in Ids(es) ensures k in {es[0].cashflowId.value} + Ids(es[1..]) {
      var i :| 0 <= i < |es| && es[i].cashflowId.Some? && es[i].cashflowId.value == k;
      if i > 0 { assert es[1..][i - 1] == es[i]; }
    }
    forall k | k in Ids(es[1..]) ensures k in Ids(es) {
      var i :| 0 <= i < |es[1..]| && es[1..][i].cashflowId.Some? && es[1..][i].cashflowId.value == k;
      assert es[i + 1] == es[1..][i];
    }
  }

  /** The saves of a batch add exactly the batch's ids and leave every other row alone. */
  lemma {:induction false} SaveEachTouchesOnlyItsIds(db: Table, es: seq<CashflowEntity>, now: Instant)
    requires SaveEach(db, es, now).Success?
    ensures SaveEach(db, es, now).value.Keys == db.Keys + Ids(es)
    ensures forall k :: k in db && k !in Ids(es) ==> SaveEach(db, es, now).value[k] == db[k]
    decreases |es|
  {
    if es != [] {
      var first := Save(db, es[0], now).value;
      SaveEachTouchesOnlyItsIds(first.db, es[1..], now);
      IdsCons(es);
    }
  }

  /** After the saves of a batch, each of its ids holds a row carrying that id. */
  lemma {:induction false} SaveEachKeysItsRows(db: Table, es: seq<CashflowEntity>, now: Instant)
    requires SaveEach(db, es, now).Success?
    ensures forall k :: k in Ids(es) ==> k in SaveEach(db, es, now).value
                                         && SaveEach(db, es, now).value[k].cashflowId == Some(k)
    decreases |es|
  {
    SaveEachTouchesOnlyItsIds(db, es, now);
    if es != [] {
      var first := Save(db, es[0], now).value;
      SaveEachKeysItsRows(first.db, es[1..], now);
      SaveEachTouchesOnlyItsIds(first.db, es[1..], now);
      IdsCons(es);
    }
  }

  /** The row a batch leaves under an id carries the business fields of the last row saved under it. */
  lemma {:induction false} SaveEachLastWriteWins(db: Table, es: seq<CashflowEntity>, now: Instant, i: int)
    requires SaveEach(db, es, now).Success?
    requires 0 <= i < |es| && LastWithItsId(es, i)
    ensures es[i].cashflowId.value in SaveEach(db, es, now).value
    ensures SameBusinessFields(SaveEach(db, es, now).value[es[i].cashflowId.value], es[i])
    decreases |es|
  {
    var first := Save(db, es[0], now).value;
    if i == 0 {
      IdsCons(es);
      assert es[0].cashflowId.value !in Ids(es[1..]) by {
        forall k | 0 <= k < |es[1..]| ensures es[1..][k].cashflowId != es[0].cashflowId {
          assert es[1..][k] == es[k + 1];
        }
      }
      SaveEachTouchesOnlyItsIds(first.db, es[1..], now);
    } else {
      assert LastWithItsId(es[1..], i - 1) by {
        forall j | i - 1 < j < |es[1..]| ensures es[1..][j].cashflowId != es[1..][i - 1].cashflowId {
          assert es[1..][j] == es[j + 1];
        }
      }
      SaveEachLastWriteWins(first.db, es[1..], now, i - 1);
      assert es[1..][i - 1] == es[i];
    }
  }

  /**
   * `repository.saveAll(es)`: saves the rows one after another and returns
   * the list of managed rows. JPA keeps one managed instance per id, so every
   * position of the result holds the row the table ends with under that
   * position's id: a repeated id gives the same row at each of its
   * positions, carrying the fields of its last occurrence. Any row with a
   * null id fails the whole batch.
   */
  function SaveAll(db: Table, es: seq<CashflowEntity>, now: Instant): (r: Result<Batch>)
    ensures r.Success? <==> forall i :: 0 <= i < |es| ==> es[i].cashflowId.Some?
    ensures r.Success? ==> |r.value.entities| == |es|
    ensures r.Success? ==> forall i :: 0 <= i < |es| ==>
              es[i].cashflowId.value in r.value.db && r.value.entities[i] == r.value.db[es[i].cashflowId.value]
    ensures r.Success? ==> forall i :: 0 <= i < |es| ==> r.value.entities[i].cashflowId == es[i].cashflowId
    ensures r.Success? ==> forall i, j :: 0 <= i < |es| && 0 <= j < |es| && es[i].cashflowId == es[j].cashflowId ==>
              r.value.entities[i] == r.value.entities[j]
    ensures r.Success? ==> forall i :: 0 <= i < |es| && LastWithItsId(es, i) ==>
              SameBusinessFields(r.value.entities[i], es[i])
  {
    match SaveEach(db, es, now)
    case Failure(err) => Failure(err)
    case Success(t) =>
      SaveEachKeysItsRows(db, es, now);
      assert forall i :: 0 <= i < |es| ==> es[i].cashflowId.value in Ids(es);
      var rows := seq(|es|, i requires 0 <= i < |es| => t[es[i].cashflowId.value]);
      assert forall i :: 0 <= i < |es| && LastWithItsId(es, i) ==> SameBusinessFields(rows[i], es[i]) by {
        forall i | 0 <= i < |es| && LastWithItsId(es, i) ensures SameBusinessFields(rows[i], es[i]) {
          SaveEachLastWriteWins(db, es, now, i);
        }
      }
      Success(Batch(t, rows))
  }

  /** A successful batch adds exactly the batch's ids and leaves every other row alone. */
  lemma SaveAllTouchesOnlyItsIds(db: Table, es: seq<CashflowEntity>, now: Instant)
    requires SaveAll(db, es, now).Success?
    ensures SaveAll(db, es, now).value.db.Keys == db.Keys + Ids(es)
    ensures forall k :: k in db && k !in Ids(es) ==> SaveAll(db, es, now).value.db[k] == db[k]
  {
    SaveEachTouchesOnlyItsIds(db, es, now);
  }

  /**
   * After a successful batch, each id holds the row returned at the id's
   * last position, and that row carries the last occurrence's business fields.
   */
  lemma SaveAllLastWriteWins(db: Table, es: seq<CashflowEntity>, now: Instant, i: int)
    requires SaveAll(db, es, now).Success?
    requires 0 <= i < |es| && LastWithItsId(es, i)
    ensures es[i].cashflowId.value in SaveAll(db, es, now).value.db
    ensures SaveAll(db, es, now).value.db[es[i].cashflowId.value] == SaveAll(db, es, now).value.entities[i]
    ensures SameBusinessFields(SaveAll(db, es, now).value.db[es[i].cashflowId.value], es[i])
  {
  }

  /** A batch save keeps every row under its own id. */
  lemma SaveAllKeepsWellKeyed(db: Table, es: seq<CashflowEntity>, now: Instant)
    requires WellKeyed(db)
    ensures SaveAll(db, es, now).Success? ==> WellKeyed(SaveAll(db, es, now).value.db)
  {
    if SaveAll(db, es, now).Success? {
      SaveEachTouchesOnlyItsIds(db, es, now);
      SaveEachKeysItsRows(db, es, now);
    }
  }

  /** `cs[i]` is the first cashflow of `cs` the mapping rejects. */
  predicate FirstUnconvertible(cs: seq<Domain.Cashflow>, i: int) {
    && 0 <= i < |cs|
    && !Convertible(cs[i])
    && forall j :: 0 <= j < i ==> Convertible(cs[j])
  }

  /** Behind a convertible head, the first rejected cashflow moves one place right. */
  lemma FirstUnconvertibleShifts(cs: seq<Domain.Cashflow>, i: int)
    requires |cs| > 0 && Convertible(cs[0]) && FirstUnconvertible(cs[1..], i)
    ensures FirstUnconvertible(cs, i + 1) && cs[i + 1] == cs[1..][i]
  {
    assert forall j :: 1 <= j < i + 1 ==> cs[j] == cs[1..][j - 1];
  }

  /**
   * Converts every cashflow in order (the stream's `map`), stopping at the
   * first that fails.
   */
  function ConvertAll(cs: seq<Domain.Cashflow>): (r: Result<seq<CashflowEntity>>)
    ensures r.Success? <==> forall i :: 0 <= i < |cs| ==> Convertible(cs[i])
    ensures r.Success? ==> |r.value| == |cs| && forall i :: 0 <= i < |cs| ==> Mirrors(r.value[i], cs[i])
    ensures r.Failure? ==> exists i :: FirstUnconvertible(cs, i) && r == Failure(ConvertToEntity(cs[i]).error)
  {
    if cs == [] then Success([])
    else
      match ConvertToEntity(cs[0])
      case Failure(err) => Failure(err)
      case Success(e) =>
        match ConvertAll(cs[1..])
        case Failure(err) =>
          ghost var i :| FirstUnconvertible(cs[1..], i) && err == ConvertToEntity(cs[1..][i]).error;
          FirstUnconvertibleShifts(cs, i);
          Failure(err)
        case Success(rest) =>
          assert forall i :: 1 <= i < |cs| ==> cs[i] == cs[1..][i - 1];
          Success([e] + rest)
  }

  /**
   * Row `e` carries cashflow `c` except in the four columns `onCreate` fills
   * (created and updated timestamps, revision, cancellation flag).
   */
  predicate MirrorsUpToHooks(e: CashflowEntity, c: Domain.Cashflow) {
    && e.cashflowId == c.cashflowId && e.tradeId == c.tradeId && e.positionId == c.positionId
    && e.lotId == c.lotId && e.payerPartyId == c.payerPartyId && e.receiverPartyId == c.receiverPartyId
    && e.currency == c.currency && e.amount == c.amount && e.settlementDate == c.settlementDate
    && e.statusTransitionTimestamp == c.statusTransitionTimestamp
    && e.settlementReference == c.settlementReference && e.originEventId == c.originEventId
    && e.cashflowType.Some? && c.cashflowType.Some? && e.cashflowType.value.Name() == c.cashflowType.value.Name()
    && e.paymentType.Some? && c.paymentType.Some? && e.paymentType.value.Name() == c.paymentType.value.Name()
    && e.cashflowStatus.Some? && c.cashflowStatus.Some?
    && e.cashflowStatus.value.Name() == c.cashflowStatus.value.Name()
  }

  /** What the hooks leave alone still mirrors the cashflow. */
  lemma HooksKeepMirror(e: CashflowEntity, saved: CashflowEntity, c: Domain.Cashflow)
    requires Mirrors(e, c) && SameBusinessFields(saved, e)
    ensures MirrorsUpToHooks(saved, c)
  {
  }

  /**
   * What a successful batch of rows converted from cashflows does, stated
   * on the cashflows: the table gains exactly the cashflows' ids and every
   * other row is unchanged; each position returns the row its id ends with,
   * so cashflows sharing an id share a row, and that row carries the last
   * of them outside the hook-filled columns.
   */
  lemma BatchOfCashflows(db: Table, es: seq<CashflowEntity>, cs: seq<Domain.Cashflow>, now: Instant)
    requires SaveAll(db, es, now).Success?
    requires |es| == |cs| && forall i :: 0 <= i < |cs| ==> Mirrors(es[i], cs[i])
    ensures SaveAll(db, es, now).value.db.Keys == db.Keys + CashflowIds(cs)
    ensures forall k :: k in db && k !in CashflowIds(cs) ==> SaveAll(db, es, now).value.db[k] == db[k]
    ensures forall i :: 0 <= i < |cs| ==> SaveAll(db, es, now).value.entities[i].cashflowId == cs[i].cashflowId
    ensures forall i :: 0 <= i < |cs| ==>
              cs[i].cashflowId.value in SaveAll(db, es, now).value.db
              && SaveAll(db, es, now).value.db[cs[i].cashflowId.value] == SaveAll(db, es, now).value.entities[i]
    ensures forall i, j :: 0 <= i < |cs| && 0 <= j < |cs| && cs[i].cashflowId == cs[j].cashflowId ==>
              SaveAll(db, es, now).value.entities[i] == SaveAll(db, es, now).value.entities[j]
    ensures forall i :: 0 <= i < |cs| && LastCashflowWithItsId(cs, i) ==>
              MirrorsUpToHooks(SaveAll(db, es, now).value.entities[i], cs[i])
  {
    var b := SaveAll(db, es, now).value;
    assert forall i :: 0 <= i < |cs| ==> es[i].cashflowId == cs[i].cashflowId;
    SameIdsAsCashflows(es, cs);
    SaveAllTouchesOnlyItsIds(db, es, now);
    forall i | 0 <= i < |cs| && LastCashflowWithItsId(cs, i)
      ensures MirrorsUpToHooks(b.entities[i], cs[i])
    {
      HooksKeepMirror(es[i], b.entities[i], cs[i]);
    }
  }

  /**
   * `saveCashflows`: converts all cashflows, then saves the rows as one
   * batch. On success there is one managed row per cashflow, in order,
   * under the cashflow's id; it is the row the table ends with under that
   * id, so cashflows sharing an id get the same row, and that row carries
   * the fields of the last of them. The table gains exactly the batch's ids
   * and every other row is unchanged. On failure nothing is saved.
   */
  function SaveCashflows(db: Table, cs: seq<Domain.Cashflow>, now: Instant): (r: Result<Batch>)
    ensures r.Success? <==> forall i :: 0 <= i < |cs| ==> Convertible(cs[i]) && cs[i].cashflowId.Some?
    ensures r.Success? ==> |r.value.entities| == |cs|
    ensures r.Success? ==> forall i :: 0 <= i < |cs| ==> r.value.entities[i].cashflowId == cs[i].cashflowId
    ensures r.Success? ==> forall i :: 0 <= i < |cs| ==>
              cs[i].cashflowId.value in r.value.db && r.value.db[cs[i].cashflowId.value] == r.value.entities[i]
    ensures r.Success? ==> forall i, j :: 0 <= i < |cs| && 0 <= j < |cs| && cs[i].cashflowId == cs[j].cashflowId ==>
              r.value.entities[i] == r.value.entities[j]
    ensures r.Success? ==> forall i :: 0 <= i < |cs| && LastCashflowWithItsId(cs, i) ==>
              MirrorsUpToHooks(r.value.entities[i], cs[i])
    ensures r.Success? ==> r.value.db.Keys == db.Keys + CashflowIds(cs)
    ensures r.Success? ==> forall k :: k in db && k !in CashflowIds(cs) ==> r.value.db[k] == db[k]
  {
    match ConvertAll(cs)
    case Failure(err) => Failure(err)
    case Success(es) =>
      if SaveAll(db, es, now).Failure? then SaveAll(db, es, now)
      else
        BatchOfCashflows(db, es, cs, now);
        SaveAll(db, es, now)
  }

  /**
   * `saveCashflow`: converts one cashflow and saves its row. The row carries
   * the cashflow's fields, its hook columns are the cashflow's after
   * `onCreate` (new id) or `onUpdate` (existing id), and no other row changes.
   */
  function SaveCashflow(db: Table, c: Domain.Cashflow, now: Instant): (r: Result<Stored>)
    ensures r.Success? <==> Convertible(c) && c.cashflowId.Some?
    ensures r.Success? ==> r.value.entity.cashflowId == c.cashflowId
    ensures r.Success? ==> c.cashflowId.value in r.value.db && r.value.db[c.cashflowId.value] == r.value.entity
    ensures r.Success? ==> MirrorsUpToHooks(r.value.entity, c)
    ensures r.Success? ==> var id := c.cashflowId.value;
      && r.value.db.Keys == db.Keys + {id}
      && (forall k :: k in db && k != id ==> r.value.db[k] == db[k])
      && (id !in db ==> CreateFilled(HooksOf(r.value.entity), CashflowHooks(c), now))
      && (id in db ==> UpdateStamped(HooksOf(r.value.entity), CashflowHooks(c), now))
  {
    match ConvertToEntity(c)
    case Failure(err) => Failure(err)
    case Success(e) =>
      assert e.cashflowId == c.cashflowId && HooksOf(e) == CashflowHooks(c);
      var r := Save(db, e, now);
      assert r.Success? ==> MirrorsUpToHooks(r.value.entity, c) by {
        if r.Success? { HooksKeepMirror(e, r.value.entity, c); }
      }
      r
  }

  // ---------------------------------------------------------- status update

  /** What `updateCashflowStatus` returns (the saved row, if any) and the table afterwards. */
  datatype Updated = Updated(entity: Option<CashflowEntity>, db: Table)

  /**
   * `updateCashflowStatus(id, newStatus)` at clock reading `now`. An unknown id
   * or a string that names no entity status returns empty and changes nothing;
   * a null status on a known id throws. Otherwise the row gets the new status
   * and a transition timestamp of `now`, and saving it stamps `onUpdate`.
   */
  function UpdateCashflowStatus(db: Table, id: string, newStatus: Option<string>, now: Instant): (r: Result<Updated>)
    ensures r.Failure? <==> id in db && newStatus.None?
    ensures id !in db ==> r == Success(Updated(None, db))
    ensures r.Success? && r.value.entity.None? ==> r.value.db == db
    ensures r.Success? ==> (r.value.entity.Some? <==> id in db && ParseStatus(newStatus.value).Some?)
    ensures r.Success? && r.value.entity.Some? ==> var e := r.value.entity.value;
      && r.value.db.Keys == db.Keys
      && r.value.db[id] == e
      && (forall k :: k in db && k != id ==> r.value.db[k] == db[k])
      && e.cashflowStatus.Some? && e.cashflowStatus.value.Name() == newStatus.value
      && e.statusTransitionTimestamp == Some(now)
      && e.updatedTimestamp == Some(now)
      && e.(cashflowStatus := db[id].cashflowStatus,
            statusTransitionTimestamp := db[id].statusTransitionTimestamp,
            updatedTimestamp := db[id].updatedTimestamp) == db[id]
  {
    if id !in db then Success(Updated(None, db))
    else if newStatus.None? then Failure(NullPointer)
    else match ParseStatus(newStatus.value)
      case None => Success(Updated(None, db))
      case Some(s) =>
        var saved := OnUpdate(db[id].(cashflowStatus := Some(s), statusTransitionTimestamp := Some(now)), now);
        Success(Updated(Some(saved), db[id := saved]))
  }

  /**
   * After a successful update `findById` returns the saved row, the table
   * keeps its size and its keying, and the status can be read back by name.
   */
  lemma UpdateThenFind(db: Table, id: string, st: CashflowStatus, now: Instant)
    requires WellKeyed(db) && id in db
    ensures var r := UpdateCashflowStatus(db, id, Some(st.Name()), now);
      && r.Success? && r.value.entity.Some?
      && FindById(r.value.db, id) == r.value.entity
      && r.value.entity.value.cashflowStatus == Some(st)
      && |r.value.db| == |db|
      && WellKeyed(r.value.db)
  {
    ParseNameRoundTrip(CashflowType.ACCRUAL, PaymentType.ACCRUAL, st);
    var r := UpdateCashflowStatus(db, id, Some(st.Name()), now);
    assert r.value.db.Keys == db.Keys;
  }

  /** A second update to the same status at the same instant changes nothing more. */
  lemma UpdateIdempotent(db: Table, id: string, st: CashflowStatus, now: Instant)
    requires id in db
    ensures var r := UpdateCashflowStatus(db, id, Some(st.Name()), now);
      && r.Success?
      && UpdateCashflowStatus(r.value.db, id, Some(st.Name()), now) == r
  {
    ParseNameRoundTrip(CashflowType.ACCRUAL, PaymentType.ACCRUAL, st);
    var saved := db[id].(cashflowStatus := Some(st), statusTransitionTimestamp := Some(now), updatedTimestamp := Some(now));
    assert UpdateCashflowStatus(db, id, Some(st.Name()), now) == Success(Updated(Some(saved), db[id := saved]));
    var db' := db[id := saved];
    assert db'[id].(cashflowStatus := Some(st), statusTransitionTimestamp := Some(now), updatedTimestamp := Some(now)) == saved;
    assert db'[id := saved] == db';
  }

  // --------------------------------------------------------- search filters

  /** The arguments `findCashflowsWithFilters` hands to the repository query. */
  datatype CashflowQuery = CashflowQuery(
    tradeId: Option<string>,
    positionId: Option<string>,
    cashflowType: Option<CashflowType>,
    status: Option<CashflowStatus>,
    currency: Option<string>,
    settlementDateFrom: Option<Date>,
    settlementDateTo: Option<Date>,
    page: nat,
    size: nat)

  /** A type filter string: the constant it names, or no filter when it is null or names none. */
  function TypeFilter(s: Option<string>): (r: Option<CashflowType>)
    ensures r.Some? <==> s.Some? && s.value in CashflowTypeNames()
    ensures r.Some? ==> r.value.Name() == s.value
  {
    if s.None? then None else ParseCashflowType(s.value)
  }

  /** A status filter string: the constant it names, or no filter when it is null or names none. */
  function StatusFilter(s: Option<string>): (r: Option<CashflowStatus>)
    ensures r.Some? <==> s.Some? && s.value in StatusNames()
    ensures r.Some? ==> r.value.Name() == s.value
  {
    if s.None? then None else ParseStatus(s.value)
  }

  /**
   * `findCashflowsWithFilters`, up to the repository call: the page request is
   * built first and rejects a negative page or a size below 1; the type and
   * status strings are parsed, anything unrecognised silently meaning "no
   * filter"; the other arguments pass through.
   */
  function FilterQuery(tradeId: Option<string>, positionId: Option<string>,
                       cashflowType: Option<string>, status: Option<string>,
                       currency: Option<string>, from: Option<Date>, to: Option<Date>,
                       page: int, size: int): (r: Result<CashflowQuery>)
    ensures r.Success? <==> page >= 0 && size >= 1
    ensures r.Success? ==> var q := r.value;
      && q.tradeId == tradeId && q.positionId == positionId && q.currency == currency
      && q.settlementDateFrom == from && q.settlementDateTo == to
      && q.page == page && q.size == size
      && (q.cashflowType.Some? <==> cashflowType.Some? && cashflowType.value in CashflowTypeNames())
      && (q.cashflowType.Some? ==> q.cashflowType.value.Name() == cashflowType.value)
      && (q.status.Some? <==> status.Some? && status.value in StatusNames())
      && (q.status.Some? ==> q.status.value.Name() == status.value)
  {
    if page < 0 || size < 1 then Failure(IllegalPageRequest)
    else Success(CashflowQuery(tradeId, positionId, TypeFilter(cashflowType), StatusFilter(status),
                               currency, from, to, page, size))
  }

  /**
   * Every entity type and status name round-trips through its filter, while
   * the domain-only `RESET` and lower-case spellings fall back to no filter.
   */
  lemma FilterRoundTrip(t: CashflowType, s: CashflowStatus)
    ensures TypeFilter(Some(t.Name())) == Some(t)
    ensures StatusFilter(Some(s.Name())) == Some(s)
    ensures TypeFilter(Some("RESET")).None?
    ensures TypeFilter(Some("accrual")).None?
    ensures StatusFilter(Some("settled")).None?
  {
    ParseNameRoundTrip(t, PaymentType.ACCRUAL, s);
  }
}
