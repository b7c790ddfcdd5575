# Cashflow lifecycle core, modelled in Dafny

This project models the deterministic core of the synthetic-swap cashflow
lifecycle services and proves properties of it:

- **Domain validation** (`ValidationService`). Pure validators take a trade,
  position, cashflow, lifecycle event, or trade and valuation date. Each
  returns the ordered list of error messages it records. `hasErrors` tells
  whether such a list is non-empty.
- **The TTL cache** (`CacheService`). It maps string keys to a value and an
  expiration instant. `get` evicts lazily, `cleanExpired` evicts in bulk, and
  `getOrCompute` fills the cache on a miss.
- **Cashflow persistence** (`CashflowPersistenceService`, `CashflowEntity`):
  - the field-for-field mapping of a domain `Cashflow` onto a `cashflows` row,
    with enums converted by name;
  - single and batch saving through the entity's `@PrePersist` and
    `@PreUpdate` hooks;
  - the status update;
  - the parsing of the search's filter strings.
- **The domain cashflow** (`Cashflow`): its enums, its builder defaults and
  its declared field constraints.

Modules, one per file:

| file | module | contents |
|---|---|---|
| `common.dfy` | `Common` | `Option` for nullable references, `String.trim()`, the "null or blank" test |
| `domain.dfy` | `Domain` | `Trade`, `Position`, `Lot`, `LifecycleEvent`, `Cashflow`, domain enums, builder |
| `issues.dfy` | `Issues` | one constructor per validation error, its exact message, and the proof that messages identify errors |
| `validation.dfy` | `Validation` | the five validators and `hasErrors` |
| `cache.dfy` | `Cache` | the cache as an immutable map threaded through its operations |
| `entity.dfy` | `Entity` | `CashflowEntity`, entity enums with `valueOf`, `onCreate`, `onUpdate` |
| `persistence.dfy` | `Persistence` | conversion, the table as a map, saving, status update, filters |

Representation choices:

- A Java `null` is `None`.
- `BigDecimal` is `real`, with scale ignored.
- `LocalDate` and `LocalDateTime` are integers on one time line.
- The clock (`LocalDate.now()`, `LocalDateTime.now()`) is a parameter: `today` or `now`.
- A thrown exception is a `Failure` in the persistence model, and `ThrowsNullPointer` in the validators' as-written variants.
- `trim().isEmpty()` holds when every character is at or below U+0020. `Common.BlankIsNullOrTrimEmpty` proves this agrees with a literal model of `String.trim()`.
- A validator returns `seq<Issue>`. `Issues.Messages` renders it into the exact Java strings, in order. `Issues.MessageInjective` shows that nothing is lost: two issues give the same string only when they are the same issue, or two window issues of one kind whose position ids print alike.
- The repository is a `map` from cashflow id to row:
  - saving an existing id replaces the row after `onUpdate`;
  - saving a new id inserts it after `onCreate`.

Two behaviours worth noting:

- Saving through the repository fires `@PreUpdate`, so `updateCashflowStatus` also refreshes `updatedTimestamp`. It does not change only the status and its transition timestamp.
- `convertToEntity` throws on the domain type `RESET`. The entity enum has no such constant.

## Model

Source paths are relative to the repository root.

| member | source | states |
|---|---|---|
| Common.TrimEmptyIffAllTrimmable | shared-cdm/src/main/java/com/synthetics/core/infra/validation/ValidationService.java:36-38 | `s.trim()` is empty exactly when every character of `s` is at or below U+0020 |
| Common.Trim | shared-cdm/src/main/java/com/synthetics/core/infra/validation/ValidationService.java:36-38 | `trim()` returns the slice of the string left after cutting only trimmable characters at both ends, and that slice starts and ends with a visible character |
| Common.BlankIsNullOrTrimEmpty | shared-cdm/src/main/java/com/synthetics/core/infra/validation/ValidationService.java:74-84 | the blank test used by every validator holds exactly for null or for a string that trims to empty |
| Common.IsBlank | shared-cdm/src/main/java/com/synthetics/core/infra/validation/ValidationService.java:74-84 | the null-or-blank test, stated on characters; `Common.BlankIsNullOrTrimEmpty` proves it holds exactly for null or for a string that trims to empty |
| Issues.MessageInjective | shared-cdm/src/main/java/com/synthetics/core/infra/validation/ValidationService.java:28-260 | two issues print the same message exactly when they are the same issue, or window issues of one kind whose position ids print alike (a null id and the id "null" both print `null`) |
| Issues.Message | shared-cdm/src/main/java/com/synthetics/core/infra/validation/ValidationService.java:28-260 | the exact text each validation rule adds, the window errors followed by the position id as Java prints it (partner: `Issues.MessageInjective`) |
| Issues.Messages | shared-cdm/src/main/java/com/synthetics/core/infra/validation/ValidationService.java:28-29 | the returned `List<String>`: one message per issue, in order (partner: `Issues.MessagesReport`) |
| Issues.FixedMessagesDistinct | shared-cdm/src/main/java/com/synthetics/core/infra/validation/ValidationService.java:28-220 | the 38 messages without a position id are pairwise distinct |
| Issues.WindowMessagesDistinct | shared-cdm/src/main/java/com/synthetics/core/infra/validation/ValidationService.java:250-258 | a window message determines whether the date was before or after the window, and the printed position id |
| Issues.MessagesReport | shared-cdm/src/main/java/com/synthetics/core/infra/validation/ValidationService.java:28-260 | a message without a position id is in the returned list exactly when its issue was raised |
| Issues.MessagesAppend | shared-cdm/src/main/java/com/synthetics/core/infra/validation/ValidationService.java:53-55 | rendering a concatenation of issue lists concatenates their message lists, so `addAll` keeps message order |
| Validation.PositionIdChecks | shared-cdm/src/main/java/com/synthetics/core/infra/validation/ValidationService.java:74-84 | no identifier error exactly when position, trade and underlier ids are all non-blank; each of the three errors appears exactly for its blank id |
| Validation.NotionalChecks | shared-cdm/src/main/java/com/synthetics/core/infra/validation/ValidationService.java:86-96 | missing notional, notional ≤ 0, missing currency, and a non-blank currency of length ≠ 3 are each reported exactly in their case; at most one error per `else if` pair |
| Validation.ScheduleChecks | shared-cdm/src/main/java/com/synthetics/core/infra/validation/ValidationService.java:98-109 | a missing effective date, a termination strictly before the effective date, and a missing or empty lot list are each reported exactly in their case |
| Validation.ValidatePosition | shared-cdm/src/main/java/com/synthetics/core/infra/validation/ValidationService.java:66-112 | a null position gives only "Position cannot be null"; otherwise no error exactly when the position is well formed, with at most 7 errors |
| Validation.ValidatePositionAsWritten | shared-cdm/src/main/java/com/synthetics/core/infra/validation/ValidationService.java:98-105 | the written code throws exactly when a termination date is present and the effective date is null; otherwise it returns what `ValidatePosition` returns |
| Validation.DanglingTerminationThrows | shared-cdm/src/main/java/com/synthetics/core/infra/validation/ValidationService.java:102-103 | on such a position the written code throws, while the total validator reports the missing effective date and no date-order error |
| Validation.PositionIdRule | shared-cdm/src/main/java/com/synthetics/core/infra/validation/ValidationService.java:74-76 | a null, empty or whitespace-only position id is reported; any other id is not |
| Validation.NotionalPositiveRule | shared-cdm/src/main/java/com/synthetics/core/infra/validation/ValidationService.java:86-90 | a present notional is rejected exactly when it is ≤ 0 |
| Validation.NotionalCurrencyRule | shared-cdm/src/main/java/com/synthetics/core/infra/validation/ValidationService.java:92-96 | a non-blank notional currency is rejected exactly when its length is not 3 |
| Validation.TerminationOrderRule | shared-cdm/src/main/java/com/synthetics/core/infra/validation/ValidationService.java:102-105 | termination strictly before the effective date is rejected; the same day is accepted |
| Validation.LotRule | shared-cdm/src/main/java/com/synthetics/core/infra/validation/ValidationService.java:107-109 | a null or empty lot list is rejected |
| Validation.PositionErrorsEmpty | shared-cdm/src/main/java/com/synthetics/core/infra/validation/ValidationService.java:53-55 | the position loop reports nothing exactly when every position is non-null and well formed |
| Validation.PositionErrors | shared-cdm/src/main/java/com/synthetics/core/infra/validation/ValidationService.java:53-55 | the loop reports every null position, and adds at most seven errors per position |
| Validation.PositionErrorsAppend | shared-cdm/src/main/java/com/synthetics/core/infra/validation/ValidationService.java:53-55 | the loop's errors for a concatenated list are the errors of the first part followed by those of the second |
| Validation.PositionErrorsBlock | shared-cdm/src/main/java/com/synthetics/core/infra/validation/ValidationService.java:53-55 | position `i`'s errors form one contiguous block, after the errors of earlier positions and before those of later positions |
| Validation.TradeHeaderErrors | shared-cdm/src/main/java/com/synthetics/core/infra/validation/ValidationService.java:36-48 | blank trade id, blank product id, missing trade date, and a trade date after today are each reported exactly in their case |
| Validation.ValidateTrade | shared-cdm/src/main/java/com/synthetics/core/infra/validation/ValidationService.java:28-59 | a null trade gives only its own error; otherwise the trade errors are followed by either the single missing-positions error or every position's errors in order; no error exactly when the trade is well formed |
| Validation.TradeDateBoundary | shared-cdm/src/main/java/com/synthetics/core/infra/validation/ValidationService.java:44-48 | a trade dated today passes the date check; one dated tomorrow fails it |
| Validation.CashflowIdChecks | shared-cdm/src/main/java/com/synthetics/core/infra/validation/ValidationService.java:127-141 | no error exactly when cashflow, trade and position ids are non-blank and the type is set; each of the four errors appears exactly in its case, and no other error appears |
| Validation.CashflowPartyChecks | shared-cdm/src/main/java/com/synthetics/core/infra/validation/ValidationService.java:143-154 | no error exactly when both party ids are non-blank and they differ; each missing party is reported exactly when blank; the same-party error appears exactly for equal non-null parties, blank ones included |
| Validation.CashflowMoneyChecks | shared-cdm/src/main/java/com/synthetics/core/infra/validation/ValidationService.java:156-166 | currency missing or of length ≠ 3, and amount missing or zero, are each reported exactly in their case |
| Validation.CashflowStateChecks | shared-cdm/src/main/java/com/synthetics/core/infra/validation/ValidationService.java:168-178 | no error exactly when settlement date, payment type and status are present; each is reported exactly when null, and no other error appears |
| Validation.CashflowOriginChecks | shared-cdm/src/main/java/com/synthetics/core/infra/validation/ValidationService.java:180-186 | no error exactly when the origin event id is non-blank and the revision is positive; each error appears exactly in its case |
| Validation.ReportedByGroup | shared-cdm/src/main/java/com/synthetics/core/infra/validation/ValidationService.java:119-189 | an issue is in `validateCashflow`'s list exactly when one of the five groups of checks raises it |
| Validation.CashflowIdRule | shared-cdm/src/main/java/com/synthetics/core/infra/validation/ValidationService.java:127-129 | a null or blank cashflow id is reported, and only then |
| Validation.CashflowIdMessageRule | shared-cdm/src/main/java/com/synthetics/core/infra/validation/ValidationService.java:127-129 | the returned strings contain "Cashflow ID is required" exactly when the cashflow id is null or blank |
| Validation.CashflowTradeIdRule | shared-cdm/src/main/java/com/synthetics/core/infra/validation/ValidationService.java:131-133 | a null or blank trade id is reported, and only then |
| Validation.CashflowPositionIdRule | shared-cdm/src/main/java/com/synthetics/core/infra/validation/ValidationService.java:135-137 | a null or blank position id is reported, and only then |
| Validation.CashflowTypeRule | shared-cdm/src/main/java/com/synthetics/core/infra/validation/ValidationService.java:139-141 | a null cashflow type is reported, and only then |
| Validation.RequiredPartyRule | shared-cdm/src/main/java/com/synthetics/core/infra/validation/ValidationService.java:143-149 | a null or blank payer, and a null or blank receiver, are each reported, and only then |
| Validation.SettlementDateRule | shared-cdm/src/main/java/com/synthetics/core/infra/validation/ValidationService.java:168-170 | a null settlement date is reported, and only then |
| Validation.PaymentTypeRule | shared-cdm/src/main/java/com/synthetics/core/infra/validation/ValidationService.java:172-174 | a null payment type is reported, and only then |
| Validation.StatusRule | shared-cdm/src/main/java/com/synthetics/core/infra/validation/ValidationService.java:176-178 | a null status is reported, and only then |
| Validation.OriginEventRule | shared-cdm/src/main/java/com/synthetics/core/infra/validation/ValidationService.java:180-182 | a null or blank origin event id is reported, and only then |
| Validation.ValidateCashflow | shared-cdm/src/main/java/com/synthetics/core/infra/validation/ValidationService.java:119-189 | a null cashflow gives only its own error; otherwise no error exactly when the cashflow is well formed, with at most 14 errors |
| Validation.SamePartyRule | shared-cdm/src/main/java/com/synthetics/core/infra/validation/ValidationService.java:151-154 | equal non-null payer and receiver ids are rejected, blank ones included; any other pair is not |
| Validation.CurrencyLengthRule | shared-cdm/src/main/java/com/synthetics/core/infra/validation/ValidationService.java:156-160 | a non-blank currency is rejected exactly when its length is not 3 |
| Validation.AmountZeroRule | shared-cdm/src/main/java/com/synthetics/core/infra/validation/ValidationService.java:162-166 | exactly a zero amount gets the zero-amount error |
| Validation.AmountPresentRule | shared-cdm/src/main/java/com/synthetics/core/infra/validation/ValidationService.java:162-163 | exactly a null amount gets the missing-amount error |
| Validation.RevisionRule | shared-cdm/src/main/java/com/synthetics/core/infra/validation/ValidationService.java:184-186 | a null or non-positive revision number is rejected |
| Validation.NegativeAmountAccepted | shared-cdm/src/main/java/com/synthetics/core/infra/validation/ValidationService.java:162-166 | a negative amount draws neither amount error |
| Validation.DeclaredConstraintsAgree | shared-cdm/src/main/java/com/synthetics/core/cdm/domain/Cashflow.java:26-91 | the annotations declared on `Cashflow`, plus distinct parties, a non-zero amount, a status and a positive revision, make `validateCashflow` pass; a passing cashflow has a 3-character currency and non-blank ids |
| Validation.ValidateLifecycleEvent | shared-cdm/src/main/java/com/synthetics/core/infra/validation/ValidationService.java:196-221 | a null event gives only its own error; otherwise each blank or missing field is reported exactly in its case, and no error means the event is well formed |
| Validation.WindowChecks | shared-cdm/src/main/java/com/synthetics/core/infra/validation/ValidationService.java:251-257 | one position draws the before-effective error exactly when the valuation date precedes its effective date, and the after-termination error exactly when it follows its termination date, each with the position's id; nothing else; so no error exactly when the date is inside the window, ends included |
| Validation.WindowErrors | shared-cdm/src/main/java/com/synthetics/core/infra/validation/ValidationService.java:250-258 | the loop reports nothing exactly when every position's window contains the valuation date; it reports only window errors, at most two per position |
| Validation.WindowErrorsReportEachPosition | shared-cdm/src/main/java/com/synthetics/core/infra/validation/ValidationService.java:250-258 | the loop reports a before-effective (after-termination) error for id `d` exactly when some position with id `d` has the valuation date before its effective date (after its termination date) |
| Validation.ValidateCashflowGeneration | shared-cdm/src/main/java/com/synthetics/core/infra/validation/ValidationService.java:229-261 | a null trade or a null valuation date gives only its own error; the trade-date error appears exactly when the trade date is present and after the valuation date, and then first; the missing-positions error appears exactly for a null or empty list; no error exactly when the trade is ready for generation |
| Validation.GenerationReportsEachPosition | shared-cdm/src/main/java/com/synthetics/core/infra/validation/ValidationService.java:229-261 | the validator reports a window error for id `d` on one side exactly when some position of the trade with id `d` falls on that side of its window |
| Validation.ValidateCashflowGenerationAsWritten | shared-cdm/src/main/java/com/synthetics/core/infra/validation/ValidationService.java:246-250 | the written code throws exactly when both arguments are present and the position list is null or holds a null; otherwise it returns what `ValidateCashflowGeneration` returns |
| Validation.NullPositionListThrows | shared-cdm/src/main/java/com/synthetics/core/infra/validation/ValidationService.java:246-250 | for a null position list the written code throws, while the total validator returns the trade-date error (if any) and then the missing-positions error |
| Validation.WindowBoundariesAccepted | shared-cdm/src/main/java/com/synthetics/core/infra/validation/ValidationService.java:251-257 | valuation on the effective date, or on the termination date, is accepted |
| Validation.HasErrors | shared-cdm/src/main/java/com/synthetics/core/infra/validation/ValidationService.java:268-270 | true exactly for a non-null, non-empty list |
| Validation.HasErrorsIffRejected | shared-cdm/src/main/java/com/synthetics/core/infra/validation/ValidationService.java:268-270 | a validated trade has errors exactly when it is not well formed; a null list has none |
| Cache.ExpiryBoundary | shared-cdm/src/main/java/com/synthetics/core/infra/cache/CacheService.java:160-162 | an entry is live at its expiration instant, stale one tick later, and stays stale |
| Cache.LiveEntries | shared-cdm/src/main/java/com/synthetics/core/infra/cache/CacheService.java:127-135 | the live sub-map holds exactly the entries not expired at `now`, unchanged |
| Cache.IsExpired | shared-cdm/src/main/java/com/synthetics/core/infra/cache/CacheService.java:160-162 | an entry is stale strictly after its expiration instant (partner: `Cache.ExpiryBoundary`) |
| Cache.Put | shared-cdm/src/main/java/com/synthetics/core/infra/cache/CacheService.java:73-76 | the key maps to the value with expiry `now + ttl`; every other key is unchanged; the size grows only for a new key |
| Cache.Get | shared-cdm/src/main/java/com/synthetics/core/infra/cache/CacheService.java:83-96 | a value is returned exactly for a live entry; a stale entry is removed; no other key is touched |
| Cache.Remove | shared-cdm/src/main/java/com/synthetics/core/infra/cache/CacheService.java:102-105 | only the key is dropped, and the size shrinks by one exactly when it was present |
| Cache.Clear | shared-cdm/src/main/java/com/synthetics/core/infra/cache/CacheService.java:110-113 | no key remains and the size is zero |
| Cache.Size | shared-cdm/src/main/java/com/synthetics/core/infra/cache/CacheService.java:119-121 | the size counts every stored key, stale ones not yet evicted included |
| Cache.CleanExpired | shared-cdm/src/main/java/com/synthetics/core/infra/cache/CacheService.java:127-142 | the loop leaves exactly the live entries, unchanged, and returns how many it dropped, which is the old size minus the new size |
| Cache.GetOrCompute | shared-cdm/src/main/java/com/synthetics/core/infra/cache/CacheService.java:29-43 | on a live hit: the cached value, the cache unchanged, the supplier not run; otherwise the supplier's value, stored as `put` would store it |
| Cache.PutThenGet | shared-cdm/src/main/java/com/synthetics/core/infra/cache/CacheService.java:73-96 | after `put` at `now`, `get` returns the value up to `now + ttl` and null after that; other keys answer as before |
| Cache.RemoveThenGet | shared-cdm/src/main/java/com/synthetics/core/infra/cache/CacheService.java:102-105 | after `remove`, `get` of the key is null and every other key answers as before |
| Cache.ClearThenGet | shared-cdm/src/main/java/com/synthetics/core/infra/cache/CacheService.java:110-121 | after `clear`, the size is 0 and every key misses |
| Cache.CleanInvisibleToGet | shared-cdm/src/main/java/com/synthetics/core/infra/cache/CacheService.java:127-142 | cleaning never changes what `get` returns then or later, and cleaning twice at one instant is cleaning once |
| Cache.GetOrComputeCaches | shared-cdm/src/main/java/com/synthetics/core/infra/cache/CacheService.java:29-43 | with a non-negative TTL the computed value is then found by `get`, and a second `getOrCompute` is a hit returning the same value |
| Cache.GetOrComputeAgreesWithGet | shared-cdm/src/main/java/com/synthetics/core/infra/cache/CacheService.java:29-35 | `getOrCompute` skips the supplier exactly when `get` would hit, and then returns what `get` returns |
| Entity.ParseCashflowType | cashflow-management-service/src/main/java/com/synthetics/core/cashflow/entity/CashflowEntity.java:107-109 | `valueOf` yields the constant with exactly that name, and fails exactly when no constant has it |
| Entity.ParseStatus | cashflow-management-service/src/main/java/com/synthetics/core/cashflow/entity/CashflowEntity.java:115-117 | `valueOf` yields the status with exactly that name, and fails exactly when no status has it |
| Entity.ParsePaymentType | cashflow-management-service/src/main/java/com/synthetics/core/cashflow/entity/CashflowEntity.java:111-113 | `valueOf` yields the payment type with exactly that name, and fails exactly when no payment type has it |
| Entity.ParseNameRoundTrip | cashflow-management-service/src/main/java/com/synthetics/core/cashflow/entity/CashflowEntity.java:107-117 | `valueOf(name())` gives back every entity constant |
| Entity.EntityTypeNamesVersusDomain | cashflow-management-service/src/main/java/com/synthetics/core/cashflow/entity/CashflowEntity.java:107-109 | the entity type names are the domain's without `RESET`, plus `COUPON`, `SETTLEMENT` and `TERMINATION` |
| Entity.StatusNamesAgree | cashflow-management-service/src/main/java/com/synthetics/core/cashflow/entity/CashflowEntity.java:115-117 | the entity and domain statuses have exactly the same four names |
| Entity.PaymentNamesCovered | shared-cdm/src/main/java/com/synthetics/core/cdm/domain/Cashflow.java:129-134 | every domain payment type has a same-named entity payment type |
| Entity.OnCreate | cashflow-management-service/src/main/java/com/synthetics/core/cashflow/entity/CashflowEntity.java:85-99 | both timestamps become `now`, the revision 1 and the flag false, each only where null; non-null values and every other field are kept |
| Entity.OnCreateIdempotent | cashflow-management-service/src/main/java/com/synthetics/core/cashflow/entity/CashflowEntity.java:85-99 | a second `onCreate`, at any time, changes nothing |
| Entity.OnUpdate | cashflow-management-service/src/main/java/com/synthetics/core/cashflow/entity/CashflowEntity.java:101-104 | `updatedTimestamp` becomes `now` and no other field changes |
| Entity.OnUpdateKeepsCreateDefaults | cashflow-management-service/src/main/java/com/synthetics/core/cashflow/entity/CashflowEntity.java:85-104 | an update keeps the creation defaults in place, so a later `onCreate` is a no-op |
| Domain.CashflowTypeCatalogue | shared-cdm/src/main/java/com/synthetics/core/cdm/domain/Cashflow.java:110-117 | the domain type has exactly six kinds, `RESET` among them, and they have distinct names |
| Domain.Build | shared-cdm/src/main/java/com/synthetics/core/cdm/domain/Cashflow.java:76-91 | an unset `@Builder.Default` field takes its default; every set field keeps its value, even null |
| Domain.FreshCashflowDefaults | shared-cdm/src/main/java/com/synthetics/core/cdm/domain/Cashflow.java:76-91 | a cashflow built without the defaulted setters is in status ACCRUAL, at revision 1 and not cancelled |
| Persistence.ConvertCashflowType | cashflow-management-service/src/main/java/com/synthetics/core/cashflow/service/CashflowPersistenceService.java:190-192 | succeeds exactly for a non-null type other than `RESET`, preserving the name; null fails with a null-pointer error, `RESET` with no-enum-constant |
| Persistence.ConvertPaymentType | cashflow-management-service/src/main/java/com/synthetics/core/cashflow/service/CashflowPersistenceService.java:194-196 | total on non-null payment types and name-preserving; null fails |
| Persistence.ConvertCashflowStatus | cashflow-management-service/src/main/java/com/synthetics/core/cashflow/service/CashflowPersistenceService.java:198-200 | total on non-null statuses and name-preserving; null fails |
| Persistence.ConversionsInjective | cashflow-management-service/src/main/java/com/synthetics/core/cashflow/service/CashflowPersistenceService.java:190-200 | distinct domain constants never convert to the same entity constant |
| Persistence.ConvertToEntity | cashflow-management-service/src/main/java/com/synthetics/core/cashflow/service/CashflowPersistenceService.java:166-188 | succeeds exactly when the three enums are set and the type is not `RESET`; on success the row carries every field of the cashflow; `RESET` fails with no-enum-constant |
| Persistence.ConversionForgetsOnlyCancellationReason | cashflow-management-service/src/main/java/com/synthetics/core/cashflow/service/CashflowPersistenceService.java:166-188 | two convertible cashflows give the same row exactly when they differ at most in their cancellation reason |
| Persistence.UntypedBuildNotConvertible | shared-cdm/src/main/java/com/synthetics/core/cdm/domain/Cashflow.java:45-74 | a cashflow built without calling the type setter, a fresh builder's among them, has a null type, so converting it fails with a null-pointer error |
| Persistence.FindById | cashflow-management-service/src/main/java/com/synthetics/core/cashflow/service/CashflowPersistenceService.java:63-66 | a row is found exactly when its id is stored, and the stored row is returned |
| Persistence.Save | cashflow-management-service/src/main/java/com/synthetics/core/cashflow/service/CashflowPersistenceService.java:37 | succeeds exactly for a non-null id; stores the returned row under that id and leaves every other row; keeps the business fields; a new id gets `onCreate`: each hook column keeps a set value and a null one becomes now, now, 1 or false; an existing id gets `onUpdate`: the row is the input with only the updated timestamp set to now |
| Persistence.SaveKeepsWellKeyed | cashflow-management-service/src/main/java/com/synthetics/core/cashflow/service/CashflowPersistenceService.java:37 | saving keeps every row stored under its own id |
| Persistence.SaveEach | cashflow-management-service/src/main/java/com/synthetics/core/cashflow/service/CashflowPersistenceService.java:54 | the writes of a batch fail exactly when some id is null |
| Persistence.SaveEachTouchesOnlyItsIds | cashflow-management-service/src/main/java/com/synthetics/core/cashflow/service/CashflowPersistenceService.java:54 | the writes of a batch add exactly its ids and leave every other row unchanged |
| Persistence.SaveEachKeysItsRows | cashflow-management-service/src/main/java/com/synthetics/core/cashflow/service/CashflowPersistenceService.java:54 | after the writes of a batch, each of its ids holds a row carrying that id |
| Persistence.SaveEachLastWriteWins | cashflow-management-service/src/main/java/com/synthetics/core/cashflow/service/CashflowPersistenceService.java:54 | after the writes of a batch, an id holds the business fields of the last row saved under it |
| Persistence.SaveAll | cashflow-management-service/src/main/java/com/synthetics/core/cashflow/service/CashflowPersistenceService.java:54 | succeeds exactly when every id is non-null; returns one managed row per input, in order: the row the table ends with under that input's id, so a repeated id gives the same row at each of its positions; that row has the input's id, and the business fields of the id's last occurrence |
| Persistence.SaveAllTouchesOnlyItsIds | cashflow-management-service/src/main/java/com/synthetics/core/cashflow/service/CashflowPersistenceService.java:54 | a batch adds exactly its own ids, and leaves every other row unchanged |
| Persistence.SaveAllLastWriteWins | cashflow-management-service/src/main/java/com/synthetics/core/cashflow/service/CashflowPersistenceService.java:54 | after a batch each id holds the row returned at its last position, carrying that position's business fields |
| Persistence.SaveAllKeepsWellKeyed | cashflow-management-service/src/main/java/com/synthetics/core/cashflow/service/CashflowPersistenceService.java:54 | a batch keeps every row stored under its own id |
| Persistence.ConvertAll | cashflow-management-service/src/main/java/com/synthetics/core/cashflow/service/CashflowPersistenceService.java:50-52 | converts every cashflow in order, one row each, mirroring its cashflow; a failure is the error of the first unconvertible element |
| Persistence.SaveCashflows | cashflow-management-service/src/main/java/com/synthetics/core/cashflow/service/CashflowPersistenceService.java:47-58 | succeeds exactly when every cashflow converts and has an id; returns one managed row per cashflow, in order, with the cashflow's id: the row the table ends with under that id, shared by all cashflows with that id and carrying the last one's fields outside the hook-filled columns; the table gains exactly the cashflows' ids, and every other row is unchanged |
| Persistence.BatchOfCashflows | cashflow-management-service/src/main/java/com/synthetics/core/cashflow/service/CashflowPersistenceService.java:47-58 | for rows converted one-to-one from cashflows: the table gains exactly the cashflows' ids, every other row is unchanged, each position returns the row its id ends with (shared by equal ids), and that row mirrors the last cashflow with the id |
| Persistence.SaveCashflow | cashflow-management-service/src/main/java/com/synthetics/core/cashflow/service/CashflowPersistenceService.java:33-41 | succeeds exactly when the cashflow converts and has an id; the returned row carries the cashflow's fields and is stored under that id, no other row changes; its hook columns are the cashflow's after `onCreate` for a new id and after `onUpdate` for an existing one |
| Persistence.UpdateCashflowStatus | cashflow-management-service/src/main/java/com/synthetics/core/cashflow/service/CashflowPersistenceService.java:138-161 | unknown id or unknown status name: empty, table unchanged; null status on a known id: failure; otherwise only that row changes, getting the named status and both timestamps `now` |
| Persistence.UpdateThenFind | cashflow-management-service/src/main/java/com/synthetics/core/cashflow/service/CashflowPersistenceService.java:138-152 | after updating to a status, `findById` returns the saved row with that status, and the table keeps its size and keying |
| Persistence.UpdateIdempotent | cashflow-management-service/src/main/java/com/synthetics/core/cashflow/service/CashflowPersistenceService.java:138-152 | repeating an update at the same instant changes nothing more |
| Persistence.TypeFilter | cashflow-management-service/src/main/java/com/synthetics/core/cashflow/service/CashflowPersistenceService.java:87-94 | a type filter is set exactly for a string that names an entity type, and then it names that type |
| Persistence.StatusFilter | cashflow-management-service/src/main/java/com/synthetics/core/cashflow/service/CashflowPersistenceService.java:96-103 | a status filter is set exactly for a string that names an entity status, and then it names that status |
| Persistence.FilterQuery | cashflow-management-service/src/main/java/com/synthetics/core/cashflow/service/CashflowPersistenceService.java:71-108 | fails exactly for a negative page or a size below 1; otherwise the filters are parsed as above and every other argument passes through |
| Persistence.FilterRoundTrip | cashflow-management-service/src/main/java/com/synthetics/core/cashflow/service/CashflowPersistenceService.java:87-103 | every entity type and status name parses back to its constant; `RESET` and lower-case spellings mean no filter |

## Left out

- `getOrComputeAsync`, and all concurrency of the cache (`ConcurrentHashMap`, `CompletableFuture`). The cache is modelled sequentially, and a miss in `getOrCompute` stores the value at the same instant `now`, as if the supplier took no time.
- Supplier exceptions in `getOrCompute`: the supplier is represented only by the value it returns.
- Cache.CleanExpired: one clock reading `now` serves the whole loop, while the Java code reads `LocalDateTime.now()` once per entry inside `isExpired`; an entry that expires while the loop runs may be kept here and dropped there.
- Persistence.UpdateCashflowStatus: one clock reading `now` stamps both the status-transition time and `updatedTimestamp`, while the Java code reads the clock for the first at CashflowPersistenceService.java:148 and `onUpdate` (CashflowEntity.java:103) reads it again at flush, so Java gives `updatedTimestamp` at or after the transition time, not necessarily equal.
- Logging everywhere, and `logValidationErrors`, which only logs.
- The bodies of the repository queries behind `findCashflowsWithFilters` and `findBy*`, and pagination. They are not visible. Only the argument preparation is modelled; `findCashflowById` is `Persistence.FindById`.
- The `CashflowRepository` implementation is not part of this model. `save` follows JPA's contract: an assigned id that is already stored is merged and fires `@PreUpdate`; a new one is persisted and fires `@PrePersist`. `saveAll` returns the one managed row per id at every position of that id.
- JPA dirty checking, flush timing and database column constraints (nullability, lengths). Every save of a stored id applies `onUpdate`, and rows in one batch are saved one after another.
- Persistence.UpdateCashflowStatus: a null `cashflowId` is not modelled, because `findById(null)` throws inside Spring Data.
- Persistence.FindById: a null id is not modelled; `findCashflowById(null)` passes it to `findById`, which throws.
- Persistence.SaveCashflow: a null cashflow is not modelled; the Java code throws `NullPointerException` on it.
- Persistence.SaveCashflows: a null list, or a null element of it, is not modelled; the Java code throws `NullPointerException` on either.
- Persistence.SaveCashflows: the hook columns of each saved row are not stated; they depend on whether an earlier row of the same batch had that id. `Persistence.Save` states them for a single row.
- Validation.PositionErrors: states that every null position is reported, not that the null-position error comes only from null positions; `Validation.PositionErrorsBlock` places each position's own errors.
- Cache.Put: a null key or a null TTL is not modelled; the Java code throws `NullPointerException` on either.
- Cache.Get: a null key is not modelled; `ConcurrentHashMap.get(null)` throws `NullPointerException`.
- Cache.Remove: a null key is not modelled; `ConcurrentHashMap.remove(null)` throws `NullPointerException`.
- Cache.GetOrCompute: a null key, supplier or TTL is not modelled; the Java code throws `NullPointerException` on each (on a miss, inside the returned future for the supplier and TTL).
- Validation.ValidateCashflowGeneration: requires the elements of a present position list to be non-null. The written code dereferences each element, and there is no evident intended result for a null element. `Validation.ValidateCashflowGenerationAsWritten` models the throw.
- Validation.ValidateTrade: uses the total `ValidatePosition`. The written `validateTrade` inherits the throw of `Validation.ValidatePositionAsWritten` on a position with a termination date but no effective date.
- String lengths count `char`s of the model's strings, not UTF-16 code units.
- Cache.Size: not capped at `Integer.MAX_VALUE`, because `ConcurrentHashMap.size()` saturates only beyond two billion entries.
- The enums' display names (`getDisplayName`). Nothing in the modelled core reads them.
- Bean validation is not run by any modelled operation. `Domain.DeclaredConstraints` states the declared annotations only so that they can be compared with `validateCashflow`.

## Findings

| source | as written | input that shows it | evidently intended | confidence | as-written member | corrected member |
|---|---|---|---|---|---|---|
| shared-cdm/src/main/java/com/synthetics/core/infra/validation/ValidationService.java:98-105 | records "Effective date is required", then calls `terminationDate.isBefore(null)`, which throws `NullPointerException` | a non-null position with a termination date and a null effective date | return the error list, with "Effective date is required" and no date-order error | medium, not executed | Validation.ValidatePositionAsWritten, Validation.DanglingTerminationThrows | Validation.ValidatePosition |
| shared-cdm/src/main/java/com/synthetics/core/infra/validation/ValidationService.java:246-250 | records "Trade must have positions for cashflow generation", then iterates the null list, which throws `NullPointerException` | a trade with a null position list and a non-null valuation date | return the error list ending in the missing-positions error | medium, not executed | Validation.ValidateCashflowGenerationAsWritten, Validation.NullPositionListThrows | Validation.ValidateCashflowGeneration |
