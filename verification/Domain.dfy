/** Entities and constants shared by the whole model. */
module Domain {

  datatype Option<+T> = None | Some(value: T)

  /** Instants are whole microseconds in UTC. */
  type Instant = int
  const SECOND: int := 1_000_000
  const DAY: int := 86_400 * SECOND

  /** Money and points are held with two decimals, as numeric(18,2) columns do. */
  type Cents = int

  /** External identifiers are only ever compared, so numbers stand for them. */
  type UserId = nat
  type OfferId = nat
  type TxnId = nat
  type AccountId = nat
  type CardNo = nat
  type ProductCode = nat
  type CustomerId = nat

  type RowId = nat
  type RebateId = nat

  datatype Kind = Qualifying | Fulfillment | Refund | OtherKind
  datatype CardType = CreditCard | CheckingAccount | OtherCard
  datatype RewardType = Dollars | Points
  datatype OwnershipType = Primary | CoApplicant | AuthorizedUser | Sole | Joint
  datatype OfferType = ClientBased | ProductOwnershipBased | PreLoadedOptInFile
  datatype LimitType = Overall | PerCard

  datatype Status =
    | OfferNotFound | CannotFindClient | OfferNotWithinRedemptionPeriod | ClientBlacklisted
    | UserProductForOfferNotFound | ProductHasBlockCode | ClientIsNotTargeted | ClientIsNotLinked
    | ClientReachedCardRedLimit | ClientReachedOverallRedLimit | QualifiedTransUsedAlready
    | CreditCardOwnerNotAuthorized | DebitCardOwnerNotAuthorized | ClientNotInOptInFile
    | RebateNotDue | RebateCreated
    | RebateIdNotFound | FulfilledTransUsedAlready | RebateNotFound | FulfilledTransHasDiffAccount
    | FulfilledTransHasWrongAmount | RebateNotPending | FulfilledTransSuccessful
    | RefundNotTrackedForReporting | RefundTrackedForReporting
    | PendingExtraction | ExtractionStarted | PendingFulfillment
    | UnknownIssue

  /** A row of transaction_for_rebate_criteria. `processed` stands for a non-null processed_at. */
  datatype Txn = Txn(
    id: RowId,
    txnId: TxnId,
    accountId: AccountId,
    userId: UserId,
    offerId: OfferId,
    rebateId: Option<RebateId>,
    amount: Cents,
    kind: Kind,
    card: CardNo,
    cardType: CardType,
    basePoints: int,
    date: Instant,
    productCode: ProductCode,
    customerId: CustomerId,
    processed: bool,
    status: Option<Status>,
    processor: Option<int>,
    reported: bool)

  /** A row of rebates. `sourceRow` and `fulfilRow` are the ids inside the two stored transaction documents. */
  datatype Rebate = Rebate(
    id: RebateId,
    userId: UserId,
    offerId: OfferId,
    accountId: AccountId,
    sourceTxnId: TxnId,
    sourceRow: RowId,
    amount: Cents,
    rewardType: RewardType,
    card: CardNo,
    cardType: CardType,
    status: Status,
    fulfilledTxnId: Option<TxnId>,
    fulfilledAmount: Option<Cents>,
    fulfilRow: Option<RowId>,
    delivered: bool,
    synced: bool)

  /** A refund report. `source` is bookkeeping: the transaction row the report was written for. */
  datatype RefundReport = RefundReport(
    source: RowId, userId: UserId, offerId: OfferId, accountId: AccountId, amount: Cents, kind: Kind)

  /** The part of a rebate journal row that changes after it is written. */
  datatype JournalRow = JournalRow(
    id: nat, rebateId: RebateId, clientId: UserId, status: Status,
    ccCredit: Cents, pbaCredit: Cents, points: Cents, dollars: Cents)
}
