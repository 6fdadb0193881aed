/** The vocabulary and the rule tables both sides of the original share:
    statuses, events, which event a status allows, who counts as a participant. */
module SharedRules {
  import opened Collections

  datatype Role = Client | Company

  /** A user keeps the role it registered with. */
  datatype UserId = UserId(role: Role, n: int)

  type Id = int

  /** Milliseconds since the epoch, UTC. */
  type Moment = int

  /** Sums are `Decimal(12, 2)`: whole hundredths, no rounding anywhere. */
  type Money = int

  datatype OrderStatus =
    | Waiting
    | AwaitingConfirmation
    | InProgress
    | AwaitingCompletionConfirmation
    | CompletionDisputed
    | Completed

  datatype OfferStatus =
    | Sent
    | Accepted
    | Rejected
    | NotAccepted
    | Withdrawn
    | WorkSubmitted
    | Completed
    | BackForOverride

  datatype OrderEventType =
    | OfferSubmitted
    | OfferWithdrawn
    | OfferRejected
    | OfferAccepted
    | WorkSubmitted
    | WorkConfirmed
    | WorkDisputed

  datatype NotificationType =
    | OfferReceived
    | OfferAccepted
    | OfferRejected
    | OfferNotAccepted
    | OfferWithdrawn
    | WorkSubmitted
    | WorkConfirmed
    | WorkDisputed
    | FilesUpdated
    | AreaVerified
    | OrderDeleted

  datatype FileOwnerType = ClientFile | CompanyFile

  /** One constructor per key prefix of the original (`offer:`, `files:`, `area:`). */
  datatype CollapseKey = OfferKey(offerId: Id) | OrderFilesKey(orderId: Id) | OrderAreaKey(orderId: Id)

  const MAX_OFFER_REJECTIONS := 2
  const MILLISECONDS_IN_A_DAY := 86_400_000
  const MAX_ORDER_FILES_BYTES := 50 * 1024 * 1024

  /** Which events a status allows; everything else is a conflict. */
  function TransitionsFrom(status: OrderStatus): set<OrderEventType> {
    match status
    case Waiting => {OrderEventType.OfferSubmitted}
    case AwaitingConfirmation =>
      {OrderEventType.OfferSubmitted, OrderEventType.OfferWithdrawn,
       OrderEventType.OfferRejected, OrderEventType.OfferAccepted}
    case InProgress => {OrderEventType.WorkSubmitted}
    case AwaitingCompletionConfirmation => {OrderEventType.WorkConfirmed, OrderEventType.WorkDisputed}
    case CompletionDisputed => {OrderEventType.WorkSubmitted}
    case Completed => {}
  }

  const RESUBMITTABLE_OFFER_STATUSES: set<OfferStatus> := {Withdrawn, Rejected}

  /** Offer statuses from which an event makes sense. */
  function OfferPreconditions(event: OrderEventType): set<OfferStatus> {
    match event
    case OfferSubmitted => {Sent} + RESUBMITTABLE_OFFER_STATUSES
    case OfferWithdrawn => {Sent}
    case OfferRejected => {Sent}
    case OfferAccepted => {Sent}
    case WorkSubmitted => {Accepted, BackForOverride}
    case WorkConfirmed => {OfferStatus.WorkSubmitted}
    case WorkDisputed => {OfferStatus.WorkSubmitted}
  }

  predicate CanTransition(status: OrderStatus, event: OrderEventType, offerStatus: Option<OfferStatus>) {
    event in TransitionsFrom(status) &&
    (offerStatus.Some? ==> offerStatus.value in OfferPreconditions(event))
  }

  predicate IsExecutorOffer(status: OfferStatus) {
    status in {Accepted, OfferStatus.WorkSubmitted, BackForOverride, OfferStatus.Completed}
  }

  predicate IsActiveOffer(status: OfferStatus) {
    status.Sent? || IsExecutorOffer(status)
  }

  predicate IsPendingOffer(status: OfferStatus) {
    status.Sent?
  }

  predicate AcceptsOffers(status: OrderStatus) {
    status in {Waiting, AwaitingConfirmation}
  }

  predicate CompanySeesTaskFiles(status: OrderStatus, offerStatus: Option<OfferStatus>) {
    (offerStatus.Some? && IsExecutorOffer(offerStatus.value)) || AcceptsOffers(status)
  }

  predicate IsFinallyRejected(status: Option<OfferStatus>, rejectionCount: nat) {
    status == Some(OfferStatus.Rejected) && rejectionCount >= MAX_OFFER_REJECTIONS
  }

  predicate CanResubmitOffer(status: OfferStatus, rejectionCount: nat) {
    status in RESUBMITTABLE_OFFER_STATUSES && !IsFinallyRejected(Some(status), rejectionCount)
  }

  /** The UTC calendar date of a moment, as a day number. */
  function UtcCalendarDate(moment: Moment): int {
    moment / MILLISECONDS_IN_A_DAY
  }

  predicate IsOfferExpired(proposedDeadline: Moment, today: int) {
    UtcCalendarDate(proposedDeadline) < today
  }

  predicate CanDeleteOrder(status: OrderStatus) {
    status in {Waiting, AwaitingConfirmation}
  }

  predicate CanUploadWork(status: OrderStatus) {
    status in {InProgress, CompletionDisputed}
  }

  predicate CanVerifyArea(status: OrderStatus) {
    status in {InProgress, AwaitingCompletionConfirmation, CompletionDisputed}
  }
}
