/** The pure machine: an order's status and an event give the next status and a list of
    effects, or a conflict. It never sees the database; the transition service does. */
module OrderStateMachine {
  import opened Collections
  import opened SharedRules

  datatype OrderStateContext = OrderStateContext(clientId: UserId, status: OrderStatus)

  /** Another offer of the same order that still waits for the client's choice. */
  datatype RivalOffer = RivalOffer(offerId: Id, companyId: UserId)

  datatype OrderEvent =
    | OfferSubmittedEvent(offerId: Id, companyId: UserId, statusBefore: Option<OfferStatus>, rejectionCount: nat)
    | OfferWithdrawnEvent(offerId: Id, companyId: UserId, status: OfferStatus, otherActiveOffers: nat)
    | OfferRejectedEvent(offerId: Id, companyId: UserId, status: OfferStatus, otherActiveOffers: nat)
    | OfferAcceptedEvent(offerId: Id, companyId: UserId, status: OfferStatus,
                         proposedPrice: Money, proposedDeadline: Moment, today: int,
                         offerEditedAt: Option<Moment>, seenOfferEditedAt: Option<Moment>,
                         otherOffers: seq<RivalOffer>)
    | WorkSubmittedEvent(offerId: Id, companyId: UserId, status: OfferStatus)
    | WorkConfirmedEvent(offerId: Id, companyId: UserId, status: OfferStatus, completionComment: Option<string>)
    | WorkDisputedEvent(offerId: Id, companyId: UserId, status: OfferStatus, correction: string)
  {
    function Type(): OrderEventType {
      match this
      case OfferSubmittedEvent(_, _, _, _) => OrderEventType.OfferSubmitted
      case OfferWithdrawnEvent(_, _, _, _) => OrderEventType.OfferWithdrawn
      case OfferRejectedEvent(_, _, _, _) => OrderEventType.OfferRejected
      case OfferAcceptedEvent(_, _, _, _, _, _, _, _, _) => OrderEventType.OfferAccepted
      case WorkSubmittedEvent(_, _, _) => OrderEventType.WorkSubmitted
      case WorkConfirmedEvent(_, _, _, _) => OrderEventType.WorkConfirmed
      case WorkDisputedEvent(_, _, _, _) => OrderEventType.WorkDisputed
    }

    /** The offer's status at the event; `None` only for an offer created by it. */
    function OfferStatus(): Option<OfferStatus> {
      if OfferSubmittedEvent? then statusBefore else Some(status)
    }
  }

  datatype OrderSideEffect =
    | SetOfferStatus(offerId: Id, companyId: UserId, status: OfferStatus)
    | SetOrderDeal(price: Money, deadline: Moment)
    | SetCorrectionComment(correction: string)
    | SetCompletionComment(completion: Option<string>)
    | CreateNotification(userId: UserId, kind: NotificationType, collapseKey: Option<CollapseKey>)

  datatype OrderTransitionResult =
    OrderTransitionResult(fromStatus: OrderStatus, nextStatus: OrderStatus, effects: seq<OrderSideEffect>)

  /** Every refusal of the order's transactions. */
  datatype Refusal =
    | OrderNotFound
    | OfferNotFound
    | NoExecutor
    | InvalidStateTransition
    | InvalidOfferStatus
    | OfferFinallyRejected
    | OfferExpired
    | OfferChanged
    | NothingToSubmit
    | UploadForbidden
    | SubmissionAlreadySent
    | AreaForbidden
    | OrderNotDeletable
    | OverQuota

  /** The two effects every losing rival gets when another offer is accepted. */
  function RivalEffects(rivals: seq<RivalOffer>): seq<OrderSideEffect> {
    if rivals == [] then []
    else
      var last := rivals[|rivals| - 1];
      RivalEffects(rivals[..|rivals| - 1]) + [
        SetOfferStatus(last.offerId, last.companyId, NotAccepted),
        CreateNotification(last.companyId, NotificationType.OfferNotAccepted, Some(OfferKey(last.offerId)))
      ]
  }

  function AcceptedEffects(event: OrderEvent): seq<OrderSideEffect>
    requires event.OfferAcceptedEvent?
  {
    [
      SetOfferStatus(event.offerId, event.companyId, Accepted),
      SetOrderDeal(event.proposedPrice, event.proposedDeadline),
      CreateNotification(event.companyId, NotificationType.OfferAccepted, Some(OfferKey(event.offerId)))
    ] + RivalEffects(event.otherOffers)
  }

  /** The loop of `offerAccepted`: the effect list grows by two per rival. */
  method OfferAccepted(event: OrderEvent) returns (effects: seq<OrderSideEffect>)
    requires event.OfferAcceptedEvent?
    ensures effects == AcceptedEffects(event)
  {
    effects := [
      SetOfferStatus(event.offerId, event.companyId, Accepted),
      SetOrderDeal(event.proposedPrice, event.proposedDeadline),
      CreateNotification(event.companyId, NotificationType.OfferAccepted, Some(OfferKey(event.offerId)))
    ];
    ghost var head := effects;
    var rivals := event.otherOffers;
    for i := 0 to |rivals|
      invariant effects == head + RivalEffects(rivals[..i])
    {
      assert rivals[..i + 1][..i] == rivals[..i];
      effects := effects + [
        SetOfferStatus(rivals[i].offerId, rivals[i].companyId, NotAccepted),
        CreateNotification(rivals[i].companyId, NotificationType.OfferNotAccepted, Some(OfferKey(rivals[i].offerId)))
      ];
    }
    assert rivals[..|rivals|] == rivals;
  }

  function LeftSelection(event: OrderEvent, offerStatus: OfferStatus, to: UserId, kind: NotificationType)
    : (OrderStatus, seq<OrderSideEffect>)
    requires event.OfferWithdrawnEvent? || event.OfferRejectedEvent?
  {
    (if event.otherActiveOffers > 0 then AwaitingConfirmation else Waiting,
     [SetOfferStatus(event.offerId, event.companyId, offerStatus),
      CreateNotification(to, kind, Some(OfferKey(event.offerId)))])
  }

  /** The handler of an event: next status and effects. */
  function Handle(context: OrderStateContext, event: OrderEvent): (OrderStatus, seq<OrderSideEffect>) {
    match event
    case OfferSubmittedEvent(offerId, companyId, _, _) =>
      (AwaitingConfirmation,
       [SetOfferStatus(offerId, companyId, Sent),
        CreateNotification(context.clientId, NotificationType.OfferReceived, Some(OfferKey(offerId)))])
    case OfferWithdrawnEvent(_, _, _, _) =>
      LeftSelection(event, Withdrawn, context.clientId, NotificationType.OfferWithdrawn)
    case OfferRejectedEvent(_, companyId, _, _) =>
      LeftSelection(event, OfferStatus.Rejected, companyId, NotificationType.OfferRejected)
    case OfferAcceptedEvent(_, _, _, _, _, _, _, _, _) =>
      (InProgress, AcceptedEffects(event))
    case WorkSubmittedEvent(offerId, companyId, _) =>
      (AwaitingCompletionConfirmation,
       [SetOfferStatus(offerId, companyId, OfferStatus.WorkSubmitted),
        CreateNotification(context.clientId, NotificationType.WorkSubmitted, None)])
    case WorkConfirmedEvent(offerId, companyId, _, comment) =>
      (OrderStatus.Completed,
       [SetOfferStatus(offerId, companyId, OfferStatus.Completed),
        SetCompletionComment(comment),
        CreateNotification(companyId, NotificationType.WorkConfirmed, None)])
    case WorkDisputedEvent(offerId, companyId, _, comment) =>
      (CompletionDisputed,
       [SetOfferStatus(offerId, companyId, BackForOverride),
        SetCorrectionComment(comment),
        CreateNotification(companyId, NotificationType.WorkDisputed, None)])
  }

  /** The checks of `transition`, in the order the original makes them. */
  function Check(status: OrderStatus, event: OrderEvent): Option<Refusal> {
    if !CanTransition(status, event.Type(), None) then
      Some(InvalidStateTransition)
    else if event.OfferStatus().Some? && event.OfferStatus().value !in OfferPreconditions(event.Type()) then
      Some(InvalidOfferStatus)
    else if event.OfferSubmittedEvent? && IsFinallyRejected(event.statusBefore, event.rejectionCount) then
      Some(Refusal.OfferFinallyRejected)
    else if event.OfferAcceptedEvent? && IsOfferExpired(event.proposedDeadline, event.today) then
      Some(Refusal.OfferExpired)
    else if event.OfferAcceptedEvent? && event.offerEditedAt != event.seenOfferEditedAt then
      Some(Refusal.OfferChanged)
    else None
  }

  function Transition(context: OrderStateContext, event: OrderEvent): Result<OrderTransitionResult, Refusal> {
    match Check(context.status, event)
    case Some(refusal) => Err(refusal)
    case None =>
      var (next, effects) := Handle(context, event);
      Ok(OrderTransitionResult(context.status, next, effects))
  }
}
