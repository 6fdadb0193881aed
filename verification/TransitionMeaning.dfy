/** What a committed transition means for the rows, stated without the machine's effect
    lists: which commands commit, and the exact new value of every row. */
module TransitionMeaning {
  import opened Collections
  import opened SharedRules
  import opened OrderStateMachine
  import opened OrderRecords
  import opened OrderTransitions

  function EventOf(command: TransitionCommand): OrderEventType {
    match command
    case SubmitOffer(_, _) => OrderEventType.OfferSubmitted
    case WithdrawOffer(_) => OrderEventType.OfferWithdrawn
    case RejectOffer(_) => OrderEventType.OfferRejected
    case AcceptOffer(_, _) => OrderEventType.OfferAccepted
    case SubmitWork => OrderEventType.WorkSubmitted
    case ConfirmWork(_) => OrderEventType.WorkConfirmed
    case DisputeWork(_) => OrderEventType.WorkDisputed
  }

  /** The status the command gives the offer it is about. */
  function TargetStatus(command: TransitionCommand): OfferStatus {
    match command
    case SubmitOffer(_, _) => Sent
    case WithdrawOffer(_) => Withdrawn
    case RejectOffer(_) => OfferStatus.Rejected
    case AcceptOffer(_, _) => Accepted
    case SubmitWork => OfferStatus.WorkSubmitted
    case ConfirmWork(_) => OfferStatus.Completed
    case DisputeWork(_) => BackForOverride
  }

  ghost predicate OtherSent(offers: seq<OfferRow>, id: Id) {
    exists i :: 0 <= i < |offers| && offers[i].status.Sent? && offers[i].id != id
  }

  ghost function StatusAfter(db: Db, command: TransitionCommand, id: Id): OrderStatus {
    match command
    case SubmitOffer(_, _) => AwaitingConfirmation
    case WithdrawOffer(_) => if OtherSent(db.offers, id) then AwaitingConfirmation else Waiting
    case RejectOffer(_) => if OtherSent(db.offers, id) then AwaitingConfirmation else Waiting
    case AcceptOffer(_, _) => InProgress
    case SubmitWork => AwaitingCompletionConfirmation
    case ConfirmWork(_) => OrderStatus.Completed
    case DisputeWork(_) => CompletionDisputed
  }

  function OfferAfter(o: OfferRow, command: TransitionCommand, id: Id): OfferRow {
    if o.id == id then SetStatus(o, TargetStatus(command))
    else if command.AcceptOffer? && o.status.Sent? then SetStatus(o, NotAccepted)
    else o
  }

  ghost function OrderAfter(db: Db, command: TransitionCommand, offer: OfferRow, now: Moment): OrderRow {
    var moved := db.order.(status := StatusAfter(db, command, offer.id), updatedAt := now);
    match command
    case AcceptOffer(_, _) =>
      moved.(price := Some(offer.proposedPrice), deadline := Some(offer.proposedDeadline))
    case ConfirmWork(comment) => moved.(completionComment := comment)
    case DisputeWork(comment) => moved.(correctionComment := Some(comment))
    case _ => moved
  }

  /** The command commits: the order's status, the offer's status and the event's own checks agree. */
  predicate Allowed(db: Db, command: TransitionCommand, offer: OfferRow, now: Moment) {
    var statusAtEvent := if command.SubmitOffer? then command.offerStatusBefore else Some(offer.status);
    CanTransition(db.order.status, EventOf(command), statusAtEvent) &&
    (command.SubmitOffer? ==> !IsFinallyRejected(command.offerStatusBefore, offer.rejectionCount)) &&
    (command.AcceptOffer? ==>
      !IsOfferExpired(offer.proposedDeadline, UtcCalendarDate(now)) &&
      offer.editedAt == command.seenOfferEditedAt)
  }

  ghost predicate Moved(db: Db, command: TransitionCommand, offer: OfferRow, now: Moment, after: Db) {
    after.order == OrderAfter(db, command, offer, now) &&
    |after.offers| == |db.offers| &&
    (forall i :: 0 <= i < |db.offers| ==> after.offers[i] == OfferAfter(db.offers[i], command, offer.id)) &&
    after.submissions == db.submissions &&
    after.files == db.files &&
    NoDuplicateUnread(after.notes) &&
    Filter(after.notes, Read()) == Filter(db.notes, Read())
  }

  // -------------------------------------------- the effect lists, unrolled

  lemma Snoc(effects: seq<OrderSideEffect>, e: OrderSideEffect, order: OrderRow)
    ensures UpdatesOf(effects + [e]) ==
      UpdatesOf(effects) + (if e.SetOfferStatus? then [OfferStatusUpdate(e.offerId, e.companyId, e.status)] else [])
    ensures DraftsOf(effects + [e]) ==
      DraftsOf(effects) + (if e.CreateNotification? then [NotificationOf(e)] else [])
    ensures OrderData(order, effects + [e]) ==
      match e
      case SetOrderDeal(price, deadline) =>
        OrderData(order, effects).(price := Some(price), deadline := Some(deadline))
      case SetCorrectionComment(comment) => OrderData(order, effects).(correctionComment := Some(comment))
      case SetCompletionComment(comment) => OrderData(order, effects).(completionComment := comment)
      case _ => OrderData(order, effects)
  {
    assert (effects + [e])[..|effects + [e]| - 1] == effects;
  }

  /** Acceptance names the winner and every rival once, and writes the deal once. */
  lemma {:induction false} AcceptedShape(event: OrderEvent, order: OrderRow)
    requires event.OfferAcceptedEvent?
    ensures var rivals := event.otherOffers;
      var updates, drafts := UpdatesOf(AcceptedEffects(event)), DraftsOf(AcceptedEffects(event));
      |updates| == |drafts| == |rivals| + 1 &&
      updates[0] == OfferStatusUpdate(event.offerId, event.companyId, Accepted) &&
      drafts[0] == NotificationRow(event.companyId, NotificationType.OfferAccepted, Some(OfferKey(event.offerId)), false) &&
      (forall i :: 1 <= i < |updates| ==>
        updates[i] == OfferStatusUpdate(rivals[i - 1].offerId, rivals[i - 1].companyId, NotAccepted)) &&
      (forall i :: 1 <= i < |drafts| ==>
        drafts[i] == NotificationRow(rivals[i - 1].companyId, NotificationType.OfferNotAccepted,
                                     Some(OfferKey(rivals[i - 1].offerId)), false)) &&
      OrderData(order, AcceptedEffects(event)) ==
        order.(price := Some(event.proposedPrice), deadline := Some(event.proposedDeadline))
    decreases |event.otherOffers|
  {
    var rivals := event.otherOffers;
    var a := SetOfferStatus(event.offerId, event.companyId, Accepted);
    var b := SetOrderDeal(event.proposedPrice, event.proposedDeadline);
    var c := CreateNotification(event.companyId, NotificationType.OfferAccepted, Some(OfferKey(event.offerId)));
    if rivals == [] {
      Snoc([], a, order);
      Snoc([a], b, order);
      Snoc([a, b], c, order);
      assert [] + [a] == [a] && [a] + [b] == [a, b] && [a, b] + [c] == AcceptedEffects(event);
    } else {
      var n := |rivals| - 1;
      var shorter := event.(otherOffers := rivals[..n]);
      AcceptedShape(shorter, order);
      var d := SetOfferStatus(rivals[n].offerId, rivals[n].companyId, NotAccepted);
      var e := CreateNotification(rivals[n].companyId, NotificationType.OfferNotAccepted,
                                  Some(OfferKey(rivals[n].offerId)));
      Snoc(AcceptedEffects(shorter), d, order);
      Snoc(AcceptedEffects(shorter) + [d], e, order);
      assert AcceptedEffects(event) == AcceptedEffects(shorter) + [d] + [e];
    }
  }

  lemma ThreeEffects(a: OrderSideEffect, b: OrderSideEffect, c: OrderSideEffect, order: OrderRow)
    requires a.SetOfferStatus? && c.CreateNotification? && (b.SetCompletionComment? || b.SetCorrectionComment?)
    ensures UpdatesOf([a, b, c]) == [OfferStatusUpdate(a.offerId, a.companyId, a.status)]
    ensures DraftsOf([a, b, c]) == [NotificationOf(c)]
    ensures OrderData(order, [a, b, c]) ==
      if b.SetCompletionComment? then order.(completionComment := b.completion)
      else order.(correctionComment := Some(b.correction))
  {
    Snoc([], a, order);
    Snoc([a], b, order);
    Snoc([a, b], c, order);
    assert [] + [a] == [a] && [a] + [b] == [a, b] && [a, b] + [c] == [a, b, c];
  }

  lemma TwoEffects(a: OrderSideEffect, b: OrderSideEffect, order: OrderRow)
    requires a.SetOfferStatus? && b.CreateNotification?
    ensures UpdatesOf([a, b]) == [OfferStatusUpdate(a.offerId, a.companyId, a.status)]
    ensures DraftsOf([a, b]) == [NotificationOf(b)]
    ensures OrderData(order, [a, b]) == order
  {
    Snoc([], a, order);
    Snoc([a], b, order);
    assert [] + [a] == [a] && [a] + [b] == [a, b];
  }

  /** Every other event names one offer and sends one notification. */
  lemma SingleShape(context: OrderStateContext, event: OrderEvent, order: OrderRow)
    requires !event.OfferAcceptedEvent?
    ensures var effects := Handle(context, event).1;
      |UpdatesOf(effects)| == |DraftsOf(effects)| == 1 &&
      effects[0].SetOfferStatus? && effects[0].offerId == event.offerId && effects[0].companyId == event.companyId &&
      UpdatesOf(effects)[0] == OfferStatusUpdate(effects[0].offerId, effects[0].companyId, effects[0].status) &&
      effects[|effects| - 1].CreateNotification? &&
      DraftsOf(effects)[0] == NotificationOf(effects[|effects| - 1]) &&
      OrderData(order, effects) ==
        if event.WorkConfirmedEvent? then order.(completionComment := event.completionComment)
        else if event.WorkDisputedEvent? then order.(correctionComment := Some(event.correction))
        else order
  {
    var effects := Handle(context, event).1;
    if event.WorkConfirmedEvent? || event.WorkDisputedEvent? {
      assert effects == [effects[0], effects[1], effects[2]];
      ThreeEffects(effects[0], effects[1], effects[2], order);
    } else {
      assert effects == [effects[0], effects[1]];
      TwoEffects(effects[0], effects[1], order);
    }
  }

  /** A machine result never names an offer twice and never replaces its own notification,
      so the batched writes of the service are safe. */
  lemma ResultIsDistinct(db: Db, command: TransitionCommand, offer: OfferRow, now: Moment)
    requires UniqueOffers(db.offers)
    ensures var context := OrderStateContext(db.order.clientId, db.order.status);
      var effects := Handle(context, BuildEvent(db, command, offer, now)).1;
      UniqueTargets(UpdatesOf(effects)) && NoDuplicateUnread(DraftsOf(effects))
  {
    var context := OrderStateContext(db.order.clientId, db.order.status);
    var event := BuildEvent(db, command, offer, now);
    if command.AcceptOffer? {
      AcceptedShape(event, db.order);
      FilterIsUnique(db.offers, Rivals(offer.id));
      var rivals := Filter(db.offers, Rivals(offer.id));
      forall i | 0 <= i < |rivals| ensures rivals[i].id != offer.id {
        assert rivals[i] in rivals;
      }
    } else {
      SingleShape(context, event, db.order);
    }
  }

  lemma {:induction false} FilterIsUnique(offers: seq<OfferRow>, p: OfferRow -> bool)
    requires UniqueOffers(offers)
    ensures UniqueOffers(Filter(offers, p))
  {
    if offers != [] {
      var n := |offers| - 1;
      FilterIsUnique(offers[..n], p);
      var kept := Filter(offers[..n], p);
      forall i | 0 <= i < |kept| ensures kept[i].id != offers[n].id && kept[i].companyId != offers[n].companyId {
        assert kept[i] in kept;
        var j :| 0 <= j < n && offers[..n][j] == kept[i];
        assert offers[j] == kept[i];
      }
    }
  }

  lemma NewStatusOf(db: Db, command: TransitionCommand, offer: OfferRow, now: Moment, o: OfferRow)
    requires UniqueOffers(db.offers) && o in db.offers && offer in db.offers
    ensures var context := OrderStateContext(db.order.clientId, db.order.status);
      var effects := Handle(context, BuildEvent(db, command, offer, now)).1;
      Updated(o, StatusFor(UpdatesOf(effects), o.id)) == OfferAfter(o, command, offer.id)
  {
    var context := OrderStateContext(db.order.clientId, db.order.status);
    var event := BuildEvent(db, command, offer, now);
    if command.AcceptOffer? {
      AcceptedShape(event, db.order);
      AcceptedStatusOf(db.offers, command, offer, o, UpdatesOf(AcceptedEffects(event)));
    } else {
      SingleShape(context, event, db.order);
    }
  }

  /** The winner's update and one per rival, as the acceptance lists them. */
  ghost predicate WinnerAndRivals(updates: seq<OfferStatusUpdate>, offer: OfferRow, rivals: seq<OfferRow>) {
    |updates| == |rivals| + 1 && updates[0] == OfferStatusUpdate(offer.id, offer.companyId, Accepted) &&
    forall i :: 1 <= i < |updates| ==>
      updates[i] == OfferStatusUpdate(rivals[i - 1].id, rivals[i - 1].companyId, NotAccepted)
  }

  lemma AcceptedStatusOf(offers: seq<OfferRow>, command: TransitionCommand, offer: OfferRow, o: OfferRow,
                         updates: seq<OfferStatusUpdate>)
    requires UniqueOffers(offers) && o in offers && offer in offers && command.AcceptOffer?
    requires WinnerAndRivals(updates, offer, Filter(offers, Rivals(offer.id)))
    ensures Updated(o, StatusFor(updates, o.id)) == OfferAfter(o, command, offer.id)
  {
    var rivals := Filter(offers, Rivals(offer.id));
    forall i | 1 <= i < |updates| && updates[i].offerId == o.id ensures o.status.Sent? && o.id != offer.id {
      RivalIs(offers, offer.id, o, i - 1);
    }
    if o.id == offer.id {
      assert updates[0].offerId == o.id;
    } else if o.status.Sent? {
      assert o in rivals;
      var k :| 0 <= k < |rivals| && rivals[k] == o;
      assert updates[k + 1].offerId == o.id;
    }
  }

  lemma RivalIs(offers: seq<OfferRow>, id: Id, o: OfferRow, i: nat)
    requires UniqueOffers(offers) && o in offers
    requires i < |Filter(offers, Rivals(id))| && Filter(offers, Rivals(id))[i].id == o.id
    ensures o.status.Sent? && o.id != id
  {
    var r := Filter(offers, Rivals(id))[i];
    assert r in Filter(offers, Rivals(id));
    TheOffer(offers, r);
    TheOffer(offers, o);
  }

  /** The meaning of a transition, for every command and every set of rows. */
  lemma TransitionMeans(db: Db, command: TransitionCommand, now: Moment)
    requires UniqueOffers(db.offers) && NoDuplicateUnread(db.notes)
    ensures var r, offer := Transact(db, command, now), ResolveOffer(db, command);
      (r.Ok? <==> offer.Ok? && Allowed(db, command, offer.value, now)) &&
      (r.Ok? ==>
        r.value.offerId == offer.value.id && r.value.companyId == offer.value.companyId &&
        r.value.fromStatus == db.order.status && r.value.nextStatus == r.value.db.order.status &&
        Moved(db, command, offer.value, now, r.value.db))
  {
    var resolved := ResolveOffer(db, command);
    if resolved.Ok? {
      CheckPassesIff(db, command, resolved.value, now);
      EffectsMove(db, command, resolved.value, now);
    }
  }

  /** The machine's checks, in one condition. */
  lemma CheckPassesIff(db: Db, command: TransitionCommand, offer: OfferRow, now: Moment)
    ensures Check(db.order.status, BuildEvent(db, command, offer, now)).None? <==> Allowed(db, command, offer, now)
  {
  }

  /** The handler's effects change the offers, the order columns and the notifications as stated. */
  lemma EffectsMove(db: Db, command: TransitionCommand, offer: OfferRow, now: Moment)
    requires UniqueOffers(db.offers) && NoDuplicateUnread(db.notes) && offer in db.offers
    ensures var context := OrderStateContext(db.order.clientId, db.order.status);
      var (nextStatus, effects) := Handle(context, BuildEvent(db, command, offer, now));
      nextStatus == StatusAfter(db, command, offer.id) &&
      Moved(db, command, offer, now, Committed(db, OrderTransitionResult(db.order.status, nextStatus, effects), now))
  {
    var context := OrderStateContext(db.order.clientId, db.order.status);
    var event := BuildEvent(db, command, offer, now);
    var effects := Handle(context, event).1;
    ResultIsDistinct(db, command, offer, now);
    OffersAfterEffects(db, effects);
    RestAfterEffects(db, effects);
    NotesAfterEffects(db, effects);
    ReplaceKeepsNotes(db.notes, DraftsOf(effects));
    forall i | 0 <= i < |db.offers|
      ensures ApplyAll(db, effects).offers[i] == OfferAfter(db.offers[i], command, offer.id)
    {
      NewStatusOf(db, command, offer, now, db.offers[i]);
    }
    OthersCounted(db.offers, offer.id);
    if command.AcceptOffer? {
      AcceptedShape(event, db.order);
    } else {
      SingleShape(context, event, db.order);
    }
  }

  lemma OthersCounted(offers: seq<OfferRow>, id: Id)
    ensures |Filter(offers, Rivals(id))| > 0 <==> OtherSent(offers, id)
  {
    var others := Filter(offers, Rivals(id));
    if others != [] {
      assert others[0] in others;
    }
    if OtherSent(offers, id) {
      var i :| 0 <= i < |offers| && offers[i].status.Sent? && offers[i].id != id;
      assert offers[i] in others;
    }
  }
}
