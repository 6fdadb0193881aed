/** One transition as one transaction: resolve the offer, build the event under the lock,
    ask the machine, apply the effects. The effects are applied here one by one; the
    batched writes of the service are proved equal to this in `OrderStore`. */
module OrderTransitions {
  import opened Collections
  import opened SharedRules
  import opened OrderStateMachine
  import opened OrderRecords

  datatype TransitionCommand =
    | SubmitOffer(offerId: Id, offerStatusBefore: Option<OfferStatus>)
    | WithdrawOffer(offerId: Id)
    | RejectOffer(offerId: Id)
    | AcceptOffer(offerId: Id, seenOfferEditedAt: Option<Moment>)
    | SubmitWork
    | ConfirmWork(completionComment: Option<string>)
    | DisputeWork(correctionComment: string)
  {
    predicate NamesOffer() {
      SubmitOffer? || WithdrawOffer? || RejectOffer? || AcceptOffer?
    }
  }

  datatype OfferStatusUpdate = OfferStatusUpdate(offerId: Id, companyId: UserId, status: OfferStatus)

  datatype AppliedTransition =
    AppliedTransition(db: Db, offerId: Id, companyId: UserId, fromStatus: OrderStatus, nextStatus: OrderStatus,
                      offerUpdates: seq<OfferStatusUpdate>, notifications: seq<NotificationRow>)

  function ResolveOffer(db: Db, command: TransitionCommand): Result<OfferRow, Refusal> {
    if command.NamesOffer() then
      match First(db.offers, WithId(command.offerId))
      case Some(o) => Ok(o)
      case None => Err(OfferNotFound)
    else
      match First(db.offers, Executes())
      case Some(o) => Ok(o)
      case None => Err(NoExecutor)
  }

  function ToRivals(offers: seq<OfferRow>): (r: seq<RivalOffer>)
    ensures |r| == |offers|
    ensures forall i :: 0 <= i < |r| ==> r[i] == RivalOffer(offers[i].id, offers[i].companyId)
  {
    seq(|offers|, i requires 0 <= i < |offers| => RivalOffer(offers[i].id, offers[i].companyId))
  }

  function BuildEvent(db: Db, command: TransitionCommand, offer: OfferRow, now: Moment): OrderEvent {
    var id, company, status := offer.id, offer.companyId, offer.status;
    match command
    case SubmitOffer(_, before) => OfferSubmittedEvent(id, company, before, offer.rejectionCount)
    case WithdrawOffer(_) => OfferWithdrawnEvent(id, company, status, |Filter(db.offers, Rivals(id))|)
    case RejectOffer(_) => OfferRejectedEvent(id, company, status, |Filter(db.offers, Rivals(id))|)
    case AcceptOffer(_, seen) =>
      OfferAcceptedEvent(id, company, status, offer.proposedPrice, offer.proposedDeadline,
                         UtcCalendarDate(now), offer.editedAt, seen, ToRivals(Filter(db.offers, Rivals(id))))
    case SubmitWork => WorkSubmittedEvent(id, company, status)
    case ConfirmWork(comment) => WorkConfirmedEvent(id, company, status, comment)
    case DisputeWork(comment) => WorkDisputedEvent(id, company, status, comment)
  }

  // ------------------------------------------------- effects, one at a time

  function NotificationOf(effect: OrderSideEffect): NotificationRow
    requires effect.CreateNotification?
  {
    NotificationRow(effect.userId, effect.kind, effect.collapseKey, false)
  }

  function ApplyEffect(db: Db, effect: OrderSideEffect): Db {
    match effect
    case SetOfferStatus(id, _, status) => db.(offers := SetStatusById(db.offers, id, status))
    case SetOrderDeal(price, deadline) =>
      db.(order := db.order.(price := Some(price), deadline := Some(deadline)))
    case SetCorrectionComment(comment) => db.(order := db.order.(correctionComment := Some(comment)))
    case SetCompletionComment(comment) => db.(order := db.order.(completionComment := comment))
    case CreateNotification(_, _, _) => db.(notes := Replace(db.notes, [NotificationOf(effect)]))
  }

  function ApplyAll(db: Db, effects: seq<OrderSideEffect>): Db {
    if effects == [] then db
    else ApplyEffect(ApplyAll(db, effects[..|effects| - 1]), effects[|effects| - 1])
  }

  function UpdatesOf(effects: seq<OrderSideEffect>): seq<OfferStatusUpdate> {
    if effects == [] then []
    else
      var last := effects[|effects| - 1];
      var rest := UpdatesOf(effects[..|effects| - 1]);
      if last.SetOfferStatus? then rest + [OfferStatusUpdate(last.offerId, last.companyId, last.status)] else rest
  }

  function DraftsOf(effects: seq<OrderSideEffect>): (r: seq<NotificationRow>)
    ensures Unread(r)
  {
    if effects == [] then []
    else
      var last := effects[|effects| - 1];
      var rest := DraftsOf(effects[..|effects| - 1]);
      if last.CreateNotification? then rest + [NotificationOf(last)] else rest
  }

  function Committed(db: Db, result: OrderTransitionResult, now: Moment): Db {
    var applied := ApplyAll(db, result.effects);
    applied.(order := applied.order.(status := result.nextStatus, updatedAt := now))
  }

  /** `OrderTransitionService.run`: an error means the transaction changes nothing. */
  function Transact(db: Db, command: TransitionCommand, now: Moment): Result<AppliedTransition, Refusal> {
    match ResolveOffer(db, command)
    case Err(e) => Err(e)
    case Ok(offer) =>
      var context := OrderStateContext(db.order.clientId, db.order.status);
      match Transition(context, BuildEvent(db, command, offer, now))
      case Err(e) => Err(e)
      case Ok(result) =>
        Ok(AppliedTransition(Committed(db, result, now), offer.id, offer.companyId,
                             result.fromStatus, result.nextStatus,
                             UpdatesOf(result.effects), DraftsOf(result.effects)))
  }

  // ---------------------------------------- what the effects do to the rows

  ghost predicate UniqueTargets(updates: seq<OfferStatusUpdate>) {
    forall i, j :: 0 <= i < j < |updates| ==> updates[i].offerId != updates[j].offerId
  }

  function StatusFor(updates: seq<OfferStatusUpdate>, id: Id): (r: Option<OfferStatus>)
    ensures r.None? <==> forall i :: 0 <= i < |updates| ==> updates[i].offerId != id
    ensures r.Some? ==> exists i :: 0 <= i < |updates| && updates[i].offerId == id && updates[i].status == r.value
  {
    if updates == [] then None
    else if updates[|updates| - 1].offerId == id then Some(updates[|updates| - 1].status)
    else StatusFor(updates[..|updates| - 1], id)
  }

  function Updated(o: OfferRow, status: Option<OfferStatus>): OfferRow {
    if status.Some? then SetStatus(o, status.value) else o
  }

  /** When each offer is named once, the effects give every row its own new status and nothing else. */
  lemma {:induction false} OffersAfterEffects(db: Db, effects: seq<OrderSideEffect>)
    requires UniqueTargets(UpdatesOf(effects))
    ensures |ApplyAll(db, effects).offers| == |db.offers|
    ensures forall i :: 0 <= i < |db.offers| ==>
      ApplyAll(db, effects).offers[i] == Updated(db.offers[i], StatusFor(UpdatesOf(effects), db.offers[i].id))
  {
    if effects != [] {
      var n := |effects| - 1;
      var before, all := UpdatesOf(effects[..n]), UpdatesOf(effects);
      assert forall i :: 0 <= i < |before| ==> all[i] == before[i];
      OffersAfterEffects(db, effects[..n]);
      if effects[n].SetOfferStatus? {
        var last := OfferStatusUpdate(effects[n].offerId, effects[n].companyId, effects[n].status);
        assert all == before + [last];
        forall i | 0 <= i < |db.offers|
          ensures ApplyAll(db, effects).offers[i] == Updated(db.offers[i], StatusFor(all, db.offers[i].id))
        {
          LastUpdate(before, last, db.offers[i]);
        }
      }
    }
  }

  /** A new update of an offer not named before sets its status and no other's. */
  lemma LastUpdate(before: seq<OfferStatusUpdate>, last: OfferStatusUpdate, o: OfferRow)
    requires UniqueTargets(before + [last])
    ensures Updated(o, StatusFor(before + [last], o.id)) ==
      if o.id == last.offerId then SetStatus(Updated(o, StatusFor(before, o.id)), last.status)
      else Updated(o, StatusFor(before, o.id))
  {
    var all := before + [last];
    assert all[..|all| - 1] == before && all[|all| - 1] == last;
    forall i | 0 <= i < |before| ensures before[i].offerId != last.offerId {
      assert all[i] == before[i];
    }
  }

  /** The single order update carries every field the effects name, the last one winning. */
  function OrderData(order: OrderRow, effects: seq<OrderSideEffect>): OrderRow {
    if effects == [] then order
    else
      var rest := OrderData(order, effects[..|effects| - 1]);
      match effects[|effects| - 1]
      case SetOrderDeal(price, deadline) => rest.(price := Some(price), deadline := Some(deadline))
      case SetCorrectionComment(comment) => rest.(correctionComment := Some(comment))
      case SetCompletionComment(comment) => rest.(completionComment := comment)
      case _ => rest
  }

  /** Effects touch the order columns, the offers and the notifications independently. */
  lemma {:induction false} RestAfterEffects(db: Db, effects: seq<OrderSideEffect>)
    ensures ApplyAll(db, effects).order == OrderData(db.order, effects)
    ensures ApplyAll(db, effects).submissions == db.submissions
    ensures ApplyAll(db, effects).files == db.files
  {
    if effects != [] {
      RestAfterEffects(db, effects[..|effects| - 1]);
    }
  }

  /** One delete for all keys and one insert equal replacing the notifications one by one,
      because the drafts of a transition never replace each other. */
  lemma {:induction false} NotesAfterEffects(db: Db, effects: seq<OrderSideEffect>)
    requires NoDuplicateUnread(DraftsOf(effects))
    ensures ApplyAll(db, effects).notes == Replace(db.notes, DraftsOf(effects))
  {
    if effects == [] {
      FilterAll(db.notes, Kept([]));
    } else {
      var n := |effects| - 1;
      var before, all := DraftsOf(effects[..n]), DraftsOf(effects);
      assert forall i :: 0 <= i < |before| ==> all[i] == before[i];
      NotesAfterEffects(db, effects[..n]);
      if effects[n].CreateNotification? {
        var last := NotificationOf(effects[n]);
        assert all == before + [last];
        OneMoreDraft(db.notes, before, last);
      }
    }
  }

  lemma OneMoreDraft(notes: seq<NotificationRow>, drafts: seq<NotificationRow>, last: NotificationRow)
    requires NoDuplicateUnread(drafts + [last])
    ensures Replace(Replace(notes, drafts), [last]) == Replace(notes, drafts + [last])
  {
    FilterConcat(Filter(notes, Kept(drafts)), drafts, Kept([last]));
    DraftsSurvive(drafts, last);
    FilterAll(drafts, Kept([last]));
    forall n: NotificationRow ensures Kept(drafts + [last])(n) <==> Kept(drafts)(n) && Kept([last])(n) {
      SupersededByOneMore(n, drafts, last);
    }
    FilterTwice(notes, Kept(drafts), Kept([last]), Kept(drafts + [last]));
  }

  lemma DraftsSurvive(drafts: seq<NotificationRow>, last: NotificationRow)
    requires NoDuplicateUnread(drafts + [last])
    ensures forall i :: 0 <= i < |drafts| ==> !Superseded(drafts[i], [last])
  {
    var all := drafts + [last];
    forall i | 0 <= i < |drafts| ensures !Clash(last, drafts[i]) {
      assert !Clash(all[i], all[|drafts|]);
    }
  }

  lemma SupersededByOneMore(n: NotificationRow, drafts: seq<NotificationRow>, last: NotificationRow)
    ensures Superseded(n, drafts + [last]) <==> Superseded(n, drafts) || Superseded(n, [last])
  {
    var all := drafts + [last];
    if Superseded(n, drafts) {
      var i :| 0 <= i < |drafts| && Clash(drafts[i], n);
      assert Clash(all[i], n);
    }
    if Superseded(n, [last]) {
      assert Clash([last][0], n) && Clash(all[|drafts|], n);
    }
    if Superseded(n, all) {
      var i :| 0 <= i < |all| && Clash(all[i], n);
      assert i == |drafts| ==> Clash([last][0], n);
      assert i < |drafts| ==> Clash(drafts[i], n);
    }
  }
}
