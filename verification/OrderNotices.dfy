/** Who is notified of what: everyone a step concerns is told once, and nobody else. */
module OrderNotices {
  import opened Collections
  import opened SharedRules
  import opened OrderStateMachine
  import opened OrderRecords
  import opened OrderTransitions
  import opened TransitionMeaning
  import opened OrderWorkflow
  import opened OrderProtocol
  import opened SubmissionRounds
  import opened RealtimeEvents

  function To(user: UserId): NotificationRow -> bool {
    (n: NotificationRow) => n.userId == user
  }

  /** The company acts and the client is told. */
  predicate ByCompany(command: TransitionCommand) {
    command.SubmitOffer? || command.WithdrawOffer? || command.SubmitWork?
  }

  /** The one kind of notification a company gets for its offer's new status. */
  function KindFor(status: OfferStatus): NotificationType {
    match status
    case Accepted => NotificationType.OfferAccepted
    case Rejected => NotificationType.OfferRejected
    case NotAccepted => NotificationType.OfferNotAccepted
    case Completed => NotificationType.WorkConfirmed
    case _ => NotificationType.WorkDisputed
  }

  /** What the transaction reports as notifications is what it stored, in place of the unread
      ones about the same offers. */
  lemma NoticesAreStored(db: Db, command: TransitionCommand, now: Moment)
    requires UniqueOffers(db.offers) && NoDuplicateUnread(db.notes)
    ensures var r := Transact(db, command, now);
      r.Ok? ==> r.value.db.notes == Replace(db.notes, r.value.notifications) && Unread(r.value.notifications)
  {
    var r := Transact(db, command, now);
    if r.Ok? {
      var offer := ResolveOffer(db, command).value;
      var context := OrderStateContext(db.order.clientId, db.order.status);
      ResultIsDistinct(db, command, offer, now);
      NotesAfterEffects(db, Handle(context, BuildEvent(db, command, offer, now)).1);
    }
  }

  // ------------------------------------------------ commands of a company

  /** The one kind of notification the client gets for a company's act. */
  function KindOf(command: TransitionCommand): NotificationType {
    if command.SubmitOffer? then NotificationType.OfferReceived
    else if command.WithdrawOffer? then NotificationType.OfferWithdrawn
    else NotificationType.WorkSubmitted
  }

  /** A company's act tells the client, once, and nobody else. */
  lemma ClientIsTold(db: Db, command: TransitionCommand, now: Moment)
    requires ByCompany(command)
    ensures var r := Transact(db, command, now);
      r.Ok? ==>
        var notices := r.value.notifications;
        |notices| == 1 && notices[0].userId == db.order.clientId && notices[0].kind == KindOf(command) &&
        notices[0].collapseKey == if command.SubmitWork? then None else Some(OfferKey(r.value.offerId))
  {
    var r := Transact(db, command, now);
    if r.Ok? {
      var context := OrderStateContext(db.order.clientId, db.order.status);
      SingleShape(context, BuildEvent(db, command, ResolveOffer(db, command).value, now), db.order);
    }
  }

  // ----------------------------------------------- commands of the client

  /** The i-th notification goes to the company of the i-th status update, in its kind. */
  ghost predicate Paired(updates: seq<OfferStatusUpdate>, notices: seq<NotificationRow>) {
    |notices| == |updates| &&
    forall i :: 0 <= i < |updates| ==>
      notices[i].userId == updates[i].companyId && notices[i].kind == KindFor(updates[i].status) &&
      notices[i].collapseKey == KeyFor(updates[i].status, updates[i].offerId)
  }

  /** What is said about the choice of offers replaces what was said before about the same offer;
      verdicts on the work each stand. */
  function KeyFor(status: OfferStatus, offerId: Id): Option<CollapseKey> {
    if status.Accepted? || status.Rejected? || status.NotAccepted? then Some(OfferKey(offerId)) else None
  }

  lemma CompaniesAreTold(db: Db, command: TransitionCommand, now: Moment)
    requires !ByCompany(command)
    ensures var r := Transact(db, command, now);
      r.Ok? ==> Paired(r.value.offerUpdates, r.value.notifications)
  {
    var r := Transact(db, command, now);
    if r.Ok? {
      EffectsArePaired(db, command, ResolveOffer(db, command).value, now);
    }
  }

  lemma EffectsArePaired(db: Db, command: TransitionCommand, offer: OfferRow, now: Moment)
    requires !ByCompany(command)
    ensures var effects := Handle(OrderStateContext(db.order.clientId, db.order.status),
                                  BuildEvent(db, command, offer, now)).1;
      Paired(UpdatesOf(effects), DraftsOf(effects))
  {
    var event := BuildEvent(db, command, offer, now);
    if command.AcceptOffer? {
      AcceptedShape(event, db.order);
    } else {
      SingleShape(OrderStateContext(db.order.clientId, db.order.status), event, db.order);
    }
  }

  ghost predicate DistinctCompanies(updates: seq<OfferStatusUpdate>) {
    forall i, j :: 0 <= i < j < |updates| ==> updates[i].companyId != updates[j].companyId
  }

  /** Updates of different rows concern different companies. */
  lemma UpdatesAreDistinct(before: seq<OfferRow>, after: seq<OfferRow>, updates: seq<OfferStatusUpdate>)
    requires UniqueOffers(before) && UniqueTargets(updates) && ReportsChanges(updates, before, after)
    ensures DistinctCompanies(updates)
  {
    forall i, j | 0 <= i < j < |updates| ensures updates[i].companyId != updates[j].companyId {
      var m := RowOfUpdate(before, after, updates, i);
      var n := RowOfUpdate(before, after, updates, j);
      assert m != n;
    }
  }

  lemma RowOfUpdate(before: seq<OfferRow>, after: seq<OfferRow>, updates: seq<OfferStatusUpdate>, i: nat)
    returns (m: nat)
    requires ReportsChanges(updates, before, after) && i < |updates|
    ensures m < |before| && before[m].id == updates[i].offerId && before[m].companyId == updates[i].companyId
  {
    m :| 0 <= m < |before| && UpdateOf(updates[i], before[m], after[m]) && FromActive(before[m], after[m]);
  }

  /** The notices one user gets: exactly one if one of the updates is its own. */
  lemma NoticesOf(updates: seq<OfferStatusUpdate>, notices: seq<NotificationRow>, user: UserId)
    requires Paired(updates, notices) && DistinctCompanies(updates)
    ensures forall i :: 0 <= i < |updates| && updates[i].companyId == user ==> Filter(notices, To(user)) == [notices[i]]
    ensures (forall i :: 0 <= i < |updates| ==> updates[i].companyId != user) ==> Filter(notices, To(user)) == []
  {
    if i :| 0 <= i < |updates| && updates[i].companyId == user {
      FilterOne(notices, To(user), i);
    } else {
      FilterNone(notices, To(user));
    }
  }

  /** The company of row `j` hears once, in the kind of its new status, or nothing. */
  ghost predicate ToldOnce(before: seq<OfferRow>, after: seq<OfferRow>, notices: seq<NotificationRow>, j: nat)
    requires j < |before| == |after|
  {
    var own := Filter(notices, To(before[j].companyId));
    if after[j].status != before[j].status then
      |own| == 1 && own[0].kind == KindFor(after[j].status) &&
      own[0].collapseKey == KeyFor(after[j].status, before[j].id)
    else own == []
  }

  lemma OneCompanyToldOnce(before: seq<OfferRow>, after: seq<OfferRow>, updates: seq<OfferStatusUpdate>,
                           notices: seq<NotificationRow>, j: nat)
    requires UniqueOffers(before) && DistinctCompanies(updates) && ReportsChanges(updates, before, after)
    requires Paired(updates, notices) && j < |before|
    ensures ToldOnce(before, after, notices, j)
  {
    var company := before[j].companyId;
    NoticesOf(updates, notices, company);
    if after[j].status != before[j].status {
      var i :| 0 <= i < |updates| && UpdateOf(updates[i], before[j], after[j]);
      assert Filter(notices, To(company)) == [notices[i]];
    } else {
      forall i | 0 <= i < |updates| ensures updates[i].companyId != company {
        var m :| 0 <= m < |before| && UpdateOf(updates[i], before[m], after[m]) && FromActive(before[m], after[m]);
      }
    }
  }

  /** After every decision of the client each company is told exactly when its offer changed. */
  lemma AffectedAreToldOnce(db: Db, command: TransitionCommand, now: Moment, j: nat)
    requires UniqueOffers(db.offers) && NoDuplicateUnread(db.notes) && !ByCompany(command)
    requires Transact(db, command, now).Ok? && j < |db.offers|
    ensures var a := Transact(db, command, now).value;
      |a.db.offers| == |db.offers| && ToldOnce(db.offers, a.db.offers, a.notifications, j)
  {
    TransitionMeans(db, command, now);
    UpdatesReportRows(db, command, now);
    CompaniesAreTold(db, command, now);
    var a, offer := Transact(db, command, now).value, ResolveOffer(db, command).value;
    ResultIsDistinct(db, command, offer, now);
    UpdatesAreDistinct(db.offers, a.db.offers, a.offerUpdates);
    OneCompanyToldOnce(db.offers, a.db.offers, a.offerUpdates, a.notifications, j);
  }

  // ------------------------------------- what uploads and area checks say

  /** The client of the order has one new unread notice of the kind, under the key, in place of
      an older unread one; all others stand. */
  ghost predicate ToldOfOrder(d: Db, after: seq<NotificationRow>, kind: NotificationType, key: CollapseKey) {
    ToldAnew(d.notes, after, NotificationRow(d.order.clientId, kind, Some(key), false))
  }

  /** Verifying stores the area beside the client's own figure and tells the client, unless the
      number is the one already there: then nothing is written and nobody told. */
  lemma AreaMeans(db: Db, area: real, now: Moment)
    ensures var r := VerifyAreaTx(db, area, now);
      (r.Ok? <==> CanVerifyArea(db.order.status)) &&
      (r.Ok? ==>
        var e := r.value;
        e.order.verifiedSquareMeters == Some(area) &&
        e == db.(order := db.order.(verifiedSquareMeters := Some(area), updatedAt := e.order.updatedAt), notes := e.notes) &&
        (if db.order.verifiedSquareMeters == Some(area) then e == db
         else ToldOfOrder(db, e.notes, NotificationType.AreaVerified, OrderAreaKey(db.order.id))))
  {
    OneDraftReplaces(db.notes, AreaNotice(db.order));
  }

  ghost predicate FilesInserted(d: Db, e: Db, u: Upload)
    requires u.batch.Some?
  {
    e == d.(submissions := e.submissions, files := e.files, notes := e.notes) &&
    CommentSaved(d, d.(submissions := e.submissions), u) &&
    BatchAdded(d.files, e.files, CompanyFile, u.round, u.batch.value) &&
    ToldOfOrder(d, e.notes, NotificationType.FilesUpdated, OrderFilesKey(d.order.id))
  }

  /** The second half of an upload goes through exactly while its round is still open and the
      bytes fit; it stores every file of a new batch, rewrites that round's comment only and
      tells the client. */
  lemma InsertMeans(db: Db, u: Upload, elsewhere: UsageElsewhere, issued: set<Id>)
    requires Numbered(db.submissions, issued) && AimsAtRound(db, u)
    requires LastOpen(db.submissions) ==> CanUploadWork(db.order.status)
    requires u.batch.Some? && u.batch.value != [] && AllNew(db.files, u.round, u.batch.value)
    ensures var r := InsertFilesTx(db, u.submissionId, u.round, u.comment, u.batch.value, elsewhere);
      (r.Ok? <==> u.round == |db.submissions| && LastOpen(db.submissions) &&
                  FitsQuota(db, elsewhere, SumPrepared(u.batch.value))) &&
      (r.Ok? ==> FilesInserted(db, r.value, u))
  {
    GuardMeans(db, u, issued);
    var saved := SaveCommentTx(db, u.submissionId, u.comment);
    if saved.Ok? {
      StoreMeans(db, saved.value, u, elsewhere);
    }
  }

  lemma StoreMeans(db: Db, saved: Db, u: Upload, elsewhere: UsageElsewhere)
    requires CommentSaved(db, saved, u) && u.batch.Some? && u.batch.value != []
    requires AllNew(db.files, u.round, u.batch.value)
    ensures var r := StoreFilesTx(saved, u.round, u.batch.value, elsewhere);
      (r.Ok? <==> FitsQuota(db, elsewhere, SumPrepared(u.batch.value))) && (r.Ok? ==> FilesInserted(db, r.value, u))
  {
    NewBatchIsAdded(db.files, CompanyFile, u.round, u.batch.value);
    BatchIsInserted(db.files, CompanyFile, u.round, u.batch.value);
    OneDraftReplaces(db.notes, FilesUpdatedNotice(db.order));
  }
}
