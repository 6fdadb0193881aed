/** What each step of the protocol does when it goes through, and why it is refused when not:
    the results of the transactions are the rows of the next world. */
module OrderEffects {
  import opened Collections
  import opened SharedRules
  import opened OrderStateMachine
  import opened OrderRecords
  import opened OrderTransitions
  import opened TransitionMeaning
  import opened OrderWorkflow
  import opened OrderProtocol
  import opened OrderInvariants
  import opened OfferSubmission
  import opened SubmissionRounds
  import opened OrderNotices

  // --------------------------------------------------------- refusals

  /** The status an event finds the offer in; none for an offer it creates. */
  function StatusAtEvent(command: TransitionCommand, offer: OfferRow): Option<OfferStatus> {
    if command.SubmitOffer? then command.offerStatusBefore else Some(offer.status)
  }

  /** A transition's refusal names the first of its reasons that applies: the offer is not there,
      the order's status does not know the event, the offer's status does not fit, the company
      was refused for good, the deadline has passed, the offer was edited meanwhile. */
  lemma RefusalNamesTheReason(db: Db, command: TransitionCommand, now: Moment)
    ensures var r, found := Transact(db, command, now), ResolveOffer(db, command);
      (found.Err? ==> r == Err(if command.NamesOffer() then OfferNotFound else NoExecutor)) &&
      (found.Ok? ==>
        var o, before := found.value, StatusAtEvent(command, found.value);
        var known := EventOf(command) in TransitionsFrom(db.order.status);
        var fits := before.None? || before.value in OfferPreconditions(EventOf(command));
        var forGood := command.SubmitOffer? && IsFinallyRejected(before, o.rejectionCount);
        var expired := command.AcceptOffer? && IsOfferExpired(o.proposedDeadline, UtcCalendarDate(now));
        var changed := command.AcceptOffer? && o.editedAt != command.seenOfferEditedAt;
        (r == Err(InvalidStateTransition) <==> !known) &&
        (r == Err(InvalidOfferStatus) <==> known && !fits) &&
        (r == Err(Refusal.OfferFinallyRejected) <==> known && fits && forGood) &&
        (r == Err(Refusal.OfferExpired) <==> known && fits && expired) &&
        (r == Err(Refusal.OfferChanged) <==> known && fits && !expired && changed))
  {
  }

  /** Submitting work is refused for its status first, and only then for lack of files. */
  lemma NothingToSubmitComesLast(db: Db, issued: set<Id>, now: Moment)
    requires UniqueOffers(db.offers) && NoDuplicateUnread(db.notes) && DealOk(db) && Numbered(db.submissions, issued)
    ensures SubmitWorkTx(db, now) == Err(NothingToSubmit) <==>
      (CanUploadWork(db.order.status) &&
       !(LastOpen(db.submissions) && FilesOfRound(db.files, |db.submissions|) != []))
  {
    OpenIsLast(db, issued);
    WorkTransitionAnswers(db, now);
  }

  lemma WorkTransitionAnswers(db: Db, now: Moment)
    requires UniqueOffers(db.offers) && NoDuplicateUnread(db.notes) && DealOk(db)
    ensures Transact(db, SubmitWork, now).Ok? <==> CanUploadWork(db.order.status)
    ensures Transact(db, SubmitWork, now) != Err(NothingToSubmit)
  {
    WorkEventsNeverMisfire(db, SubmitWork, now);
  }

  /** The second half of an upload is refused for the order's status, then for a round already
      sent, then for the quota. */
  lemma UploadRefusals(db: Db, u: Upload, elsewhere: UsageElsewhere, issued: set<Id>)
    requires Numbered(db.submissions, issued) && AimsAtRound(db, u) && u.batch.Some?
    requires LastOpen(db.submissions) ==> CanUploadWork(db.order.status)
    ensures var r := InsertFilesTx(db, u.submissionId, u.round, u.comment, u.batch.value, elsewhere);
      var open := u.round == |db.submissions| && LastOpen(db.submissions);
      (r == Err(UploadForbidden) <==> !CanUploadWork(db.order.status)) &&
      (r == Err(SubmissionAlreadySent) <==> CanUploadWork(db.order.status) && !open) &&
      (r == Err(OverQuota) <==> open && !FitsQuota(db, elsewhere, SumPrepared(u.batch.value)))
  {
    GuardMeans(db, u, issued);
  }

  // ---------------------------------------------------------- effects

  /** A committed transition leaves the rows as its meaning says and enters the log. */
  lemma CommandTakesEffect(w: World, command: TransitionCommand, now: Moment)
    requires Inv(w) && w.store.Live? && !command.SubmitOffer? && !command.SubmitWork?
    ensures var found, next := ResolveOffer(w.store.db, command), Next(w, CommandAction(command, now));
      if found.Ok? && Allowed(w.store.db, command, found.value, now) then
        next.store.Live? && Moved(w.store.db, command, found.value, now, next.store.db) &&
        next.log == w.log + [LogEntry(EventOf(command), found.value.id)]
      else next == w
  {
    TransitionMeans(w.store.db, command, now);
  }

  /** An offer sent while it may be sent is the company's row afterwards, and the order awaits the
      client's choice. */
  lemma SendingTakesEffect(w: World, a: Action) returns (k: int)
    requires Inv(w) && w.store.Live? && a.OfferAction? && Enabled(w, a)
    ensures var db, next := w.store.db, Next(w, a);
      next.store.Live? &&
      if AcceptsOffers(db.order.status) && MaySend(First(db.offers, OfCompany(a.companyId))) then
        Upserted(db.offers, a.companyId, a.terms, a.newId, a.now, next.store.db.offers, k) &&
        next.store.db.order.status.AwaitingConfirmation? && |next.log| == |w.log| + 1
      else next.store == w.store && next.log == w.log
  {
    NewIdsAreNew(w, a.newId);
    k := SubmitMeans(w.store.db, a.companyId, a.terms, a.newId, a.now);
  }

  lemma NewIdsAreNew(w: World, newId: Id)
    requires Inv(w) && w.store.Live? && newId !in w.issued
    ensures forall i :: 0 <= i < |w.store.db.offers| ==> w.store.db.offers[i].id != newId
  {
  }

  /** Work submitted while an open round holds a file closes that round and moves the order. */
  lemma SubmissionTakesEffect(w: World, now: Moment) returns (k: int)
    requires Inv(w) && w.store.Live?
    ensures var db, next := w.store.db, Next(w, SubmitWorkAction(now));
      if CanUploadWork(db.order.status) && LastOpen(db.submissions) && FilesOfRound(db.files, |db.submissions|) != [] then
        next.store.Live? && HeldBy(db, k) && WorkCommitted(db, next.store.db, db.offers[k], now) &&
        !LastOpen(next.store.db.submissions) && |next.log| == |w.log| + 1
      else next == w
  {
    k := SubmitWorkMeans(w.store.db, w.issued, now);
    WorkAnswered(w, SubmitWorkTx(w.store.db, now), k, now);
  }

  /** What `submitWork` answers is the next world, whatever it is. */
  lemma WorkAnswered(w: World, r: Result<AppliedTransition, Refusal>, k: int, now: Moment)
    requires Inv(w) && w.store.Live?
    requires r.Ok? ==> WorkTaken(w.store.db, r.value.db, k, now)
    ensures var next := AfterTransition(w, r, OrderEventType.WorkSubmitted);
      if r.Ok? then
        next.store == Live(r.value.db) && !LastOpen(next.store.db.submissions) && |next.log| == |w.log| + 1
      else next == w
  {
    if r.Ok? {
      var db := w.store.db;
      RoundClosed(db, db.(submissions := r.value.db.submissions), now, w.issued);
    }
  }

  /** An upload begun while work may be uploaded aims at the open round, opened for it if need be. */
  lemma OpeningTakesEffect(w: World, a: Action)
    requires Inv(w) && w.store.Live? && a.OpenUpload? && Enabled(w, a)
    ensures var db, next := w.store.db, Next(w, a);
      if CanUploadWork(db.order.status) then
        next.store.Live? && a.request in next.uploads && LastOpen(next.store.db.submissions) &&
        var u, n := next.uploads[a.request], |next.store.db.submissions|;
        u.round == n && u.submissionId == next.store.db.submissions[n - 1].id && u.comment == a.comment &&
        u.prepared == a.prepared && n == (if LastOpen(db.submissions) then |db.submissions| else |db.submissions| + 1)
      else next == w
  {
    OpenMeans(w.store.db, w.issued, a.comment, a.newId);
  }

  /** The upload then carries what its round does not hold yet. */
  lemma DroppingTakesEffect(w: World, request: Id)
    requires w.store.Live? && request in w.uploads
    ensures var next, u := Next(w, DropDuplicatesOf(request)), w.uploads[request];
      next.store == w.store && request in next.uploads &&
      next.uploads[request] == u.(batch := Some(DropDuplicates(w.store.db.files, u.round, u.prepared)))
  {
  }

  /** An upload that finds its round open and room for its bytes stores its files; either way it
      is over. */
  lemma InsertTakesEffect(w: World, a: Action)
    requires Inv(w) && w.store.Live? && a.InsertFiles? && Enabled(w, a)
    requires AllNew(w.store.db.files, w.uploads[a.request].round, w.uploads[a.request].batch.value)
    ensures var db, u, next := w.store.db, w.uploads[a.request], Next(w, a);
      a.request !in next.uploads && next.store.Live? &&
      if u.round == |db.submissions| && LastOpen(db.submissions) && FitsQuota(db, a.elsewhere, SumPrepared(u.batch.value))
      then FilesInserted(db, next.store.db, u)
      else next.store == w.store
  {
    var u := w.uploads[a.request];
    assert AimsAtRound(w.store.db, u);
    InsertMeans(w.store.db, u, a.elsewhere, w.issued);
  }

  lemma CommentTakesEffect(w: World, a: Action)
    requires Inv(w) && w.store.Live? && a.SaveCommentOnly? && Enabled(w, a)
    ensures var db, u, next := w.store.db, w.uploads[a.request], Next(w, a);
      a.request !in next.uploads && next.store.Live? &&
      if u.round == |db.submissions| && LastOpen(db.submissions) then CommentSaved(db, next.store.db, u)
      else next.store == w.store
  {
    var u := w.uploads[a.request];
    assert AimsAtRound(w.store.db, u);
    GuardMeans(w.store.db, u, w.issued);
  }

  lemma AttachingTakesEffect(w: World, a: Action)
    requires w.store.Live? && a.AttachTaskFiles? && AllNew(w.store.db.files, 0, a.files)
    ensures var db, next := w.store.db, Next(w, a);
      next.store.Live? &&
      if FitsQuota(db, a.elsewhere, SumPrepared(a.files)) then BatchAdded(db.files, next.store.db.files, ClientFile, 0, a.files)
      else next == w
  {
    AttachMeans(w.store.db, a.files, a.elsewhere);
  }

  lemma AreaTakesEffect(w: World, a: Action)
    requires w.store.Live? && a.VerifyArea?
    ensures var db, next := w.store.db, Next(w, a);
      next.store.Live? &&
      if CanVerifyArea(db.order.status) then
        next.store.db.order.verifiedSquareMeters == Some(a.area) &&
        (db.order.verifiedSquareMeters != Some(a.area) ==>
          next.store.db.order.updatedAt == a.now &&
          ToldOfOrder(db, next.store.db.notes, NotificationType.AreaVerified, OrderAreaKey(db.order.id)))
      else next == w
  {
    AreaMeans(w.store.db, a.area, a.now);
  }

  /** Deletion, the reset, reading and giving up. */
  lemma OtherStepsTakeEffect(w: World, a: Action)
    requires w.store.Live? && Enabled(w, a)
    ensures var db, next := w.store.db, Next(w, a);
      (a.DeleteOrder? ==> (next.store.Deleted? <==> AcceptsOffers(db.order.status))) &&
      (a.DemoReset? ==>
        next.store.Live? &&
        (forall o :: o in next.store.db.offers <==> o in db.offers && (o.companyId !in a.demo || IsActiveOffer(o.status))) &&
        (forall n :: n in next.store.db.notes <==> n in db.notes && n.userId !in a.demo)) &&
      (a.MarkRead? && a.index < |db.notes| ==>
        next.store.Live? && next.store.db.notes == db.notes[a.index := db.notes[a.index].(isRead := true)]) &&
      (a.AbandonUpload? ==> next == w.(uploads := w.uploads - {a.request}))
  {
  }

  /** After deletion no step brings the order back or writes to it; notifications are read one by
      one, and uploads under way end. */
  lemma AfterDeletion(w: World, a: Action)
    requires w.store.Deleted? && Enabled(w, a)
    ensures var next := Next(w, a);
      next.store.Deleted? && next.log == w.log && next.issued == w.issued &&
      (if a.MarkRead? && a.index < |w.store.notes|
       then next.store.notes == w.store.notes[a.index := w.store.notes[a.index].(isRead := true)]
       else next.store.notes == w.store.notes) &&
      (a.InsertFiles? || a.SaveCommentOnly? || a.AbandonUpload? ==> a.request !in next.uploads)
  {
  }
}
