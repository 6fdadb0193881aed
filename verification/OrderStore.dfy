/** The transactions as the services run them: rows of one order updated in place, loops over
    effects, groups and files, and a rollback on every refusal. Each method is proved equal
    to the transaction function of the same name, on which the protocol's theorems rest. */
module OrderStore {
  import opened Collections
  import opened SharedRules
  import opened OrderStateMachine
  import opened OrderRecords
  import opened OrderTransitions
  import opened TransitionMeaning
  import opened OrderWorkflow
  import opened OrderProtocol
  import opened OfferSubmission
  import opened SubmissionRounds
  import opened RealtimeEvents

  // ------------------------------------------------- the batched writes

  /** Every update is in the group of its status, and the groups hold nothing else. */
  ghost predicate Grouped(updates: seq<OfferStatusUpdate>, grouped: map<OfferStatus, seq<Id>>) {
    (forall i :: 0 <= i < |updates| ==>
      updates[i].status in grouped && updates[i].offerId in grouped[updates[i].status]) &&
    (forall status, id :: status in grouped && id in grouped[status] ==> Updates(updates, id, status))
  }

  ghost predicate Updates(updates: seq<OfferStatusUpdate>, id: Id, status: OfferStatus) {
    exists i :: 0 <= i < |updates| && updates[i].offerId == id && updates[i].status == status
  }

  method GroupOfferIdsByStatus(updates: seq<OfferStatusUpdate>) returns (grouped: map<OfferStatus, seq<Id>>)
    ensures Grouped(updates, grouped)
  {
    grouped := map[];
    for i := 0 to |updates|
      invariant Grouped(updates[..i], grouped)
    {
      var u := updates[i];
      ghost var before := grouped;
      if u.status in grouped {
        grouped := grouped[u.status := grouped[u.status] + [u.offerId]];
      } else {
        grouped := grouped[u.status := [u.offerId]];
      }
      forall status, id | status in grouped && id in grouped[status]
        ensures Updates(updates[..i + 1], id, status)
      {
        if status in before && id in before[status] {
          var k :| 0 <= k < i && updates[..i][k].offerId == id && updates[..i][k].status == status;
          assert updates[..i + 1][k] == updates[k];
        } else {
          assert updates[..i + 1][i] == u;
        }
      }
      ghost var done := updates[..i + 1];
      forall k | 0 <= k < |done| ensures done[k].status in grouped && done[k].offerId in grouped[done[k].status] {
        if k < i {
          assert updates[..i][k] == done[k];
        }
      }
    }
    assert updates[..|updates|] == updates;
  }

  /** With unique targets, a row belongs to the group of its own new status and to no other. */
  lemma GroupOfRow(updates: seq<OfferStatusUpdate>, grouped: map<OfferStatus, seq<Id>>, id: Id, status: OfferStatus)
    requires Grouped(updates, grouped) && UniqueTargets(updates) && status in grouped
    ensures id in grouped[status] <==> StatusFor(updates, id) == Some(status)
  {
    var target := StatusFor(updates, id);
    if target.Some? {
      var i :| 0 <= i < |updates| && updates[i].offerId == id && updates[i].status == target.value;
      if id in grouped[status] {
        assert Updates(updates, id, status);
        var j :| 0 <= j < |updates| && updates[j].offerId == id && updates[j].status == status;
        assert i == j;
      }
    }
  }

  lemma {:induction false} OrderDataKeepsStatus(order: OrderRow, effects: seq<OrderSideEffect>,
                                               next: OrderStatus, now: Moment)
    ensures OrderData(order.(status := next, updatedAt := now), effects) ==
            OrderData(order, effects).(status := next, updatedAt := now)
  {
    if effects != [] {
      OrderDataKeepsStatus(order, effects[..|effects| - 1], next, now);
    }
  }

  class OrderStore {
    var order: OrderRow
    var offers: seq<OfferRow>
    var submissions: seq<SubmissionRow>
    var files: seq<FileRow>
    var notes: seq<NotificationRow>
    var deleted: bool

    constructor (db: Db)
      ensures Rows() == db && !deleted
    {
      order, offers, submissions, files, notes := db.order, db.offers, db.submissions, db.files, db.notes;
      deleted := false;
    }

    function Rows(): Db
      reads this
    {
      Db(order, offers, submissions, files, notes)
    }

    function Contents(): Store
      reads this
    {
      if deleted then Deleted(notes) else Live(Rows())
    }

    /** A thrown error rolls the transaction back. */
    method Restore(saved: Db)
      modifies this
      ensures Rows() == saved && deleted == old(deleted)
    {
      order, offers, submissions, files, notes :=
        saved.order, saved.offers, saved.submissions, saved.files, saved.notes;
    }

    /** `applyEffects`: collect, group by status, one update per group in any order, one order
        update, one delete and one insert of notifications. It equals the effect list applied
        one effect at a time, because the machine names each offer once. */
    method ApplyEffects(result: OrderTransitionResult, now: Moment)
      requires UniqueTargets(UpdatesOf(result.effects)) && NoDuplicateUnread(DraftsOf(result.effects))
      modifies this
      ensures Rows() == Committed(old(Rows()), result, now) && deleted == old(deleted)
    {
      var effects := result.effects;
      ghost var db := Rows();
      var base := order.(status := result.nextStatus, updatedAt := now);
      var orderData := base;
      var offerUpdates: seq<OfferStatusUpdate> := [];
      var drafts: seq<NotificationRow> := [];
      for i := 0 to |effects|
        invariant orderData == OrderData(base, effects[..i])
        invariant offerUpdates == UpdatesOf(effects[..i])
        invariant drafts == DraftsOf(effects[..i])
        invariant Rows() == db && deleted == old(deleted)
      {
        assert effects[..i + 1] == effects[..i] + [effects[i]];
        Snoc(effects[..i], effects[i], base);
        match effects[i] {
          case SetOfferStatus(offerId, companyId, status) =>
            offerUpdates := offerUpdates + [OfferStatusUpdate(offerId, companyId, status)];
          case SetOrderDeal(price, deadline) =>
            orderData := orderData.(price := Some(price), deadline := Some(deadline));
          case SetCorrectionComment(comment) =>
            orderData := orderData.(correctionComment := Some(comment));
          case SetCompletionComment(comment) =>
            orderData := orderData.(completionComment := comment);
          case CreateNotification(_, _, _) =>
            drafts := drafts + [NotificationOf(effects[i])];
        }
      }
      assert effects[..|effects|] == effects;

      UpdateOffers(offerUpdates);
      order := orderData;
      notes := Replace(notes, drafts);

      OffersAfterEffects(db, effects);
      RestAfterEffects(db, effects);
      NotesAfterEffects(db, effects);
      OrderDataKeepsStatus(db.order, effects, result.nextStatus, now);
      assert offers == ApplyAll(db, effects).offers;
    }

    /** The concurrent `updateMany` calls: one per group, in whatever order they land. */
    method UpdateOffers(updates: seq<OfferStatusUpdate>)
      requires UniqueTargets(updates)
      modifies this`offers
      ensures |offers| == |old(offers)|
      ensures forall i :: 0 <= i < |offers| ==>
        offers[i] == Updated(old(offers)[i], StatusFor(updates, old(offers)[i].id))
    {
      var grouped := GroupOfferIdsByStatus(updates);
      ghost var before := offers;
      var pending := grouped.Keys;
      while pending != {}
        invariant pending <= grouped.Keys
        invariant |offers| == |before|
        invariant forall i :: 0 <= i < |before| ==>
          offers[i] == UpdatedOutside(before[i], StatusFor(updates, before[i].id), pending)
        decreases |pending|
      {
        var status :| status in pending;
        var ids := grouped[status];
        forall i | 0 <= i < |before|
          ensures offers[i].id == before[i].id
          ensures offers[i].id in ids <==> StatusFor(updates, before[i].id) == Some(status)
        {
          GroupOfRow(updates, grouped, before[i].id, status);
        }
        offers := seq(|offers|, i requires 0 <= i < |offers| reads this =>
          if offers[i].id in ids then SetStatus(offers[i], status) else offers[i]);
        pending := pending - {status};
      }
      forall i | 0 <= i < |before|
        ensures offers[i] == Updated(before[i], StatusFor(updates, before[i].id))
      {
      }
    }

    /** `OrderTransitionService.run`. */
    method RunTransition(command: TransitionCommand, now: Moment) returns (r: Result<AppliedTransition, Refusal>)
      requires UniqueOffers(offers)
      modifies this
      ensures r == Transact(old(Rows()), command, now) && deleted == old(deleted)
      ensures Rows() == if r.Ok? then r.value.db else old(Rows())
    {
      var db := Rows();
      var resolved := ResolveOffer(db, command);
      if resolved.Err? {
        return Err(resolved.error);
      }
      var offer := resolved.value;
      var event := BuildEvent(db, command, offer, now);
      var refusal := Check(order.status, event);
      if refusal.Some? {
        return Err(refusal.value);
      }
      var fromStatus, nextStatus, effects := order.status, InProgress, [];
      if event.OfferAcceptedEvent? {
        effects := OrderStateMachine.OfferAccepted(event);
      } else {
        var handled := Handle(OrderStateContext(order.clientId, order.status), event);
        nextStatus, effects := handled.0, handled.1;
      }
      ResultIsDistinct(db, command, offer, now);
      ApplyEffects(OrderTransitionResult(fromStatus, nextStatus, effects), now);
      r := Ok(AppliedTransition(Rows(), offer.id, offer.companyId, fromStatus, nextStatus,
                                UpdatesOf(effects), DraftsOf(effects)));
    }

    /** `OffersService.submit`: the status is read before the upsert rewrites it. */
    method SubmitOffer(companyId: UserId, terms: OfferTerms, newId: Id, now: Moment)
      returns (r: Result<AppliedTransition, Refusal>)
      requires UniqueOffers(offers) && forall i :: 0 <= i < |offers| ==> offers[i].id != newId
      modifies this
      ensures r == SubmitOfferTx(old(Rows()), companyId, terms, newId, now) && deleted == old(deleted)
      ensures r.Ok? && NoDuplicateUnread(old(notes)) ==>
        exists k :: Upserted(old(offers), companyId, terms, newId, now, offers, k)
      ensures Rows() == if r.Ok? then r.value.db else old(Rows())
    {
      var saved := Rows();
      var existing := First(offers, OfCompany(companyId));
      if NoDuplicateUnread(notes) {
        ghost var k := SubmitMeans(saved, companyId, terms, newId, now);
      }
      UpsertKeepsUnique(offers, companyId, terms, newId, now);
      offers := Upsert(offers, companyId, terms, newId, now);
      r := RunTransition(TransitionCommand.SubmitOffer(
             if existing.Some? then existing.value.id else newId,
             if existing.Some? then Some(existing.value.status) else None), now);
      if r.Err? {
        Restore(saved);
      }
    }

    /** `submitWork`: transition, then the two refusals, then the round closes; all or nothing. */
    method SubmitWork(now: Moment) returns (r: Result<AppliedTransition, Refusal>)
      requires UniqueOffers(offers)
      modifies this
      ensures r == SubmitWorkTx(old(Rows()), now) && deleted == old(deleted)
      ensures Rows() == if r.Ok? then r.value.db else old(Rows())
    {
      var saved := Rows();
      var open := FindOpenSubmission(saved);
      r := RunTransition(TransitionCommand.SubmitWork, now);
      if r.Err? {
        return;
      }
      TransitionTouchesNoFile(saved, TransitionCommand.SubmitWork, now);
      if open.None? || |FilesOfRound(files, open.value.round)| == 0 {
        Restore(saved);
        return Err(NothingToSubmit);
      }
      submissions := UpdateSubmission(submissions, open.value.id, Some(now), None);
      r := Ok(r.value.(db := Rows()));
    }

    /** First transaction of `addFiles`: the open round of the greatest number, or else a new
        one numbered above all others. */
    method OpenSubmission(comment: string, newId: Id) returns (r: Result<OpenedSubmission, Refusal>)
      modifies this`submissions
      ensures r.Ok? <==> CanUploadWork(order.status)
      ensures r.Err? || (exists s :: s in old(submissions) && s.submittedAt.None?) ==> submissions == old(submissions)
      ensures r.Ok? && (exists s :: s in old(submissions) && s.submittedAt.None?) ==>
        IsOpenRound(submissions, r.value.id, r.value.round)
      ensures r.Ok? && (forall s :: s in old(submissions) ==> s.submittedAt.Some?) ==>
        r.value.id == newId && IsNextRound(old(submissions), r.value.round) &&
        submissions == old(submissions) + [SubmissionRow(newId, r.value.round, comment, None)]
      ensures r == OpenSubmissionTx(old(Rows()), comment, newId)
      ensures Rows() == if r.Ok? then r.value.db else old(Rows())
    {
      if !CanUploadWork(order.status) {
        return Err(UploadForbidden);
      }
      var open := FindOpenSubmission(Rows());
      if open.Some? {
        OpenRoundFound(submissions, open.value);
        return Ok(OpenedSubmission(Rows(), open.value.id, open.value.round));
      }
      var last := Latest(submissions);
      var round := (if last.Some? then last.value.round else 0) + 1;
      submissions := submissions + [SubmissionRow(newId, round, comment, None)];
      r := Ok(OpenedSubmission(Rows(), newId, round));
    }

    /** The guard of the second transaction, with the comment: passes only while order and round
        are open, and rewrites no other round. */
    method SaveComment(submissionId: Id, comment: string) returns (r: Result<Db, Refusal>)
      modifies this`submissions
      ensures r.Ok? <==>
        (CanUploadWork(order.status) &&
         exists s :: s in old(submissions) && s.id == submissionId && s.submittedAt.None?)
      ensures r.Err? ==> submissions == old(submissions)
      ensures r.Ok? && DistinctRows(old(submissions)) ==>
        |submissions| == |old(submissions)| &&
        forall i :: 0 <= i < |submissions| ==>
          submissions[i] == (if old(submissions)[i].id == submissionId then old(submissions)[i].(comment := comment)
                             else old(submissions)[i])
      ensures r == SaveCommentTx(old(Rows()), submissionId, comment)
      ensures Rows() == if r.Ok? then r.value else old(Rows())
    {
      if !CanUploadWork(order.status) {
        return Err(UploadForbidden);
      }
      var open := First(submissions, OpenWithId(submissionId));
      if open.None? {
        return Err(SubmissionAlreadySent);
      }
      ghost var before := submissions;
      if open.value.comment != comment {
        submissions := UpdateSubmission(submissions, submissionId, None, Some(comment));
      }
      if DistinctRows(before) {
        CommentWritten(before, open.value, comment, submissions);
      }
      r := Ok(Rows());
    }

    /** `dropDuplicates`: first copies of the batch that the round does not hold yet. */
    method DropDuplicates(round: nat, prepared: seq<PreparedFile>) returns (batch: seq<PreparedFile>)
      ensures batch == OrderWorkflow.DropDuplicates(files, round, prepared)
    {
      var seen: set<int> := {};
      var uniqueInBatch: seq<PreparedFile> := [];
      for i := 0 to |prepared|
        invariant uniqueInBatch == UniqueInBatch(prepared[..i])
        invariant forall h :: h in seen <==> HasHash(uniqueInBatch, h)
      {
        assert prepared[..i + 1][..i] == prepared[..i];
        ghost var before := uniqueInBatch;
        if prepared[i].fileHash !in seen {
          seen := seen + {prepared[i].fileHash};
          uniqueInBatch := uniqueInBatch + [prepared[i]];
          assert uniqueInBatch[|before|] == prepared[i];
          forall h ensures HasHash(uniqueInBatch, h) <==> HasHash(before, h) || h == prepared[i].fileHash {
            assert forall k :: 0 <= k < |before| ==> uniqueInBatch[k] == before[k];
          }
        }
      }
      assert prepared[..|prepared|] == prepared;
      batch := Filter(uniqueInBatch, Unknown(files, round));
    }

    /** Second transaction of `addFiles`: guard, final quota check, rows without duplicates,
        notification; a refusal by the quota also takes the new comment back. */
    method InsertFiles(submissionId: Id, round: nat, comment: string, batch: seq<PreparedFile>,
                       elsewhere: UsageElsewhere) returns (r: Result<Db, Refusal>)
      modifies this
      ensures r == InsertFilesTx(old(Rows()), submissionId, round, comment, batch, elsewhere)
      ensures r.Ok? && batch != [] && AllNew(old(files), round, batch) ==>
        BatchAdded(old(files), files, CompanyFile, round, batch)
      ensures Rows() == (if r.Ok? then r.value else old(Rows())) && deleted == old(deleted)
    {
      var before := Rows();
      var saved := SaveComment(submissionId, comment);
      if saved.Err? {
        return saved;
      }
      if !FitsQuota(Rows(), elsewhere, SumPrepared(batch)) {
        Restore(before);
        return Err(OverQuota);
      }
      BatchAddedIfNew(files, round, batch);
      var created := CreateRows(CompanyFile, round, batch);
      if created != [] {
        files := files + created;
        notes := Replace(notes, [FilesUpdatedNotice(order)]);
      }
      r := Ok(Rows());
    }

    /** `createManyAndReturn` with `skipDuplicates`, row by row. */
    method CreateRows(owner: FileOwnerType, round: nat, batch: seq<PreparedFile>) returns (created: seq<FileRow>)
      ensures created == CreatedRows(files, owner, round, batch)
      ensures AllNew(files, round, batch) ==> HoldFiles(created, owner, round, batch)
      ensures forall f :: f in created ==> f.ownerType == owner && f.submissionRound == round && IsFileOf(batch, f)
    {
      created := [];
      for i := 0 to |batch|
        invariant created == CreatedRows(files, owner, round, batch[..i])
      {
        assert batch[..i + 1][..i] == batch[..i];
        if First(files + created, SameFile(round, batch[i].fileHash)).None? {
          created := created + [RowOf(owner, round, batch[i])];
        }
      }
      assert batch[..|batch|] == batch;
      EveryContentStored(files, owner, round, batch);
      if AllNew(files, round, batch) {
        BatchIsInserted(files, owner, round, batch);
      }
    }

    /** Writes the area beside the client's own figure and tells the client in place of an older
        unread notice, unless the number is there already. */
    method VerifyArea(area: real, now: Moment) returns (r: Result<Db, Refusal>)
      modifies this
      ensures r.Ok? <==> CanVerifyArea(old(order.status))
      ensures r.Err? || old(order.verifiedSquareMeters) == Some(area) ==> Rows() == old(Rows())
      ensures r.Ok? ==>
        order.verifiedSquareMeters == Some(area) &&
        order.(verifiedSquareMeters := old(order.verifiedSquareMeters), updatedAt := old(order.updatedAt)) == old(order) &&
        offers == old(offers) && submissions == old(submissions) && files == old(files)
      ensures r.Ok? && old(order.verifiedSquareMeters) != Some(area) ==>
        ToldAnew(old(notes), notes, NotificationRow(old(order.clientId), NotificationType.AreaVerified,
                                                    Some(OrderAreaKey(old(order.id))), false))
      ensures r == VerifyAreaTx(old(Rows()), area, now)
      ensures Rows() == (if r.Ok? then r.value else old(Rows())) && deleted == old(deleted)
    {
      if !CanVerifyArea(order.status) {
        return Err(AreaForbidden);
      }
      if order.verifiedSquareMeters != Some(area) {
        var draft := AreaNotice(order);
        OneDraftReplaces(notes, draft);
        order := order.(verifiedSquareMeters := Some(area), updatedAt := now);
        notes := Replace(notes, [draft]);
      }
      r := Ok(Rows());
    }

    /** The demo reset's two deletes on an order of another client: an offer stays exactly when
        it is not of the demo or still in play, a notification when it is not of the demo. */
    method ResetDemoRows(demo: set<UserId>)
      modifies this`offers, this`notes
      ensures forall o :: o in offers <==> o in old(offers) && (o.companyId !in demo || IsActiveOffer(o.status))
      ensures forall n :: n in notes <==> n in old(notes) && n.userId !in demo
      ensures Rows() == DemoResetTx(old(Rows()), demo)
    {
      offers := Filter(offers, SurvivesReset(demo));
      notes := Filter(notes, NotOfDemo(demo));
    }

    /** `deleteWithNotices`: the addressees are read before the cascade removes them. */
    method Remove() returns (r: Result<Store, Refusal>)
      requires !deleted
      modifies this
      ensures r.Ok? <==> CanDeleteOrder(old(order.status))
      ensures r.Err? ==> !deleted && Rows() == old(Rows())
      ensures r.Ok? ==> deleted && offers == [] && submissions == [] && files == []
      ensures r.Ok? ==>
        |old(notes)| <= |notes| && forall i :: 0 <= i < |old(notes)| ==> notes[i] == old(notes)[i]
      ensures r.Ok? ==>
        forall company :: ToldOfDeletion(notes, |old(notes)|, company) <==> HoldsActive(old(offers), company)
      ensures r == DeleteTx(old(Rows()))
      ensures Contents() == if r.Ok? then r.value else old(Contents())
    {
      var affected := Filter(offers, ActiveOffers());
      if !CanDeleteOrder(order.status) {
        return Err(OrderNotDeletable);
      }
      ghost var before := offers;
      forall company ensures ToldOfDeletion(notes + DeletedNotices(affected), |notes|, company) <==> HoldsActive(before, company) {
        NoticesReach(notes, before, company);
      }
      deleted, offers, submissions, files := true, [], [], [];
      notes := notes + DeletedNotices(affected);
      r := Ok(Contents());
    }
  }

  lemma BatchAddedIfNew(files: seq<FileRow>, round: nat, batch: seq<PreparedFile>)
    ensures AllNew(files, round, batch) ==>
      BatchAdded(files, files + CreatedRows(files, CompanyFile, round, batch), CompanyFile, round, batch)
  {
    if AllNew(files, round, batch) {
      NewBatchIsAdded(files, CompanyFile, round, batch);
    }
  }

  ghost predicate IsOpenRound(s: seq<SubmissionRow>, id: Id, round: nat) {
    exists i :: 0 <= i < |s| && s[i].submittedAt.None? && s[i].id == id && s[i].round == round &&
      forall t :: t in s && t.submittedAt.None? ==> t.round <= round
  }

  /** One above the greatest number there is, or the first. */
  ghost predicate IsNextRound(s: seq<SubmissionRow>, round: nat) {
    (forall t :: t in s ==> t.round < round) && (if s == [] then round == 1 else exists t :: t in s && t.round == round - 1)
  }

  ghost predicate DistinctRows(s: seq<SubmissionRow>) {
    forall i, j :: 0 <= i < j < |s| ==> s[i].id != s[j].id
  }

  lemma OpenRoundFound(s: seq<SubmissionRow>, open: SubmissionRow)
    requires Latest(Filter(s, Open())) == Some(open)
    ensures IsOpenRound(s, open.id, open.round)
  {
    assert open in Filter(s, Open());
    var i :| 0 <= i < |s| && s[i] == open;
  }

  /** Beyond place `from` someone is told that the order is gone. */
  ghost predicate ToldOfDeletion(notes: seq<NotificationRow>, from: nat, company: UserId) {
    exists k :: from <= k < |notes| && notes[k].userId == company && notes[k].kind.OrderDeleted?
  }

  lemma NoticesReach(notes: seq<NotificationRow>, offers: seq<OfferRow>, company: UserId)
    ensures ToldOfDeletion(notes + DeletedNotices(Filter(offers, ActiveOffers())), |notes|, company) <==>
      HoldsActive(offers, company)
  {
    var affected := Filter(offers, ActiveOffers());
    if ToldOfDeletion(notes + DeletedNotices(affected), |notes|, company) {
      NoticesAreOfAffected(notes, affected, company);
      var i :| 0 <= i < |affected| && affected[i].companyId == company;
      assert affected[i] in affected;
      var j :| 0 <= j < |offers| && offers[j] == affected[i];
    }
    if HoldsActive(offers, company) {
      var j :| 0 <= j < |offers| && offers[j].companyId == company && IsActiveOffer(offers[j].status);
      assert offers[j] in affected;
      var i :| 0 <= i < |affected| && affected[i] == offers[j];
      NoticesAreOfAffected(notes, affected, company);
    }
  }

  /** The notices added are those of the affected offers, one by one. */
  lemma NoticesAreOfAffected(notes: seq<NotificationRow>, affected: seq<OfferRow>, company: UserId)
    ensures ToldOfDeletion(notes + DeletedNotices(affected), |notes|, company) <==>
      exists i :: 0 <= i < |affected| && affected[i].companyId == company
  {
    var all := notes + DeletedNotices(affected);
    if i :| 0 <= i < |affected| && affected[i].companyId == company {
      assert all[|notes| + i].userId == company;
    }
    if k :| |notes| <= k < |all| && all[k].userId == company {
      assert affected[k - |notes|].companyId == company;
    }
  }

  /** With one row per identifier the update writes the comment to that row alone. */
  lemma CommentWritten(s: seq<SubmissionRow>, open: SubmissionRow, comment: string, after: seq<SubmissionRow>)
    requires DistinctRows(s) && open in s
    requires after == if open.comment == comment then s else UpdateSubmission(s, open.id, None, Some(comment))
    ensures |after| == |s|
    ensures forall i :: 0 <= i < |s| ==> after[i] == if s[i].id == open.id then s[i].(comment := comment) else s[i]
  {
    var k :| 0 <= k < |s| && s[k] == open;
    forall i | 0 <= i < |s| ensures after[i] == if s[i].id == open.id then s[i].(comment := comment) else s[i] {
      assert s[i].id == open.id ==> i == k;
    }
  }

  lemma UpsertKeepsUnique(offers: seq<OfferRow>, companyId: UserId, terms: OfferTerms, newId: Id, now: Moment)
    requires UniqueOffers(offers) && forall i :: 0 <= i < |offers| ==> offers[i].id != newId
    ensures UniqueOffers(Upsert(offers, companyId, terms, newId, now))
  {
    if First(offers, OfCompany(companyId)).None? {
      forall i | 0 <= i < |offers| ensures offers[i].companyId != companyId {
        assert offers[i] in offers;
      }
    }
  }

  lemma TransitionTouchesNoFile(db: Db, command: TransitionCommand, now: Moment)
    ensures var r := Transact(db, command, now);
      r.Ok? ==> r.value.db.files == db.files && r.value.db.submissions == db.submissions
  {
    var r := Transact(db, command, now);
    if r.Ok? {
      var event := BuildEvent(db, command, ResolveOffer(db, command).value, now);
      RestAfterEffects(db, Handle(OrderStateContext(db.order.clientId, db.order.status), event).1);
    }
  }

  function UpdatedOutside(o: OfferRow, status: Option<OfferStatus>, pending: set<OfferStatus>): OfferRow {
    if status.Some? && status.value !in pending then SetStatus(o, status.value) else o
  }
}
