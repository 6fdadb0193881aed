/** What the invariants and the step theorem say about one order's whole life. */
module OrderTheorems {
  import opened Collections
  import opened SharedRules
  import opened OrderStateMachine
  import opened OrderRecords
  import opened OrderTransitions
  import opened TransitionMeaning
  import opened OrderWorkflow
  import opened OrderProtocol
  import opened OrderInvariants
  import opened OfferSubmission
  import opened SubmissionRounds
  import opened OrderRuns

  // ------------------------------------------------- order and offers

  /** Every reachable order has one executor once it left the choice of offers and none
      before, its status fixes that offer's status, and pending offers exist exactly while
      the client has something to choose from. */
  lemma OrderAndOffersInLockstep(w: World, actions: seq<Action>)
    requires Init(w) && ValidRun(w, actions) && Run(w, actions).store.Live?
    ensures var db := Run(w, actions).store.db;
      |Filter(db.offers, Executes())| == (if AcceptsOffers(db.order.status) then 0 else 1) &&
      (!AcceptsOffers(db.order.status) ==>
        Filter(db.offers, Executes())[0].status == ExecutorStatus(db.order.status)) &&
      (db.order.status.AwaitingConfirmation? <==> exists o :: o in db.offers && o.status.Sent?) &&
      (db.order.status.Waiting? ==> forall o :: o in db.offers ==> LeftByChoice(o.status))
  {
    ReachableWorldsAreOk(w, actions);
    Lockstep(Run(w, actions).store.db);
  }

  lemma Lockstep(db: Db)
    requires DealOk(db)
    ensures |Filter(db.offers, Executes())| == (if AcceptsOffers(db.order.status) then 0 else 1)
    ensures !AcceptsOffers(db.order.status) ==>
      Filter(db.offers, Executes())[0].status == ExecutorStatus(db.order.status)
    ensures db.order.status.AwaitingConfirmation? <==> exists o :: o in db.offers && o.status.Sent?
    ensures db.order.status.Waiting? ==> forall o :: o in db.offers ==> LeftByChoice(o.status)
  {
    if AcceptsOffers(db.order.status) {
      FilterNone(db.offers, Executes());
      if db.order.status.AwaitingConfirmation? {
        var j :| 0 <= j < |db.offers| && db.offers[j].status.Sent?;
        assert db.offers[j] in db.offers;
      }
    } else {
      var i :| HeldBy(db, i);
      OneExecutor(db, i);
    }
  }

  lemma OneExecutor(db: Db, i: int)
    requires HeldBy(db, i)
    ensures Filter(db.offers, Executes()) == [db.offers[i]]
  {
    forall j | 0 <= j < |db.offers| && j != i ensures !Executes()(db.offers[j]) {}
    FilterOne(db.offers, Executes(), i);
  }

  // ------------------------------------------------------- the deal

  /** Once accepted, the deal lasts: price, deadline and executor never change, no other
      offer is touched again, and the order never returns to taking offers or disappears. */
  lemma DealLasts(w: World, actions: seq<Action>, i: int) returns (j: int)
    requires Inv(w) && w.store.Live? && HeldBy(w.store.db, i) && ValidRun(w, actions)
    ensures Run(w, actions).store.Live? && DealLasted(w.store.db, i, Run(w, actions).store.db, j)
  {
    RunsOnlyAdvance(w, actions);
    j := DealFollowed(w, Run(w, actions), i);
  }

  ghost predicate DealLasted(d: Db, i: int, e: Db, j: int) {
    HeldBy(d, i) && HeldBy(e, j) && !AcceptsOffers(e.order.status) &&
    e.offers[j].id == d.offers[i].id && e.offers[j].companyId == d.offers[i].companyId &&
    e.order.price == d.order.price == Some(d.offers[i].proposedPrice) &&
    e.order.deadline == d.order.deadline == Some(d.offers[i].proposedDeadline) &&
    forall o :: o in e.offers && o.id != d.offers[i].id ==> o in d.offers
  }

  lemma DealFollowed(v: World, w: World, i: int) returns (j: int)
    requires Advances(v, w) && v.store.Live? && HeldBy(v.store.db, i)
    ensures w.store.Live? && DealLasted(v.store.db, i, w.store.db, j)
  {
    j :| HeldBy(w.store.db, j) && SameDeal(v.store.db, i, w.store.db, j);
  }

  /** Price and deadline are empty exactly until an offer is accepted. */
  lemma NoTermsBeforeAcceptance(w: World, actions: seq<Action>)
    requires Init(w) && ValidRun(w, actions) && Run(w, actions).store.Live?
    ensures var order := Run(w, actions).store.db.order;
      order.price.None? == order.deadline.None? == AcceptsOffers(order.status)
  {
    ReachableWorldsAreOk(w, actions);
  }

  // ----------------------------------------------- submitted rounds

  /** A submitted round is final: over any interleaving of uploads, submissions and disputes
      its row and its files stay what they were, and it holds a company file. */
  lemma SubmittedRoundIsFinal(w: World, actions: seq<Action>, i: nat)
    requires Inv(w) && w.store.Live? && ValidRun(w, actions)
    requires i < |w.store.db.submissions| && w.store.db.submissions[i].submittedAt.Some?
    ensures Run(w, actions).store.Live?
    ensures var d, e := w.store.db, Run(w, actions).store.db;
      i < |e.submissions| && e.submissions[i] == d.submissions[i] &&
      FilesOfRound(e.files, i + 1) == FilesOfRound(d.files, i + 1) != []
  {
    RunsOnlyAdvance(w, actions);
  }

  /** The number of closed rounds follows the disputes, and an open round is the last one. */
  lemma RoundsCountDisputes(w: World, actions: seq<Action>)
    requires Init(w) && ValidRun(w, actions) && Run(w, actions).store.Live?
    ensures var v := Run(w, actions);
      var s, status := v.store.db.submissions, v.store.db.order.status;
      |Filter(s, Closed())| == Disputes(v.log) + (if WorkHandedOver(status) then 1 else 0) &&
      |s| - |Filter(s, Closed())| <= (if CanUploadWork(status) then 1 else 0) &&
      forall i :: 0 <= i < |s| ==> s[i].round == i + 1
  {
    ReachableWorldsAreOk(w, actions);
    ClosedAreCounted(Run(w, actions).store.db.submissions, Run(w, actions).issued);
  }

  function Closed(): SubmissionRow -> bool {
    (s: SubmissionRow) => s.submittedAt.Some?
  }

  lemma ClosedAreCounted(s: seq<SubmissionRow>, issued: set<Id>)
    requires Numbered(s, issued)
    ensures |Filter(s, Closed())| == ClosedRounds(s)
  {
    if s != [] {
      var n := |s| - 1;
      FilterAll(s[..n], Closed());
    }
  }

  /** In every interleaving the rows of an order stay within its byte limit, and a round never
      holds the same content twice. */
  lemma OrderFitsItsQuota(w: World, actions: seq<Action>)
    requires Init(w) && ValidRun(w, actions) && Run(w, actions).store.Live?
    ensures var files := Run(w, actions).store.db.files;
      SumSizes(files) <= MAX_ORDER_FILES_BYTES &&
      forall i, j :: 0 <= i < j < |files| && files[i].submissionRound == files[j].submissionRound ==>
        files[i].fileHash != files[j].fileHash
  {
    ReachableWorldsAreOk(w, actions);
  }

  // ------------------------------------------------- what a status allows

  /** In every reachable order: it can be deleted exactly while nobody executes it, the area can
      be verified exactly while its executor has not finished, and work can be uploaded exactly
      while the executor may submit it. */
  lemma StatusAllows(w: World, actions: seq<Action>, now: Moment)
    requires Init(w) && ValidRun(w, actions) && Run(w, actions).store.Live?
    ensures var db := Run(w, actions).store.db;
      (CanDeleteOrder(db.order.status) <==> forall o :: o in db.offers ==> !IsExecutorOffer(o.status)) &&
      (CanVerifyArea(db.order.status) <==>
        exists o :: o in db.offers && IsExecutorOffer(o.status) && o.status != OfferStatus.Completed) &&
      (CanUploadWork(db.order.status) <==> Transact(db, SubmitWork, now).Ok?)
  {
    ReachableWorldsAreOk(w, actions);
    ExecutorAndStatus(Run(w, actions).store.db);
    UploadAndSubmission(Run(w, actions).store.db, now);
  }

  lemma UploadAndSubmission(db: Db, now: Moment)
    requires UniqueOffers(db.offers) && NoDuplicateUnread(db.notes) && DealOk(db)
    ensures CanUploadWork(db.order.status) <==> Transact(db, SubmitWork, now).Ok?
  {
    WorkEventsNeverMisfire(db, SubmitWork, now);
  }

  lemma ExecutorAndStatus(db: Db)
    requires DealOk(db)
    ensures CanDeleteOrder(db.order.status) <==> forall o :: o in db.offers ==> !IsExecutorOffer(o.status)
    ensures CanVerifyArea(db.order.status) <==>
      exists o :: o in db.offers && IsExecutorOffer(o.status) && o.status != OfferStatus.Completed
  {
    if AcceptsOffers(db.order.status) {
      forall o | o in db.offers ensures !IsExecutorOffer(o.status) {
        var i :| 0 <= i < |db.offers| && db.offers[i] == o;
      }
    } else {
      var i :| HeldBy(db, i);
      ExecutorIsUnique(db, i);
      assert db.offers[i] in db.offers;
    }
  }

  /** An offer has expired exactly when its last day, by UTC, is over. */
  lemma ExpiryIsByDay(deadline: Moment, now: Moment)
    ensures IsOfferExpired(deadline, UtcCalendarDate(now)) <==>
      exists midnight :: midnight % MILLISECONDS_IN_A_DAY == 0 && deadline < midnight <= now
  {
    var today := now / MILLISECONDS_IN_A_DAY * MILLISECONDS_IN_A_DAY;
    assert today % MILLISECONDS_IN_A_DAY == 0 && today <= now;
    if midnight :| midnight % MILLISECONDS_IN_A_DAY == 0 && deadline < midnight <= now {
      assert midnight == midnight / MILLISECONDS_IN_A_DAY * MILLISECONDS_IN_A_DAY;
    }
  }

  // ----------------------------------------------------------- deletion

  /** Deletion succeeds exactly before work begins, and tells a company exactly when its offer
      was still in play. */
  lemma DeletionTellsCompaniesInPlay(w: World, company: UserId)
    requires Inv(w) && w.store.Live?
    ensures var db, r := w.store.db, DeleteTx(w.store.db);
      (r.Ok? <==> AcceptsOffers(db.order.status)) &&
      (r.Ok? ==>
        var told := r.value.notes[|db.notes|..];
        r.value.notes[..|db.notes|] == db.notes &&
        ((exists n :: n in told && n.userId == company) <==>
         (exists o :: o in db.offers && o.companyId == company && o.status.Sent?)) &&
        OneDeletionNoticeEach(told))
  {
    var db := w.store.db;
    if AcceptsOffers(db.order.status) {
      var affected := Filter(db.offers, ActiveOffers());
      FilterIsUnique(db.offers, ActiveOffers());
      var told := DeletedNotices(affected);
      assert (db.notes + told)[|db.notes|..] == told;
      NoticesAddress(affected, company);
      forall o | o in db.offers && IsActiveOffer(o.status) ensures o.status.Sent? {
        var j :| 0 <= j < |db.offers| && db.offers[j] == o;
      }
    }
  }

  /** All say that the order is gone, unread, replacing nothing, and nobody gets two. */
  ghost predicate OneDeletionNoticeEach(told: seq<NotificationRow>) {
    (forall i :: 0 <= i < |told| ==> told[i].kind.OrderDeleted? && told[i].collapseKey.None? && !told[i].isRead) &&
    forall i, j :: 0 <= i < j < |told| ==> told[i].userId != told[j].userId
  }

  lemma NoticesAddress(affected: seq<OfferRow>, company: UserId)
    ensures (exists n :: n in DeletedNotices(affected) && n.userId == company) <==>
      (exists o :: o in affected && o.companyId == company)
  {
    var told := DeletedNotices(affected);
    if n :| n in told && n.userId == company {
      var i :| 0 <= i < |told| && told[i] == n;
      assert affected[i] in affected;
    }
    if o :| o in affected && o.companyId == company {
      var i :| 0 <= i < |affected| && affected[i] == o;
      assert told[i] in told;
    }
  }

  // --------------------------------------------------- final refusals

  /** The second refusal is final: from then on nothing in a run changes that offer's row. */
  lemma SecondRefusalIsFinal(w: World, actions: seq<Action>, o: OfferRow)
    requires Inv(w) && w.store.Live? && o in w.store.db.offers && ValidRun(w, actions)
    requires Rejections(w.log, o.id) >= MAX_OFFER_REJECTIONS
    ensures o.status.Rejected? && o.rejectionCount == MAX_OFFER_REJECTIONS
    ensures Run(w, actions).store.Live? ==>
      forall p :: p in Run(w, actions).store.db.offers && p.id == o.id ==> p == o
  {
    var i :| 0 <= i < |w.store.db.offers| && w.store.db.offers[i] == o;
    RunsOnlyAdvance(w, actions);
  }

  /** Stored counters are the client's refusals of that row and never pass the limit. */
  lemma RefusalsAreCounted(w: World, actions: seq<Action>, o: OfferRow)
    requires Init(w) && ValidRun(w, actions) && Run(w, actions).store.Live? && o in Run(w, actions).store.db.offers
    ensures o.rejectionCount == Rejections(Run(w, actions).log, o.id) <= MAX_OFFER_REJECTIONS
    ensures o.rejectionCount == MAX_OFFER_REJECTIONS ==> o.status.Rejected?
  {
    ReachableWorldsAreOk(w, actions);
    var offers := Run(w, actions).store.db.offers;
    var i :| 0 <= i < |offers| && offers[i] == o;
  }

  // ---------------------------------------------------- notifications

  function NotesOf(store: Store): seq<NotificationRow> {
    match store
    case Live(db) => db.notes
    case Deleted(notes) => notes
  }

  /** No transition, upload, area update or deletion removes, adds or reorders a read
      notification, and the unread ones never repeat an addressee and key. */
  lemma ReadNotificationsStay(w: World, a: Action)
    requires Inv(w) && Enabled(w, a) && !a.MarkRead? && !a.DemoReset?
    ensures Filter(NotesOf(Next(w, a).store), Read()) == Filter(NotesOf(w.store), Read())
    ensures NoDuplicateUnread(NotesOf(Next(w, a).store))
  {
    StepKeepsInvariants(w, a);
    if w.store.Live? {
      if a.OfferAction? || a.CommandAction? || a.SubmitWorkAction? {
        TransitionKeepsRead(w, a);
      } else {
        WriteKeepsRead(w, a);
      }
    }
  }

  /** Over all runs, past the order's deletion too: two unread notifications of one user never
      carry the same key. */
  lemma OneUnreadPerKey(w: World, actions: seq<Action>, i: nat, j: nat)
    requires Init(w) && ValidRun(w, actions) && i < j < |NotesOf(Run(w, actions).store)|
    ensures var notes := NotesOf(Run(w, actions).store);
      !notes[i].isRead && !notes[j].isRead && notes[i].userId == notes[j].userId && notes[i].collapseKey.Some? ==>
        notes[i].collapseKey != notes[j].collapseKey
  {
    ReachableWorldsAreOk(w, actions);
    var notes := NotesOf(Run(w, actions).store);
    assert !Clash(notes[i], notes[j]);
  }

  lemma TransitionKeepsRead(w: World, a: Action)
    requires Inv(w) && w.store.Live? && Enabled(w, a)
    requires a.OfferAction? || a.CommandAction? || a.SubmitWorkAction?
    ensures Filter(NotesOf(Next(w, a).store), Read()) == Filter(w.store.db.notes, Read())
  {
    var db := w.store.db;
    if a.OfferAction? {
      forall i | 0 <= i < |db.offers| ensures db.offers[i].id != a.newId {}
      var k := SubmitMeans(db, a.companyId, a.terms, a.newId, a.now);
    } else if a.CommandAction? {
      TransitionMeans(db, a.command, a.now);
    } else {
      var k := SubmitWorkMeans(db, w.issued, a.now);
    }
  }

  lemma InsertKeepsRead(db: Db, u: Upload, elsewhere: UsageElsewhere)
    requires NoDuplicateUnread(db.notes) && u.batch.Some?
    ensures var r := InsertFilesTx(db, u.submissionId, u.round, u.comment, u.batch.value, elsewhere);
      r.Ok? ==> Filter(r.value.notes, Read()) == Filter(db.notes, Read())
  {
    ReplaceKeepsNotes(db.notes, [FilesUpdatedNotice(db.order)]);
  }

  lemma AreaKeepsRead(db: Db, area: real, now: Moment)
    requires NoDuplicateUnread(db.notes)
    ensures var r := VerifyAreaTx(db, area, now); r.Ok? ==> Filter(r.value.notes, Read()) == Filter(db.notes, Read())
  {
    ReplaceKeepsNotes(db.notes, [AreaNotice(db.order)]);
  }

  lemma DeletionKeepsRead(db: Db)
    ensures var r := DeleteTx(db); r.Ok? ==> Filter(NotesOf(r.value), Read()) == Filter(db.notes, Read())
  {
    var notices := DeletedNotices(Filter(db.offers, ActiveOffers()));
    FilterConcat(db.notes, notices, Read());
    FilterNone(notices, Read());
  }

  lemma WriteKeepsRead(w: World, a: Action)
    requires w.store.Live? && Enabled(w, a) && NoDuplicateUnread(w.store.db.notes)
    requires !a.OfferAction? && !a.CommandAction? && !a.SubmitWorkAction? && !a.MarkRead? && !a.DemoReset?
    ensures Filter(NotesOf(Next(w, a).store), Read()) == Filter(w.store.db.notes, Read())
  {
    var db := w.store.db;
    if a.InsertFiles? {
      InsertKeepsRead(db, w.uploads[a.request], a.elsewhere);
    } else if a.VerifyArea? {
      AreaKeepsRead(db, a.area, a.now);
    } else if a.DeleteOrder? {
      DeletionKeepsRead(db);
    } else {
      assert NotesOf(Next(w, a).store) == db.notes;
    }
  }
}
