/** The page and the server agree in every reachable state: a button is shown exactly when the
    server step behind it would succeed, on the order as it was read. */
module OrderButtons {
  import opened Collections
  import opened SharedRules
  import opened OrderStateMachine
  import opened OrderRecords
  import opened OrderTransitions
  import opened TransitionMeaning
  import opened OrderWorkflow
  import opened OrderProtocol
  import opened OrderInvariants
  import opened OfferSubmission
  import opened SubmissionRounds
  import opened OfferVersions
  import opened OrderNotices
  import opened OrderView
  import opened OrderPage

  // --------------------------------------------------------- the server

  /** What a user may ask of an order from its page. Offers are those the order has. */
  datatype Request =
    | AcceptIt(offer: OfferRow)
    | RejectIt(offer: OfferRow)
    | WithdrawIt(offer: OfferRow)
    | SendOffer(terms: OfferTerms, newId: Id)
    | Confirm(completionComment: Option<string>)
    | Dispute(correctionComment: string)
    | SendWork
    | AddFiles(comment: string, newId: Id)
    | Verify(area: real)
    | Delete

  /** The guard that lets a user open the page at all. */
  predicate MayOpen(db: Db, viewer: UserId) {
    db.order.clientId == viewer || viewer.role.Company?
  }

  predicate PassesOwnerGuard(db: Db, viewer: UserId) {
    viewer.role.Client? && db.order.clientId == viewer
  }

  predicate PassesExecutorGuard(db: Db, viewer: UserId) {
    viewer.role.Company? &&
    var own := First(db.offers, OfCompany(viewer));
    own.Some? && IsExecutorOffer(own.value.status)
  }

  /** Guards and transaction together: the route answers without an error. */
  predicate Succeeds(db: Db, viewer: UserId, r: Request, now: Moment) {
    match r
    case AcceptIt(o) => PassesOwnerGuard(db, viewer) && Transact(db, AcceptOffer(o.id, o.editedAt), now).Ok?
    case RejectIt(o) => PassesOwnerGuard(db, viewer) && Transact(db, RejectOffer(o.id), now).Ok?
    case WithdrawIt(o) =>
      viewer.role.Company? && o.companyId == viewer && Transact(db, WithdrawOffer(o.id), now).Ok?
    case SendOffer(terms, newId) => viewer.role.Company? && SubmitOfferTx(db, viewer, terms, newId, now).Ok?
    case Confirm(comment) => PassesOwnerGuard(db, viewer) && Transact(db, ConfirmWork(comment), now).Ok?
    case Dispute(comment) => PassesOwnerGuard(db, viewer) && Transact(db, DisputeWork(comment), now).Ok?
    case SendWork => PassesExecutorGuard(db, viewer) && SubmitWorkTx(db, now).Ok?
    case AddFiles(comment, newId) => PassesExecutorGuard(db, viewer) && OpenSubmissionTx(db, comment, newId).Ok?
    case Verify(area) => PassesExecutorGuard(db, viewer) && VerifyAreaTx(db, area, now).Ok?
    case Delete => PassesOwnerGuard(db, viewer) && DeleteTx(db).Ok?
  }

  // ----------------------------------------------------------- the page

  predicate CanAccept(decisions: seq<OfferDecision>, offer: OfferRow) {
    exists i | 0 <= i < |decisions| :: decisions[i].offer == offer && decisions[i].canAccept
  }

  predicate CanReject(decisions: seq<OfferDecision>, offer: OfferRow) {
    exists i | 0 <= i < |decisions| :: decisions[i].offer == offer && decisions[i].canReject
  }

  /** Whether the page shows a way to make the request. */
  predicate Offered(page: Page, r: Request) {
    var own := page.company.ownOffer;
    match r
    case AcceptIt(o) => CanAccept(page.client.decisions, o)
    case RejectIt(o) => CanReject(page.client.decisions, o)
    case WithdrawIt(o) => own == Some(o) && IsPendingOffer(o.status)
    case SendOffer(_, _) =>
      if own.Some? then IsPendingOffer(own.value.status) || page.company.canSubmitOffer
      else page.company.canSubmitOffer
    case Confirm(_) => page.client.canConfirmWork
    case Dispute(_) => page.client.canDisputeWork
    case SendWork => page.company.canSubmitWork
    case AddFiles(_, _) => page.company.canAddFiles
    case Verify(_) => page.company.canVerifyArea
    case Delete => page.access.isOwner && CanDeleteOrder(page.order.item.status)
  }

  function PageFor(db: Db, viewer: UserId, now: Moment): Page {
    PageOf(ToOrderDetail(db, viewer), Some(viewer), UtcCalendarDate(now))
  }

  ghost predicate Ready(db: Db, issued: set<Id>) {
    OffersOk(db, issued) && DealOk(db) && NoDuplicateUnread(db.notes) &&
    Numbered(db.submissions, issued) && (LastOpen(db.submissions) ==> CanUploadWork(db.order.status)) &&
    forall i :: 0 <= i < |db.files| && db.files[i].ownerType.CompanyFile? ==>
      1 <= db.files[i].submissionRound <= |db.submissions|
  }

  ghost predicate Askable(db: Db, r: Request, issued: set<Id>) {
    match r
    case AcceptIt(o) => o in db.offers
    case RejectIt(o) => o in db.offers
    case WithdrawIt(o) => o in db.offers
    case SendOffer(_, newId) => newId !in issued
    case _ => true
  }

  // --------------------------------------------------- rights recomputed

  lemma OwnerIsNoCompany(db: Db, issued: set<Id>, viewer: UserId)
    requires OffersOk(db, issued) && db.order.clientId == viewer
    ensures First(db.offers, OfCompany(viewer)).None? && viewer.role.Client?
  {
    forall o | o in db.offers ensures o.companyId.role.Company? {
      var i :| 0 <= i < |db.offers| && db.offers[i] == o;
    }
  }

  /** The page finds the same own offer as the server, or none for the owner. */
  lemma OwnOfferOnPage(db: Db, issued: set<Id>, viewer: UserId)
    requires OffersOk(db, issued)
    ensures First(ToOrderDetail(db, viewer).offers, OfCompany(viewer)) == First(db.offers, OfCompany(viewer))
  {
    if db.order.clientId == viewer {
      OwnerIsNoCompany(db, issued, viewer);
      forall o | o in ToOrderDetail(db, viewer).offers ensures o.companyId != viewer {
        assert o in db.offers;
      }
    }
  }

  /** From the projected order the page derives the very rights the server projected by. */
  lemma AccessAgrees(db: Db, issued: set<Id>, viewer: UserId)
    requires OffersOk(db, issued)
    ensures var access := ResolveOrderDetailAccess(ToOrderDetail(db, viewer), Some(viewer));
      var view := ResolveVisibility(db.order, db.offers, viewer);
      access.isOwner == view.isOwner && access.isParty == view.isParty && access.seesRealStatus == view.seesProgress
  {
    OwnOfferOnPage(db, issued, viewer);
  }

  // ------------------------------------------------------- rounds rebuilt

  lemma RoundsAreOneToN(order: OrderDetail, n: nat)
    requires forall r: nat :: HasRound(order, r) <==> 1 <= r <= n
    ensures RoundsShown(order) == seq(n, i requires 0 <= i < n => i + 1)
  {
    var expected: seq<nat> := seq(n, i requires 0 <= i < n => i + 1);
    forall r: nat ensures r in expected <==> 1 <= r <= n {
      if 1 <= r <= n {
        assert expected[r - 1] == r;
      }
    }
    RoundsShownAre(order);
    AscendingIsUnique(RoundsShown(order), expected);
  }

  /** To the sides of the deal the page shows exactly the rounds of the database, each with its
      comment, its moment and its files; nobody else sees any. */
  lemma RoundsAreRebuilt(db: Db, issued: set<Id>, viewer: UserId)
    requires Ready(db, issued)
    ensures var views := Views(ToOrderDetail(db, viewer), RoundsShown(ToOrderDetail(db, viewer)));
      if ResolveVisibility(db.order, db.offers, viewer).isParty then AllRoundsIn(db, views) else views == []
  {
    ShownRounds(db, issued, viewer);
    if ResolveVisibility(db.order, db.offers, viewer).isParty {
      forall i | 0 <= i < |db.submissions|
        ensures ViewOf(ToOrderDetail(db, viewer), i + 1, FilesOfRound(db.files, i + 1)) == RoundInDb(db, i)
      {
        OneRoundRebuilt(db, issued, viewer, i);
      }
    }
  }

  function RoundInDb(db: Db, i: nat): SubmissionView
    requires i < |db.submissions|
  {
    SubmissionView(i + 1, db.submissions[i].comment, db.submissions[i].submittedAt, FilesOfRound(db.files, i + 1))
  }

  ghost predicate AllRoundsIn(db: Db, views: seq<SubmissionView>) {
    |views| == |db.submissions| && forall i :: 0 <= i < |views| ==> views[i] == RoundInDb(db, i)
  }

  lemma OneRoundRebuilt(db: Db, issued: set<Id>, viewer: UserId, i: nat)
    requires Numbered(db.submissions, issued) && i < |db.submissions|
    requires ResolveVisibility(db.order, db.offers, viewer).isParty
    ensures ViewOf(ToOrderDetail(db, viewer), i + 1, FilesOfRound(db.files, i + 1)) == RoundInDb(db, i)
  {
    RoundFound(SubmissionDtos(db.submissions), i);
  }

  lemma ShownRounds(db: Db, issued: set<Id>, viewer: UserId)
    requires Ready(db, issued)
    ensures var view := ResolveVisibility(db.order, db.offers, viewer);
      var n := if view.isParty then |db.submissions| else 0;
      RoundsShown(ToOrderDetail(db, viewer)) == seq(n, i requires 0 <= i < n => i + 1)
  {
    var view, order := ResolveVisibility(db.order, db.offers, viewer), ToOrderDetail(db, viewer);
    var n := if view.isParty then |db.submissions| else 0;
    forall r: nat ensures HasRound(order, r) <==> 1 <= r <= n {
      HasShownRound(db, issued, viewer, r);
    }
    RoundsAreOneToN(order, n);
  }

  lemma HasShownRound(db: Db, issued: set<Id>, viewer: UserId, r: nat)
    requires Ready(db, issued)
    ensures var view := ResolveVisibility(db.order, db.offers, viewer);
      HasRound(ToOrderDetail(db, viewer), r) <==> (1 <= r <= if view.isParty then |db.submissions| else 0)
  {
    var view, order := ResolveVisibility(db.order, db.offers, viewer), ToOrderDetail(db, viewer);
    if view.isParty {
      if 1 <= r <= |db.submissions| {
        assert order.submissions[r - 1].round == r;
      }
    } else {
      forall i | 0 <= i < |order.files| ensures order.files[i].ownerType.ClientFile? {
        assert order.files[i] in order.files;
      }
    }
  }

  lemma RoundFound(s: seq<SubmissionDto>, i: nat)
    requires i < |s| && forall j :: 0 <= j < |s| ==> s[j].round == j + 1
    ensures First(s, OfRound(i + 1)) == Some(s[i])
  {
    assert s[i] in s;
    var found := First(s, OfRound(i + 1));
    var j :| 0 <= j < |s| && s[j] == found.value;
  }

  /** The open round on the page is the server's open round. */
  lemma OpenRoundShown(db: Db, issued: set<Id>, viewer: UserId)
    requires Ready(db, issued) && ResolveVisibility(db.order, db.offers, viewer).isParty
    ensures var open := SubmissionsOf(ToOrderDetail(db, viewer)).open;
      (open.Some? <==> LastOpen(db.submissions)) &&
      (open.Some? ==> open.value.files == FilesOfRound(db.files, |db.submissions|))
  {
    RoundsAreRebuilt(db, issued, viewer);
  }

  // -------------------------------------------------------- each button

  predicate Choosable(db: Db, o: OfferRow) {
    db.order.status.AwaitingConfirmation? && o.status.Sent?
  }

  lemma AcceptAnswers(db: Db, o: OfferRow, now: Moment)
    requires UniqueOffers(db.offers) && NoDuplicateUnread(db.notes) && o in db.offers
    ensures Transact(db, AcceptOffer(o.id, o.editedAt), now).Ok? <==>
      (Choosable(db, o) && !IsOfferExpired(o.proposedDeadline, UtcCalendarDate(now)))
  {
    AcceptMeans(db, o, o.editedAt, now);
  }

  lemma LeaveAnswers(db: Db, command: TransitionCommand, o: OfferRow, now: Moment)
    requires UniqueOffers(db.offers) && NoDuplicateUnread(db.notes) && o in db.offers
    requires command == RejectOffer(o.id) || command == WithdrawOffer(o.id)
    ensures Transact(db, command, now).Ok? <==> Choosable(db, o)
  {
    TheOffer(db.offers, o);
    assert ResolveOffer(db, command) == Ok(o);
    TransitionMeans(db, command, now);
    LeavingAllowed(db, command, o, now);
  }

  lemma LeavingAllowed(db: Db, command: TransitionCommand, o: OfferRow, now: Moment)
    requires command.RejectOffer? || command.WithdrawOffer?
    ensures Allowed(db, command, o, now) <==> Choosable(db, o)
  {
  }

  /** A decision is shown for every pending offer and carries the two answers. */
  lemma DecisionsMean(order: OrderDetail, access: OrderDetailAccess, today: int, o: OfferRow)
    requires access.isOwner
    ensures var decisions, d := ResolveClientActions(order, access, today).decisions, Decision(order.item.status, o, today);
      (CanAccept(decisions, o) <==> o in order.offers && o.status.Sent? && d.canAccept) &&
      (CanReject(decisions, o) <==> o in order.offers && o.status.Sent? && d.canReject) &&
      (forall i :: 0 <= i < |decisions| ==>
        decisions[i].expired == IsOfferExpired(decisions[i].offer.proposedDeadline, today) &&
        (decisions[i].expired ==> !decisions[i].canAccept))
  {
    var pending := Filter(order.offers, Pending());
    var decisions := ResolveClientActions(order, access, today).decisions;
    forall i | 0 <= i < |decisions| ensures decisions[i] == Decision(order.item.status, pending[i], today) && pending[i] in pending {}
    if o in pending {
      var i :| 0 <= i < |pending| && pending[i] == o;
      assert decisions[i].offer == o;
    }
  }

  /** Only an order that awaits a choice has a pending offer. */
  lemma PendingMeansAwaiting(db: Db, o: OfferRow)
    requires DealOk(db) && o in db.offers && o.status.Sent?
    ensures db.order.status.AwaitingConfirmation?
  {
    var j :| 0 <= j < |db.offers| && db.offers[j] == o;
  }

  lemma DecisionsShown(db: Db, issued: set<Id>, viewer: UserId, o: OfferRow, now: Moment)
    requires OffersOk(db, issued) && o in db.offers
    ensures var decisions := PageFor(db, viewer, now).client.decisions;
      (CanAccept(decisions, o) <==>
        (db.order.clientId == viewer && Choosable(db, o) && !IsOfferExpired(o.proposedDeadline, UtcCalendarDate(now)))) &&
      (CanReject(decisions, o) <==> (db.order.clientId == viewer && Choosable(db, o)))
  {
    AccessAgrees(db, issued, viewer);
    if db.order.clientId == viewer {
      var order := ToOrderDetail(db, viewer);
      DecisionsMean(order, ResolveOrderDetailAccess(order, Some(viewer)), UtcCalendarDate(now), o);
      DecisionIs(db, viewer, o, UtcCalendarDate(now));
    }
  }

  lemma DecisionIs(db: Db, owner: UserId, o: OfferRow, today: int)
    requires o in db.offers && db.order.clientId == owner
    ensures var order, d := ToOrderDetail(db, owner), Decision(db.order.status, o, today);
      order.item.status == db.order.status && (o.status.Sent? ==> o in order.offers) &&
      (o.status.Sent? && d.canAccept <==> Choosable(db, o) && !IsOfferExpired(o.proposedDeadline, today)) &&
      (o.status.Sent? && d.canReject <==> Choosable(db, o))
  {
  }

  lemma AcceptButton(db: Db, issued: set<Id>, viewer: UserId, o: OfferRow, now: Moment)
    requires Ready(db, issued) && MayOpen(db, viewer) && o in db.offers
    ensures Offered(PageFor(db, viewer, now), AcceptIt(o)) <==> Succeeds(db, viewer, AcceptIt(o), now)
  {
    DecisionsShown(db, issued, viewer, o, now);
    AcceptAnswers(db, o, now);
  }

  lemma RejectButton(db: Db, issued: set<Id>, viewer: UserId, o: OfferRow, now: Moment)
    requires Ready(db, issued) && MayOpen(db, viewer) && o in db.offers
    ensures Offered(PageFor(db, viewer, now), RejectIt(o)) <==> Succeeds(db, viewer, RejectIt(o), now)
  {
    DecisionsShown(db, issued, viewer, o, now);
    LeaveAnswers(db, RejectOffer(o.id), o, now);
  }

  /** What the page knows of the company that looks; the owner is shown nothing of it. */
  lemma CompanyShown(db: Db, issued: set<Id>, viewer: UserId, now: Moment)
    requires OffersOk(db, issued)
    ensures var company := PageFor(db, viewer, now).company;
      if db.order.clientId == viewer then company.ownOffer.None? && !company.canSubmitOffer
      else company.ownOffer == First(db.offers, OfCompany(viewer)) &&
           company.canSubmitOffer == ToOrderDetail(db, viewer).canSubmitOffer
  {
    AccessAgrees(db, issued, viewer);
    OwnOfferOnPage(db, issued, viewer);
  }

  lemma WithdrawButton(db: Db, issued: set<Id>, viewer: UserId, o: OfferRow, now: Moment)
    requires Ready(db, issued) && MayOpen(db, viewer) && o in db.offers
    ensures Offered(PageFor(db, viewer, now), WithdrawIt(o)) <==> Succeeds(db, viewer, WithdrawIt(o), now)
  {
    CompanyShown(db, issued, viewer, now);
    LeaveAnswers(db, WithdrawOffer(o.id), o, now);
    OwnOrNot(db, issued, viewer, o);
  }

  /** An offer of the order is the viewer's exactly when the lookup by company finds it, and a
      pending one can be chosen. */
  lemma OwnOrNot(db: Db, issued: set<Id>, viewer: UserId, o: OfferRow)
    requires OffersOk(db, issued) && DealOk(db) && o in db.offers
    ensures o.companyId == viewer <==> First(db.offers, OfCompany(viewer)) == Some(o)
    ensures o.companyId.role.Company? && o.companyId != db.order.clientId
    ensures o.status.Sent? <==> Choosable(db, o)
  {
    TheOffer(db.offers, o);
    var i :| 0 <= i < |db.offers| && db.offers[i] == o;
    if o.status.Sent? {
      PendingMeansAwaiting(db, o);
    }
  }

  /** The server takes an offer of whoever may send one; a pending own offer may always be edited. */
  lemma SendAnswers(db: Db, issued: set<Id>, viewer: UserId, terms: OfferTerms, newId: Id, now: Moment)
    requires Ready(db, issued) && viewer != db.order.clientId && newId !in issued
    ensures var sends, own := SubmitOfferTx(db, viewer, terms, newId, now).Ok?, First(db.offers, OfCompany(viewer));
      (ToOrderDetail(db, viewer).canSubmitOffer <==> sends) &&
      (own.Some? && IsPendingOffer(own.value.status) ==> sends)
  {
    forall i | 0 <= i < |db.offers| ensures db.offers[i].id != newId {}
    FeedAgrees(db, viewer, terms, newId, now);
    PageMeans(db, viewer);
    var own := First(db.offers, OfCompany(viewer));
    if own.Some? && IsPendingOffer(own.value.status) {
      PendingMeansAwaiting(db, own.value);
    }
  }

  lemma SendButton(db: Db, issued: set<Id>, viewer: UserId, r: Request, now: Moment)
    requires Ready(db, issued) && MayOpen(db, viewer) && r.SendOffer? && r.newId !in issued
    ensures Offered(PageFor(db, viewer, now), r) <==> Succeeds(db, viewer, r, now)
  {
    CompanyShown(db, issued, viewer, now);
    if db.order.clientId != viewer {
      SendAnswers(db, issued, viewer, r.terms, r.newId, now);
    }
  }

  /** The executor's offer, as the owner's page finds it among the active ones. */
  lemma ExecutorOnPage(db: Db, k: int)
    requires HeldBy(db, k)
    ensures First(ToOrderDetail(db, db.order.clientId).offers, Executes()) == Some(db.offers[k])
  {
    ExecutorIsUnique(db, k);
    var shown := ToOrderDetail(db, db.order.clientId).offers;
    assert db.offers[k] in shown;
    var found := First(shown, Executes());
    assert found.value in shown && found.value in db.offers;
  }

  /** In lockstep the executor's status fits a verdict exactly while work awaits one. */
  lemma VerdictFits(status: OrderStatus, event: OrderEventType)
    requires event.WorkConfirmed? || event.WorkDisputed?
    ensures event in TransitionsFrom(status) <==> status.AwaitingCompletionConfirmation?
    ensures CanTransition(status, event, Some(ExecutorStatus(status))) <==> status.AwaitingCompletionConfirmation?
  {
  }

  /** The owner's page shows the verdict buttons exactly while work awaits the verdict. */
  lemma VerdictsShown(db: Db, issued: set<Id>, viewer: UserId, now: Moment)
    requires OffersOk(db, issued) && DealOk(db)
    ensures var client := PageFor(db, viewer, now).client;
      client.canConfirmWork == client.canDisputeWork ==
        (db.order.clientId == viewer && db.order.status.AwaitingCompletionConfirmation?)
  {
    AccessAgrees(db, issued, viewer);
    VerdictFits(db.order.status, OrderEventType.WorkConfirmed);
    VerdictFits(db.order.status, OrderEventType.WorkDisputed);
    if db.order.clientId == viewer && !AcceptsOffers(db.order.status) {
      var k :| HeldBy(db, k);
      ExecutorOnPage(db, k);
    }
  }

  lemma VerdictAnswers(db: Db, command: TransitionCommand, now: Moment)
    requires UniqueOffers(db.offers) && NoDuplicateUnread(db.notes) && DealOk(db)
    requires command.ConfirmWork? || command.DisputeWork?
    ensures Transact(db, command, now).Ok? <==> db.order.status.AwaitingCompletionConfirmation?
  {
    WorkEventsNeverMisfire(db, command, now);
    VerdictFits(db.order.status, EventOf(command));
  }

  lemma ConfirmButton(db: Db, issued: set<Id>, viewer: UserId, r: Request, now: Moment)
    requires Ready(db, issued) && MayOpen(db, viewer) && r.Confirm?
    ensures Offered(PageFor(db, viewer, now), r) <==> Succeeds(db, viewer, r, now)
  {
    VerdictsShown(db, issued, viewer, now);
    VerdictAnswers(db, ConfirmWork(r.completionComment), now);
  }

  lemma DisputeButton(db: Db, issued: set<Id>, viewer: UserId, r: Request, now: Moment)
    requires Ready(db, issued) && MayOpen(db, viewer) && r.Dispute?
    ensures Offered(PageFor(db, viewer, now), r) <==> Succeeds(db, viewer, r, now)
  {
    VerdictsShown(db, issued, viewer, now);
    VerdictAnswers(db, DisputeWork(r.correctionComment), now);
  }

  /** The executor's own offer is the one that holds the deal. */
  lemma ExecutorHolds(db: Db, viewer: UserId) returns (k: int)
    requires DealOk(db) && PassesExecutorGuard(db, viewer)
    ensures HeldBy(db, k) && First(db.offers, OfCompany(viewer)) == Some(db.offers[k])
  {
    var own := First(db.offers, OfCompany(viewer)).value;
    var j :| 0 <= j < |db.offers| && db.offers[j] == own;
    assert !AcceptsOffers(db.order.status);
    k :| HeldBy(db, k);
    ExecutorIsUnique(db, k);
  }

  /** In lockstep the executor's status fits a submission exactly while work may be uploaded. */
  lemma SubmissionFits(status: OrderStatus)
    requires !AcceptsOffers(status)
    ensures CanTransition(status, OrderEventType.WorkSubmitted, Some(ExecutorStatus(status))) <==> CanUploadWork(status)
  {
  }

  /** The buttons of a card whose own offer is the executor's. */
  lemma ExecutorCard(order: OrderDetail, viewer: UserId, today: int, own: OfferRow)
    requires !ResolveOrderDetailAccess(order, Some(viewer)).isOwner
    requires First(order.offers, OfCompany(viewer)) == Some(own) && IsExecutorOffer(own.status)
    ensures var company, open := PageOf(order, Some(viewer), today).company, SubmissionsOf(order).open;
      company.canAddFiles == CanUploadWork(order.item.status) &&
      company.canVerifyArea == CanVerifyArea(order.item.status) &&
      company.canSubmitWork ==
        (CanTransition(order.item.status, OrderEventType.WorkSubmitted, Some(own.status)) &&
         open.Some? && open.value.files != [])
  {
  }

  /** What the executor's page offers, from the database's point of view. */
  lemma WorkShown(db: Db, issued: set<Id>, viewer: UserId, today: int)
    requires Ready(db, issued) && PassesExecutorGuard(db, viewer) && db.order.clientId != viewer
    ensures var company := PageOf(ToOrderDetail(db, viewer), Some(viewer), today).company;
      var uploading := CanUploadWork(db.order.status);
      company.canAddFiles == uploading && company.canVerifyArea == CanVerifyArea(db.order.status) &&
      company.canSubmitWork ==
        (uploading && LastOpen(db.submissions) && FilesOfRound(db.files, |db.submissions|) != [])
  {
    AccessAgrees(db, issued, viewer);
    OwnOfferOnPage(db, issued, viewer);
    var own := ExecutorStatusHolds(db, viewer);
    ExecutorCard(ToOrderDetail(db, viewer), viewer, today, own);
    SubmissionFits(db.order.status);
    OpenRoundShown(db, issued, viewer);
  }

  lemma ExecutorStatusHolds(db: Db, viewer: UserId) returns (own: OfferRow)
    requires DealOk(db) && PassesExecutorGuard(db, viewer)
    ensures First(db.offers, OfCompany(viewer)) == Some(own) && own.status == ExecutorStatus(db.order.status)
    ensures !AcceptsOffers(db.order.status) && ToOrderDetail(db, viewer).item.status == db.order.status
  {
    var k := ExecutorHolds(db, viewer);
    own := db.offers[k];
  }

  /** Whoever is not the executor is shown no work buttons. */
  lemma NoWorkShown(db: Db, issued: set<Id>, viewer: UserId, today: int)
    requires Ready(db, issued) && MayOpen(db, viewer) && !PassesExecutorGuard(db, viewer)
    ensures var company := PageOf(ToOrderDetail(db, viewer), Some(viewer), today).company;
      !company.canAddFiles && !company.canVerifyArea && !company.canSubmitWork
  {
    AccessAgrees(db, issued, viewer);
    OwnOfferOnPage(db, issued, viewer);
  }

  /** The work buttons, from the database's point of view. */
  ghost predicate WorkButtonsAre(db: Db, viewer: UserId, company: OrderCompanyActions) {
    var guard := PassesExecutorGuard(db, viewer);
    company.canAddFiles == (guard && CanUploadWork(db.order.status)) &&
    company.canVerifyArea == (guard && CanVerifyArea(db.order.status)) &&
    company.canSubmitWork ==
      (guard && CanUploadWork(db.order.status) && LastOpen(db.submissions) &&
       FilesOfRound(db.files, |db.submissions|) != [])
  }

  lemma WorkButtonsShown(db: Db, issued: set<Id>, viewer: UserId, now: Moment)
    requires Ready(db, issued) && MayOpen(db, viewer)
    ensures WorkButtonsAre(db, viewer, PageFor(db, viewer, now).company)
  {
    if PassesExecutorGuard(db, viewer) {
      if db.order.clientId == viewer {
        OwnerIsNoCompany(db, issued, viewer);
      }
      WorkShown(db, issued, viewer, UtcCalendarDate(now));
    } else {
      NoWorkShown(db, issued, viewer, UtcCalendarDate(now));
    }
  }

  lemma SendWorkButton(db: Db, issued: set<Id>, viewer: UserId, now: Moment)
    requires Ready(db, issued) && MayOpen(db, viewer)
    ensures Offered(PageFor(db, viewer, now), SendWork) <==> Succeeds(db, viewer, SendWork, now)
  {
    WorkButtonsShown(db, issued, viewer, now);
    SendWorkAnswers(db, issued, now);
    SubmitOffered(db, viewer, PageFor(db, viewer, now), now);
  }

  lemma SubmitOffered(db: Db, viewer: UserId, page: Page, now: Moment)
    requires WorkButtonsAre(db, viewer, page.company)
    requires SubmitWorkTx(db, now).Ok? <==>
      (CanUploadWork(db.order.status) && LastOpen(db.submissions) && FilesOfRound(db.files, |db.submissions|) != [])
    ensures Offered(page, SendWork) <==> Succeeds(db, viewer, SendWork, now)
  {
  }

  lemma SendWorkAnswers(db: Db, issued: set<Id>, now: Moment)
    requires Ready(db, issued)
    ensures SubmitWorkTx(db, now).Ok? <==>
      (CanUploadWork(db.order.status) && LastOpen(db.submissions) && FilesOfRound(db.files, |db.submissions|) != [])
  {
    var k := SubmitWorkMeans(db, issued, now);
  }

  lemma AddFilesAnswers(db: Db, viewer: UserId, r: Request, page: Page, now: Moment)
    requires r.AddFiles? && WorkButtonsAre(db, viewer, page.company)
    requires OpenSubmissionTx(db, r.comment, r.newId).Ok? <==> CanUploadWork(db.order.status)
    ensures Offered(page, r) <==> Succeeds(db, viewer, r, now)
  {
  }

  lemma VerifyAnswers(db: Db, viewer: UserId, r: Request, page: Page, now: Moment)
    requires r.Verify? && WorkButtonsAre(db, viewer, page.company)
    ensures Offered(page, r) <==> Succeeds(db, viewer, r, now)
  {
    AreaMeans(db, r.area, now);
  }

  lemma UploadButtons(db: Db, issued: set<Id>, viewer: UserId, r: Request, now: Moment)
    requires Ready(db, issued) && MayOpen(db, viewer) && (r.AddFiles? || r.Verify?)
    ensures Offered(PageFor(db, viewer, now), r) <==> Succeeds(db, viewer, r, now)
  {
    WorkButtonsShown(db, issued, viewer, now);
    if r.AddFiles? {
      OpenMeans(db, issued, r.comment, r.newId);
      AddFilesAnswers(db, viewer, r, PageFor(db, viewer, now), now);
    } else {
      VerifyAnswers(db, viewer, r, PageFor(db, viewer, now), now);
    }
  }

  // ---------------------------------------------------------- authority

  /** Whoever asks, by whatever way: only the owner decides on offers and work and deletes, only
      the offer's company withdraws it, only who holds the deal works on the order, and only
      companies send offers. */
  lemma OnlyTheEntitledSucceed(db: Db, issued: set<Id>, viewer: UserId, r: Request, now: Moment)
    requires OffersOk(db, issued) && DealOk(db) && Succeeds(db, viewer, r, now)
    ensures r.AcceptIt? || r.RejectIt? || r.Confirm? || r.Dispute? || r.Delete? ==> viewer == db.order.clientId
    ensures r.WithdrawIt? ==> viewer == r.offer.companyId
    ensures r.SendOffer? ==> viewer.role.Company?
    ensures r.SendWork? || r.AddFiles? || r.Verify? ==> exists k :: HeldBy(db, k) && db.offers[k].companyId == viewer
  {
    if r.SendWork? || r.AddFiles? || r.Verify? {
      var k := ExecutorHolds(db, viewer);
      assert HeldBy(db, k) && db.offers[k].companyId == viewer;
    }
  }

  // -------------------------------------------------- the rest of the page

  /** The owner's page names the executor exactly when there is one; a company's page calls it the
      executor exactly when the server's guard would. */
  lemma ExecutorNamed(db: Db, issued: set<Id>, viewer: UserId, now: Moment)
    requires Ready(db, issued) && MayOpen(db, viewer)
    ensures var page := PageFor(db, viewer, now);
      page.company.isExecutor == PassesExecutorGuard(db, viewer) &&
      (viewer == db.order.clientId ==>
        (page.client.executorOffer.Some? <==> !AcceptsOffers(db.order.status)) &&
        forall k :: HeldBy(db, k) ==> page.client.executorOffer == Some(db.offers[k]))
  {
    AccessAgrees(db, issued, viewer);
    OwnOfferOnPage(db, issued, viewer);
    if viewer == db.order.clientId {
      OwnerIsNoCompany(db, issued, viewer);
      OwnerSeesExecutor(db);
    }
  }

  lemma OwnerSeesExecutor(db: Db)
    requires DealOk(db)
    ensures var shown := First(ToOrderDetail(db, db.order.clientId).offers, Executes());
      (shown.Some? <==> !AcceptsOffers(db.order.status)) && forall k :: HeldBy(db, k) ==> shown == Some(db.offers[k])
  {
    forall k | HeldBy(db, k)
      ensures First(ToOrderDetail(db, db.order.clientId).offers, Executes()) == Some(db.offers[k])
    {
      ExecutorOnPage(db, k);
    }
    if AcceptsOffers(db.order.status) {
      NoExecutorYet(db);
      forall o | o in ToOrderDetail(db, db.order.clientId).offers ensures !IsExecutorOffer(o.status) {
        assert o in db.offers;
      }
    }
  }

  /** The task files of the page: all of the client's for the sides of the deal, for other
      companies the same while offers are taken, and the same rule decides about a download. */
  lemma TaskFilesOnPage(db: Db, issued: set<Id>, viewer: UserId)
    requires Ready(db, issued) && MayOpen(db, viewer)
    ensures var files := ResolveOrderDetailAccess(ToOrderDetail(db, viewer), Some(viewer)).clientFiles;
      var own := StatusOf(First(db.offers, OfCompany(viewer)));
      var sees := viewer == db.order.clientId || CompanySeesTaskFiles(db.order.status, own);
      (forall f :: f in files <==> f in db.files && f.ownerType.ClientFile? && sees) &&
      (viewer != db.order.clientId ==>
        (CompanySeesTaskFiles(db.order.status, own) <==>
          AcceptsOffers(db.order.status) || exists k :: HeldBy(db, k) && db.offers[k].companyId == viewer))
  {
    PartiesHoldTheDeal(db, viewer);
  }

  // ------------------------------------------------------ whole uploads

  /** `addFiles` from end to end with nothing in between and nothing else on its way to the
      bucket: open the round, drop duplicates, store what is new or the comment alone. */
  function WholeUpload(db: Db, comment: string, newId: Id, prepared: seq<PreparedFile>, elsewhere: UsageElsewhere)
    : Result<Db, Refusal>
  {
    match OpenSubmissionTx(db, comment, newId)
    case Err(e) => Err(e)
    case Ok(open) =>
      var batch := DropDuplicates(open.db.files, open.round, prepared);
      if batch == [] then SaveCommentTx(open.db, open.id, comment)
      else InsertFilesTx(open.db, open.id, open.round, comment, batch, elsewhere)
  }

  lemma RoundForIsOpen(db: Db, issued: set<Id>, comment: string, newId: Id)
    requires Numbered(db.submissions, issued) && newId !in issued
    ensures var o := RoundFor(db, comment, newId);
      Numbered(o.db.submissions, issued + {newId}) && LastOpen(o.db.submissions) &&
      o.round == |o.db.submissions| && o.db.submissions[o.round - 1].id == o.id &&
      o.db == db.(submissions := o.db.submissions)
  {
  }

  /** Into the round just opened the second half goes exactly when the bytes fit. */
  lemma OpenedRoundTakes(o: OpenedSubmission, issued: set<Id>, comment: string, batch: seq<PreparedFile>,
                         elsewhere: UsageElsewhere)
    requires Numbered(o.db.submissions, issued) && LastOpen(o.db.submissions) && CanUploadWork(o.db.order.status)
    requires o.round == |o.db.submissions| && o.db.submissions[o.round - 1].id == o.id
    ensures SaveCommentTx(o.db, o.id, comment).Ok?
    ensures InsertFilesTx(o.db, o.id, o.round, comment, batch, elsewhere).Ok? <==>
      FitsQuota(o.db, elsewhere, SumPrepared(batch))
  {
    GuardMeans(o.db, Upload(o.id, o.round, comment, [], None), issued);
  }

  lemma WholeUploadMeans(db: Db, issued: set<Id>, comment: string, newId: Id, prepared: seq<PreparedFile>,
                         elsewhere: UsageElsewhere)
    requires Numbered(db.submissions, issued) && newId !in issued
    ensures var batch := DropDuplicates(db.files, RoundFor(db, comment, newId).round, prepared);
      WholeUpload(db, comment, newId, prepared, elsewhere).Ok? <==>
        (CanUploadWork(db.order.status) && (batch == [] || FitsQuota(db, elsewhere, SumPrepared(batch))))
  {
    OpenMeans(db, issued, comment, newId);
    if CanUploadWork(db.order.status) {
      var o := RoundFor(db, comment, newId);
      RoundForIsOpen(db, issued, comment, newId);
      OpenedRoundTakes(o, issued + {newId}, comment, DropDuplicates(o.db.files, o.round, prepared), elsewhere);
    }
  }

  /** A whole upload succeeds exactly when the page shows the form and what the round does not
      hold yet fits the quota. */
  lemma UploadSucceedsIff(db: Db, issued: set<Id>, viewer: UserId, r: Request, prepared: seq<PreparedFile>,
                          elsewhere: UsageElsewhere, now: Moment)
    requires Ready(db, issued) && MayOpen(db, viewer) && r.AddFiles? && r.newId !in issued
    ensures var batch := DropDuplicates(db.files, RoundFor(db, r.comment, r.newId).round, prepared);
      PassesExecutorGuard(db, viewer) && WholeUpload(db, r.comment, r.newId, prepared, elsewhere).Ok? <==>
        Offered(PageFor(db, viewer, now), r) && (batch == [] || FitsQuota(db, elsewhere, SumPrepared(batch)))
  {
    WorkButtonsShown(db, issued, viewer, now);
    UploadFormShown(db, viewer, r, PageFor(db, viewer, now));
    WholeUploadMeans(db, issued, r.comment, r.newId, prepared, elsewhere);
  }

  lemma UploadFormShown(db: Db, viewer: UserId, r: Request, page: Page)
    requires r.AddFiles? && WorkButtonsAre(db, viewer, page.company)
    ensures Offered(page, r) <==> (PassesExecutorGuard(db, viewer) && CanUploadWork(db.order.status))
  {
  }

  /** And then the round holds every content that was sent, the new ones row by row and byte by
      byte, and carries the comment. */
  lemma UploadStoresEverything(db: Db, issued: set<Id>, comment: string, newId: Id, prepared: seq<PreparedFile>,
                               elsewhere: UsageElsewhere)
    requires Numbered(db.submissions, issued) && newId !in issued
    requires WholeUpload(db, comment, newId, prepared, elsewhere).Ok?
    ensures var e, o := WholeUpload(db, comment, newId, prepared, elsewhere).value, RoundFor(db, comment, newId);
      BatchAdded(db.files, e.files, CompanyFile, o.round, DropDuplicates(db.files, o.round, prepared)) &&
      |e.submissions| == o.round && e.submissions[o.round - 1].comment == comment &&
      e.submissions[o.round - 1].submittedAt.None?
  {
    OpenMeans(db, issued, comment, newId);
    var o := RoundFor(db, comment, newId);
    RoundForIsOpen(db, issued, comment, newId);
    DroppedIsNew(db.files, o.round, prepared);
    var batch := DropDuplicates(db.files, o.round, prepared);
    var u := Upload(o.id, o.round, comment, prepared, Some(batch));
    if batch == [] {
      GuardMeans(o.db, u, issued + {newId});
    } else {
      InsertMeans(o.db, u, elsewhere, issued + {newId});
    }
  }

  lemma DroppedIsNew(files: seq<FileRow>, round: nat, prepared: seq<PreparedFile>)
    ensures AllNew(files, round, DropDuplicates(files, round, prepared))
  {
    var batch := DropDuplicates(files, round, prepared);
    NothingLostNothingTwice(files, round, prepared, 0);
    forall i | 0 <= i < |batch| ensures First(files, SameFile(round, batch[i].fileHash)).None? {
      NothingLostNothingTwice(files, round, prepared, batch[i].fileHash);
    }
  }

  /** Every content of the request is in the round afterwards. */
  lemma NothingIsLost(db: Db, issued: set<Id>, comment: string, newId: Id, prepared: seq<PreparedFile>,
                      elsewhere: UsageElsewhere, i: nat)
    requires Numbered(db.submissions, issued) && newId !in issued && i < |prepared|
    requires WholeUpload(db, comment, newId, prepared, elsewhere).Ok?
    ensures InRound(WholeUpload(db, comment, newId, prepared, elsewhere).value.files,
                    RoundFor(db, comment, newId).round, prepared[i].fileHash)
  {
    UploadStoresEverything(db, issued, comment, newId, prepared, elsewhere);
    AddedOrThere(db.files, WholeUpload(db, comment, newId, prepared, elsewhere).value.files,
                 RoundFor(db, comment, newId).round, prepared, i);
  }

  lemma AddedOrThere(files: seq<FileRow>, after: seq<FileRow>, round: nat, prepared: seq<PreparedFile>, i: nat)
    requires i < |prepared| && BatchAdded(files, after, CompanyFile, round, DropDuplicates(files, round, prepared))
    ensures InRound(after, round, prepared[i].fileHash)
  {
    var batch, hash := DropDuplicates(files, round, prepared), prepared[i].fileHash;
    NothingLostNothingTwice(files, round, prepared, hash);
    if HasHash(batch, hash) {
      var j :| 0 <= j < |batch| && batch[j].fileHash == hash;
      assert after[|files| + j] in after;
    } else {
      var f := First(files, SameFile(round, hash)).value;
      var j :| 0 <= j < |files| && files[j] == f;
      assert after[j] in after;
    }
  }

  /** Every button, for every viewer who can open the page, in every reachable state. */
  lemma ButtonsMatchServer(w: World, viewer: UserId, r: Request, now: Moment)
    requires Inv(w) && w.store.Live? && MayOpen(w.store.db, viewer) && Askable(w.store.db, r, w.issued)
    ensures Offered(PageFor(w.store.db, viewer, now), r) <==> Succeeds(w.store.db, viewer, r, now)
  {
    var db, issued := w.store.db, w.issued;
    match r {
      case AcceptIt(o) => AcceptButton(db, issued, viewer, o, now);
      case RejectIt(o) => RejectButton(db, issued, viewer, o, now);
      case WithdrawIt(o) => WithdrawButton(db, issued, viewer, o, now);
      case SendOffer(_, _) => SendButton(db, issued, viewer, r, now);
      case Confirm(_) => ConfirmButton(db, issued, viewer, r, now);
      case Dispute(_) => DisputeButton(db, issued, viewer, r, now);
      case Delete => AccessAgrees(db, issued, viewer);
      case SendWork => SendWorkButton(db, issued, viewer, now);
      case _ => UploadButtons(db, issued, viewer, r, now);
    }
  }
}
