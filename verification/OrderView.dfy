/** What each viewer of an order gets. The projection decides alone on privacy; the pages
    recompute rights from it. */
module OrderView {
  import opened Collections
  import opened SharedRules
  import opened OrderStateMachine
  import opened OrderRecords
  import opened OrderTransitions
  import opened TransitionMeaning
  import opened OrderWorkflow
  import opened OrderProtocol
  import opened OrderInvariants
  import opened OfferSubmission
  import opened RealtimeEvents

  datatype OrderVisibility =
    OrderVisibility(isOwner: bool, ownOffer: Option<OfferRow>, executorOffer: Option<OfferRow>,
                    seesProgress: bool, isParty: bool)

  function ResolveVisibility(order: OrderRow, offers: seq<OfferRow>, viewer: UserId): OrderVisibility {
    var isOwner := order.clientId == viewer;
    var own := First(offers, OfCompany(viewer));
    OrderVisibility(isOwner, own, First(offers, Executes()),
                    isOwner || (own.Some? && IsActiveOffer(own.value.status)),
                    isOwner || (own.Some? && IsExecutorOffer(own.value.status)))
  }

  /** `contractor` stands for the executor company's name. */
  datatype OrderListItem =
    OrderListItem(id: Id, orderNumber: int, title: string, status: OrderStatus, clientBudget: Option<Money>,
                  price: Option<Money>, deadline: Option<Moment>, contractor: Option<UserId>, createdAt: Moment)

  function ToOrderListItem(order: OrderRow, offers: seq<OfferRow>, viewer: UserId): OrderListItem {
    var view := ResolveVisibility(order, offers, viewer);
    OrderListItem(order.id, order.card.orderNumber, order.card.title,
                  if view.seesProgress then order.status else Waiting,
                  order.card.clientBudget,
                  if view.seesProgress then order.price else None,
                  if view.seesProgress then order.deadline else None,
                  if view.isParty && view.executorOffer.Some? then Some(view.executorOffer.value.companyId) else None,
                  order.card.createdAt)
  }

  datatype SubmissionDto = SubmissionDto(round: nat, comment: string, submittedAt: Option<Moment>)

  /** `client` stands for the client's identity and contacts. */
  datatype OrderDetail =
    OrderDetail(item: OrderListItem, description: string, address: string, squareMeters: real,
                verifiedSquareMeters: Option<real>, completionComment: Option<string>,
                correctionComment: Option<string>, updatedAt: Moment, client: Option<UserId>,
                offers: seq<OfferRow>, files: seq<FileRow>, filesSizeBytes: Option<nat>,
                submissions: seq<SubmissionDto>, canSubmitOffer: bool)

  function ClientFiles(): FileRow -> bool {
    (f: FileRow) => f.ownerType.ClientFile?
  }

  function VisibleFiles(db: Db, view: OrderVisibility): seq<FileRow> {
    if view.isParty then db.files
    else if !CompanySeesTaskFiles(db.order.status, StatusOf(view.ownOffer)) then []
    else Filter(db.files, ClientFiles())
  }

  function StatusOf(offer: Option<OfferRow>): Option<OfferStatus> {
    if offer.Some? then Some(offer.value.status) else None
  }

  function VisibleOffers(db: Db, view: OrderVisibility): seq<OfferRow> {
    if view.isOwner then Filter(db.offers, ActiveOffers())
    else if view.ownOffer.Some? then [view.ownOffer.value] else []
  }

  function SubmissionDtos(s: seq<SubmissionRow>): (r: seq<SubmissionDto>)
    ensures |r| == |s|
    ensures forall i :: 0 <= i < |s| ==> r[i] == SubmissionDto(s[i].round, s[i].comment, s[i].submittedAt)
  {
    seq(|s|, i requires 0 <= i < |s| => SubmissionDto(s[i].round, s[i].comment, s[i].submittedAt))
  }

  function CanSubmitOffer(status: OrderStatus, view: OrderVisibility): bool {
    !view.isOwner &&
    CanTransition(status, OrderEventType.OfferSubmitted, StatusOf(view.ownOffer)) &&
    !(view.ownOffer.Some? && IsFinallyRejected(Some(view.ownOffer.value.status), view.ownOffer.value.rejectionCount))
  }

  function ToOrderDetail(db: Db, viewer: UserId): OrderDetail {
    var order, view := db.order, ResolveVisibility(db.order, db.offers, viewer);
    OrderDetail(ToOrderListItem(order, db.offers, viewer),
                order.card.description, order.card.address, order.card.squareMeters,
                if view.seesProgress then order.verifiedSquareMeters else None,
                if view.isParty then order.completionComment else None,
                if view.isParty then order.correctionComment else None,
                if view.seesProgress then order.updatedAt else order.card.createdAt,
                if view.isParty then Some(order.clientId) else None,
                VisibleOffers(db, view),
                VisibleFiles(db, view),
                if view.isParty then Some(SumSizes(db.files)) else None,
                if view.isParty then SubmissionDtos(db.submissions) else [],
                CanSubmitOffer(order.status, view))
  }

  // ------------------------------------------------- what a viewer gets

  /** Who sees the order's progress is exactly who takes part in it. */
  lemma SightIsParticipation(db: Db, viewer: UserId)
    requires UniqueOffers(db.offers)
    ensures ResolveVisibility(db.order, db.offers, viewer).seesProgress <==> IsParticipant(Live(db), viewer)
  {
    var own := First(db.offers, OfCompany(viewer));
    if own.Some? {
      var i :| 0 <= i < |db.offers| && db.offers[i] == own.value;
      forall j | 0 <= j < |db.offers| && db.offers[j].companyId == viewer ensures j == i {}
    } else {
      forall j | 0 <= j < |db.offers| ensures db.offers[j].companyId != viewer {
        assert db.offers[j] in db.offers;
      }
    }
  }

  /** The sides of the deal are the client and whoever holds it. */
  lemma PartiesHoldTheDeal(db: Db, viewer: UserId)
    requires UniqueOffers(db.offers) && DealOk(db)
    ensures ResolveVisibility(db.order, db.offers, viewer).isParty <==>
      (viewer == db.order.clientId || exists k :: HeldBy(db, k) && db.offers[k].companyId == viewer)
  {
    var own := First(db.offers, OfCompany(viewer));
    if own.Some? {
      var i :| 0 <= i < |db.offers| && db.offers[i] == own.value;
      OnlyExecutor(db, i);
      if IsExecutorOffer(own.value.status) {
        var k :| HeldBy(db, k);
        ExecutorIsUnique(db, k);
        assert HeldBy(db, k) && db.offers[k].companyId == viewer;
      }
    }
    if k :| HeldBy(db, k) && db.offers[k].companyId == viewer {
      TheOffer(db.offers, db.offers[k]);
    }
  }

  /** What every viewer gets. */
  ghost predicate PublicCard(d: OrderDetail, order: OrderRow) {
    d.item.id == order.id && d.item.orderNumber == order.card.orderNumber && d.item.title == order.card.title &&
    d.item.clientBudget == order.card.clientBudget && d.item.createdAt == order.card.createdAt &&
    d.description == order.card.description && d.address == order.card.address &&
    d.squareMeters == order.card.squareMeters
  }

  /** The order as it is. */
  ghost predicate TrueProgress(d: OrderDetail, order: OrderRow) {
    d.item.status == order.status && d.item.price == order.price && d.item.deadline == order.deadline &&
    d.verifiedSquareMeters == order.verifiedSquareMeters && d.updatedAt == order.updatedAt
  }

  /** The order as if nothing had happened since its creation. */
  ghost predicate MaskedProgress(d: OrderDetail, order: OrderRow) {
    d.item.status.Waiting? && d.item.price.None? && d.item.deadline.None? &&
    d.verifiedSquareMeters.None? && d.updatedAt == order.card.createdAt
  }

  /** The client, both comments, all files with their sum, and the rounds. */
  ghost predicate DealInside(d: OrderDetail, db: Db) {
    d.client == Some(db.order.clientId) &&
    d.completionComment == db.order.completionComment && d.correctionComment == db.order.correctionComment &&
    d.files == db.files && d.filesSizeBytes == Some(SumSizes(db.files)) &&
    |d.submissions| == |db.submissions| &&
    forall i :: 0 <= i < |db.submissions| ==>
      d.submissions[i].round == db.submissions[i].round && d.submissions[i].comment == db.submissions[i].comment &&
      d.submissions[i].submittedAt == db.submissions[i].submittedAt
  }

  ghost predicate DealOutside(d: OrderDetail) {
    d.client.None? && d.item.contractor.None? && d.completionComment.None? && d.correctionComment.None? &&
    d.filesSizeBytes.None? && d.submissions == []
  }

  /** Participants get the order as it is and others the masked one; the sides of the deal get
      its inside and others nothing of it. */
  lemma CardShows(db: Db, viewer: UserId)
    requires UniqueOffers(db.offers) && DealOk(db)
    ensures var d := ToOrderDetail(db, viewer);
      PublicCard(d, db.order) &&
      (if IsParticipant(Live(db), viewer) then TrueProgress(d, db.order) else MaskedProgress(d, db.order)) &&
      (if viewer == db.order.clientId || exists k :: HeldBy(db, k) && db.offers[k].companyId == viewer
       then DealInside(d, db) else DealOutside(d))
  {
    SightIsParticipation(db, viewer);
    PartiesHoldTheDeal(db, viewer);
  }

  /** Client and executor read the accepted offer's own terms, on the card and in a list row. */
  lemma DealTermsShown(db: Db, viewer: UserId, k: int)
    requires UniqueOffers(db.offers) && HeldBy(db, k)
    requires viewer == db.order.clientId || viewer == db.offers[k].companyId
    ensures var item := ToOrderDetail(db, viewer).item;
      item == ToOrderListItem(db.order, db.offers, viewer) &&
      item.status == db.order.status && item.price == Some(db.offers[k].proposedPrice) &&
      item.deadline == Some(db.offers[k].proposedDeadline) && item.contractor == Some(db.offers[k].companyId)
  {
    ExecutorIsUnique(db, k);
    TheOffer(db.offers, db.offers[k]);
  }

  /** The files of a viewer outside the deal: the task, while offers are taken. */
  lemma TaskFilesShown(db: Db, viewer: UserId)
    requires UniqueOffers(db.offers) && DealOk(db)
    requires viewer != db.order.clientId && forall k :: HeldBy(db, k) ==> db.offers[k].companyId != viewer
    ensures var files := ToOrderDetail(db, viewer).files;
      forall f :: f in files <==> f in db.files && f.ownerType.ClientFile? && AcceptsOffers(db.order.status)
  {
    PartiesHoldTheDeal(db, viewer);
  }

  /** The owner is shown exactly the offers still in play, a company its own in any status. */
  lemma OffersShown(db: Db, viewer: UserId)
    ensures var offers := ToOrderDetail(db, viewer).offers;
      if viewer == db.order.clientId then forall o :: o in offers <==> o in db.offers && IsActiveOffer(o.status)
      else |offers| <= 1 && ((exists o :: o in db.offers && o.companyId == viewer) ==> |offers| == 1) &&
           forall o :: o in offers ==> o in db.offers && o.companyId == viewer
  {
  }

  // ------------------------------------------------------------ privacy

  /** Two orders a company without a deal has no right to tell apart: same public card, same
      own offer, both taking offers or neither, same task files while they do. With an offer
      still pending it may see the status, the deal terms and the area as well. */
  ghost predicate AlikeFor(d: Db, e: Db, viewer: UserId) {
    d.order.id == e.order.id && d.order.card == e.order.card &&
    First(d.offers, OfCompany(viewer)) == First(e.offers, OfCompany(viewer)) &&
    AcceptsOffers(d.order.status) == AcceptsOffers(e.order.status) &&
    (AcceptsOffers(d.order.status) ==> Filter(d.files, ClientFiles()) == Filter(e.files, ClientFiles())) &&
    (ResolveVisibility(d.order, d.offers, viewer).seesProgress ==>
      d.order.status == e.order.status && d.order.price == e.order.price && d.order.deadline == e.order.deadline &&
      d.order.verifiedSquareMeters == e.order.verifiedSquareMeters && d.order.updatedAt == e.order.updatedAt)
  }

  /** Whatever else differs (the real status, price, rounds, comments, sizes, other offers,
      the client), such a viewer gets identical output. */
  lemma StrangersCannotTellApart(d: Db, e: Db, viewer: UserId)
    requires AlikeFor(d, e, viewer)
    requires !ResolveVisibility(d.order, d.offers, viewer).isParty && !ResolveVisibility(e.order, e.offers, viewer).isParty
    ensures ToOrderDetail(d, viewer) == ToOrderDetail(e, viewer)
  {
  }

  /** A company never gets another company's offer, as executor neither. */
  lemma CompaniesSeeTheirOwnOffer(db: Db, viewer: UserId)
    requires db.order.clientId != viewer
    ensures forall o :: o in ToOrderDetail(db, viewer).offers ==> o in db.offers && o.companyId == viewer
  {
  }

  /** The name of the contractor is shown to the two sides of the deal only, and is right. */
  lemma ContractorIsExecutor(db: Db, viewer: UserId, k: int)
    requires HeldBy(db, k) && UniqueOffers(db.offers)
    ensures var shown := ToOrderDetail(db, viewer).item.contractor;
      shown == (if viewer == db.order.clientId || viewer == db.offers[k].companyId then Some(db.offers[k].companyId) else None)
  {
    ExecutorIsUnique(db, k);
    TheOffer(db.offers, db.offers[k]);
    var own := First(db.offers, OfCompany(viewer));
    if own.Some? && IsExecutorOffer(own.value.status) {
      assert own.value == db.offers[k];
    }
  }

  /** The client's list reads the executor's offer only, and the row comes out as from all. */
  lemma ExecutorOfferSuffices(db: Db, executor: OfferRow)
    requires First(db.offers, Executes()) == Some(executor)
    requires forall o :: o in db.offers ==> o.companyId != db.order.clientId
    ensures var item := ToOrderListItem(db.order, [executor], db.order.clientId);
      item == ToOrderListItem(db.order, db.offers, db.order.clientId) &&
      item.status == db.order.status && item.price == db.order.price && item.deadline == db.order.deadline &&
      item.contractor == Some(executor.companyId)
  {
  }

  /** A company's lists read its own offer only, and the row comes out as from all: when it is
      the executor there is no other, and otherwise the contractor is not shown. */
  lemma OwnOfferSuffices(db: Db, company: UserId)
    requires UniqueOffers(db.offers) && DealOk(db) && company != db.order.clientId
    ensures var item := ToOrderListItem(db.order, Filter(db.offers, OfCompany(company)), company);
      item == ToOrderListItem(db.order, db.offers, company) &&
      (if IsParticipant(Live(db), company)
       then item.status == db.order.status && item.price == db.order.price && item.deadline == db.order.deadline
       else item.status.Waiting? && item.price.None? && item.deadline.None? && item.contractor.None?)
  {
    SightIsParticipation(db, company);
    var own := First(db.offers, OfCompany(company));
    if own.Some? {
      var i :| 0 <= i < |db.offers| && db.offers[i] == own.value;
      FilterOne(db.offers, OfCompany(company), i);
      OnlyExecutor(db, i);
      assert First([own.value], OfCompany(company)) == own;
      assert IsExecutorOffer(own.value.status) ==> First([own.value], Executes()) == own;
    } else {
      FilterNone(db.offers, OfCompany(company));
    }
  }

  lemma OnlyExecutor(db: Db, i: nat)
    requires DealOk(db) && i < |db.offers|
    ensures IsExecutorOffer(db.offers[i].status) ==> First(db.offers, Executes()) == Some(db.offers[i])
  {
    if IsExecutorOffer(db.offers[i].status) {
      assert !AcceptsOffers(db.order.status);
      var k :| HeldBy(db, k);
      ExecutorIsUnique(db, k);
    }
  }

  // --------------------------------------------------------------- feed

  predicate OwnOfferIs(db: Db, company: UserId, p: OfferRow -> bool) {
    exists i | 0 <= i < |db.offers| :: db.offers[i].companyId == company && p(db.offers[i])
  }

  /** The condition of the feed of available orders. */
  predicate InFeed(db: Db, company: UserId) {
    AcceptsOffers(db.order.status) &&
    (!OwnOfferIs(db, company, _ => true) ||
     OwnOfferIs(db, company, (o: OfferRow) => o.status.Withdrawn?) ||
     OwnOfferIs(db, company, (o: OfferRow) => o.status.Rejected? && o.rejectionCount < MAX_OFFER_REJECTIONS))
  }

  /** With one offer per company the condition is about that offer. */
  lemma FeedMeans(db: Db, company: UserId)
    requires UniqueOffers(db.offers)
    ensures var own := First(db.offers, OfCompany(company));
      InFeed(db, company) <==>
        (AcceptsOffers(db.order.status) && (own.None? || CanResubmitOffer(own.value.status, own.value.rejectionCount)))
  {
    var own := First(db.offers, OfCompany(company));
    if own.Some? {
      var i :| 0 <= i < |db.offers| && db.offers[i] == own.value;
      forall j | 0 <= j < |db.offers| && db.offers[j].companyId == company ensures j == i {}
    } else {
      forall j | 0 <= j < |db.offers| ensures db.offers[j].companyId != company {
        assert db.offers[j] in db.offers;
      }
    }
  }

  /** The card offers to send exactly to whom the server would let send, and never to the owner. */
  lemma PageMeans(db: Db, viewer: UserId)
    ensures ToOrderDetail(db, viewer).canSubmitOffer <==>
      (viewer != db.order.clientId && AcceptsOffers(db.order.status) && MaySend(First(db.offers, OfCompany(viewer))))
  {
  }

  /** The feed, the page and the server agree: an order is in the feed exactly when sending an
      offer would succeed and no own offer is pending, which is what the page offers. */
  lemma FeedAgrees(db: Db, company: UserId, terms: OfferTerms, newId: Id, now: Moment)
    requires UniqueOffers(db.offers) && NoDuplicateUnread(db.notes) && company != db.order.clientId
    requires forall i :: 0 <= i < |db.offers| ==> db.offers[i].id != newId
    ensures var own, sends := First(db.offers, OfCompany(company)), SubmitOfferTx(db, company, terms, newId, now).Ok?;
      (InFeed(db, company) <==> sends && !(own.Some? && IsPendingOffer(own.value.status))) &&
      (ToOrderDetail(db, company).canSubmitOffer <==> sends) &&
      (own.Some? ==> (InFeed(db, company) <==>
        AcceptsOffers(db.order.status) && CanResubmitOffer(own.value.status, own.value.rejectionCount)))
  {
    var k := SubmitMeans(db, company, terms, newId, now);
    FeedMeans(db, company);
    PageMeans(db, company);
  }
}
