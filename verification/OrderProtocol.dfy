/** The deal of one order as a step system. A world is the order's rows, the uploads under
    way between their transactions, the log of committed transitions and the identifiers
    already given out. Every database transaction is one step, in any interleaving. */
module OrderProtocol {
  import opened Collections
  import opened SharedRules
  import opened OrderStateMachine
  import opened OrderRecords
  import opened OrderTransitions
  import opened TransitionMeaning
  import opened OrderWorkflow

  /** An `addFiles` request between its transactions; `batch` is known once duplicates are dropped. */
  datatype Upload = Upload(submissionId: Id, round: nat, comment: string,
                           prepared: seq<PreparedFile>, batch: Option<seq<PreparedFile>>)

  datatype LogEntry = LogEntry(event: OrderEventType, offerId: Id)

  datatype World = World(store: Store, uploads: map<Id, Upload>, log: seq<LogEntry>, issued: set<Id>)

  datatype Action =
    | OfferAction(companyId: UserId, terms: OfferTerms, newId: Id, now: Moment)
    | CommandAction(command: TransitionCommand, now: Moment)
    | SubmitWorkAction(now: Moment)
    | OpenUpload(request: Id, comment: string, prepared: seq<PreparedFile>, newId: Id)
    | DropDuplicatesOf(request: Id)
    | InsertFiles(request: Id, elsewhere: UsageElsewhere)
    | SaveCommentOnly(request: Id)
    | AbandonUpload(request: Id)
    | AttachTaskFiles(files: seq<PreparedFile>, elsewhere: UsageElsewhere)
    | VerifyArea(area: real, now: Moment)
    | DeleteOrder
    | DemoReset(demo: set<UserId>)
    | MarkRead(index: nat)

  /** What the environment guarantees: only companies send offers, identifiers are new, a
      request goes through its phases in order, the demo's own orders are another matter. */
  predicate Enabled(w: World, a: Action) {
    match a
    case OfferAction(companyId, _, newId, _) => companyId.role.Company? && newId !in w.issued
    case CommandAction(command, _) => !command.SubmitOffer? && !command.SubmitWork?
    case OpenUpload(request, _, _, newId) => request !in w.uploads && newId !in w.issued
    case DropDuplicatesOf(request) => request in w.uploads
    case InsertFiles(request, _) =>
      request in w.uploads && w.uploads[request].batch.Some? && w.uploads[request].batch.value != []
    case SaveCommentOnly(request) => request in w.uploads && w.uploads[request].batch == Some([])
    case DemoReset(demo) => w.store.Live? ==> w.store.db.order.clientId !in demo
    case _ => true
  }

  function Without(uploads: map<Id, Upload>, request: Id): map<Id, Upload> {
    uploads - {request}
  }

  function AfterTransition(w: World, r: Result<AppliedTransition, Refusal>, event: OrderEventType): World {
    if r.Err? then w
    else w.(store := Live(r.value.db), log := w.log + [LogEntry(event, r.value.offerId)])
  }

  function AfterWrite(w: World, r: Result<Db, Refusal>): World {
    if r.Err? then w else w.(store := Live(r.value))
  }

  function AfterOpening(w: World, r: Result<OpenedSubmission, Refusal>, a: Action): World
    requires a.OpenUpload?
  {
    if r.Err? then w
    else
      var upload := Upload(r.value.id, r.value.round, a.comment, a.prepared, None);
      w.(store := Live(r.value.db), issued := w.issued + {a.newId}, uploads := w.uploads[a.request := upload])
  }

  function MarkedRead(notes: seq<NotificationRow>, index: nat): seq<NotificationRow> {
    if index < |notes| then notes[index := notes[index].(isRead := true)] else notes
  }

  /** One step. A refused transaction changes no row. */
  function Next(w: World, a: Action): World
    requires Enabled(w, a)
  {
    match w.store
    case Deleted(notes) =>
      (match a
       case MarkRead(index) => w.(store := Deleted(MarkedRead(notes, index)))
       case InsertFiles(request, _) => w.(uploads := Without(w.uploads, request))
       case SaveCommentOnly(request) => w.(uploads := Without(w.uploads, request))
       case AbandonUpload(request) => w.(uploads := Without(w.uploads, request))
       case _ => w)
    case Live(db) =>
      match a
      case OfferAction(companyId, terms, newId, now) =>
        AfterTransition(w, SubmitOfferTx(db, companyId, terms, newId, now), OrderEventType.OfferSubmitted)
          .(issued := w.issued + {newId})
      case CommandAction(command, now) => AfterTransition(w, Transact(db, command, now), EventOf(command))
      case SubmitWorkAction(now) => AfterTransition(w, SubmitWorkTx(db, now), OrderEventType.WorkSubmitted)
      case OpenUpload(_, comment, _, newId) =>
        AfterOpening(w, OpenSubmissionTx(db, comment, newId), a)
      case DropDuplicatesOf(request) =>
        var u := w.uploads[request];
        w.(uploads := w.uploads[request := u.(batch := Some(DropDuplicates(db.files, u.round, u.prepared)))])
      case InsertFiles(request, elsewhere) =>
        var u := w.uploads[request];
        AfterWrite(w, InsertFilesTx(db, u.submissionId, u.round, u.comment, u.batch.value, elsewhere))
          .(uploads := Without(w.uploads, request))
      case SaveCommentOnly(request) =>
        var u := w.uploads[request];
        AfterWrite(w, SaveCommentTx(db, u.submissionId, u.comment)).(uploads := Without(w.uploads, request))
      case AbandonUpload(request) => w.(uploads := Without(w.uploads, request))
      case AttachTaskFiles(files, elsewhere) => AfterWrite(w, AttachTaskFilesTx(db, files, elsewhere))
      case VerifyArea(area, now) => AfterWrite(w, VerifyAreaTx(db, area, now))
      case DeleteOrder =>
        (match DeleteTx(db)
         case Err(_) => w
         case Ok(store) => w.(store := store))
      case DemoReset(demo) => w.(store := Live(DemoResetTx(db, demo)))
      case MarkRead(index) => w.(store := Live(db.(notes := MarkedRead(db.notes, index))))
  }

  // ---------------------------------------------------------- invariants

  /** The executor's offer status while the order is in work or done. */
  function ExecutorStatus(status: OrderStatus): OfferStatus {
    match status
    case InProgress => Accepted
    case AwaitingCompletionConfirmation => OfferStatus.WorkSubmitted
    case CompletionDisputed => BackForOverride
    case _ => OfferStatus.Completed
  }

  predicate LeftByChoice(status: OfferStatus) {
    status.Withdrawn? || status.Rejected?
  }

  /** Offer `i` is the executor's, every other offer is out, and the deal carries its terms. */
  ghost predicate HeldBy(db: Db, i: int) {
    0 <= i < |db.offers| &&
    !AcceptsOffers(db.order.status) &&
    db.offers[i].status == ExecutorStatus(db.order.status) &&
    (forall j :: 0 <= j < |db.offers| && j != i ==>
      LeftByChoice(db.offers[j].status) || db.offers[j].status.NotAccepted?) &&
    db.order.price == Some(db.offers[i].proposedPrice) &&
    db.order.deadline == Some(db.offers[i].proposedDeadline)
  }

  /** Order and offers move in lockstep, and the deal terms exist exactly after acceptance. */
  ghost predicate DealOk(db: Db) {
    if AcceptsOffers(db.order.status) then
      db.order.price.None? && db.order.deadline.None? &&
      (forall j :: 0 <= j < |db.offers| ==>
        LeftByChoice(db.offers[j].status) || (db.order.status.AwaitingConfirmation? && db.offers[j].status.Sent?)) &&
      (db.order.status.AwaitingConfirmation? ==>
        exists j :: 0 <= j < |db.offers| && db.offers[j].status.Sent?)
    else
      exists i :: HeldBy(db, i)
  }

  ghost predicate OffersOk(db: Db, issued: set<Id>) {
    db.order.clientId.role.Client? &&
    UniqueOffers(db.offers) &&
    forall i :: 0 <= i < |db.offers| ==> db.offers[i].companyId.role.Company? && db.offers[i].id in issued
  }

  function Disputes(log: seq<LogEntry>): nat {
    if log == [] then 0
    else Disputes(log[..|log| - 1]) + (if log[|log| - 1].event.WorkDisputed? then 1 else 0)
  }

  function Rejections(log: seq<LogEntry>, id: Id): nat {
    if log == [] then 0
    else
      var last := log[|log| - 1];
      Rejections(log[..|log| - 1], id) + (if last.event.OfferRejected? && last.offerId == id then 1 else 0)
  }

  predicate LastOpen(s: seq<SubmissionRow>) {
    s != [] && s[|s| - 1].submittedAt.None?
  }

  function ClosedRounds(s: seq<SubmissionRow>): nat {
    if LastOpen(s) then |s| - 1 else |s|
  }

  predicate WorkHandedOver(status: OrderStatus) {
    status.AwaitingCompletionConfirmation? || status == OrderStatus.Completed
  }

  ghost predicate Numbered(s: seq<SubmissionRow>, issued: set<Id>) {
    (forall i :: 0 <= i < |s| ==> s[i].round == i + 1 && s[i].id in issued) &&
    (forall i, j :: 0 <= i < j < |s| ==> s[i].id != s[j].id) &&
    (forall i :: 0 <= i < |s| - 1 ==> s[i].submittedAt.Some?)
  }

  /** Rounds are 1..n; only the last can be open, and only while work may be uploaded; the
      closed ones count the disputes. */
  ghost predicate RoundsOk(db: Db, log: seq<LogEntry>, issued: set<Id>) {
    Numbered(db.submissions, issued) &&
    (LastOpen(db.submissions) ==> CanUploadWork(db.order.status)) &&
    (AcceptsOffers(db.order.status) ==> db.submissions == []) &&
    ClosedRounds(db.submissions) == Disputes(log) + (if WorkHandedOver(db.order.status) then 1 else 0)
  }

  /** Files sit in an existing round, once per content; a closed round is not empty. */
  ghost predicate FilesOk(db: Db) {
    (forall i :: 0 <= i < |db.files| ==>
      if db.files[i].ownerType.ClientFile? then db.files[i].submissionRound == 0
      else 1 <= db.files[i].submissionRound <= |db.submissions|) &&
    NoSameFile(db.files) &&
    (forall i :: 0 <= i < |db.submissions| && db.submissions[i].submittedAt.Some? ==>
      FilesOfRound(db.files, i + 1) != []) &&
    SumSizes(db.files) <= MAX_ORDER_FILES_BYTES
  }

  ghost predicate NoSameFile(files: seq<FileRow>) {
    forall i, j :: 0 <= i < j < |files| ==>
      !(files[i].submissionRound == files[j].submissionRound && files[i].fileHash == files[j].fileHash)
  }

  /** Every upload aims at the row and the number of one round. */
  ghost predicate UploadsOk(db: Db, uploads: map<Id, Upload>) {
    forall r :: r in uploads ==> AimsAtRound(db, uploads[r])
  }

  ghost predicate AimsAtRound(db: Db, u: Upload) {
    1 <= u.round <= |db.submissions| && db.submissions[u.round - 1].id == u.submissionId
  }

  /** The stored counter is the number of the client's refusals, and the last one is final. */
  ghost predicate BudgetOk(offers: seq<OfferRow>, log: seq<LogEntry>, issued: set<Id>) {
    (forall i :: 0 <= i < |offers| ==>
      offers[i].rejectionCount == Rejections(log, offers[i].id) &&
      offers[i].rejectionCount <= MAX_OFFER_REJECTIONS &&
      (offers[i].rejectionCount == MAX_OFFER_REJECTIONS ==> offers[i].status.Rejected?)) &&
    (forall id :: id !in issued ==> Rejections(log, id) == 0)
  }

  ghost predicate LiveOk(db: Db, w: World) {
    OffersOk(db, w.issued) && DealOk(db) && RoundsOk(db, w.log, w.issued) && FilesOk(db) &&
    UploadsOk(db, w.uploads) && BudgetOk(db.offers, w.log, w.issued) && NoDuplicateUnread(db.notes)
  }

  ghost predicate Inv(w: World) {
    match w.store
    case Live(db) => LiveOk(db, w)
    case Deleted(notes) => NoDuplicateUnread(notes)
  }

  /** A new order: waiting, no deal, nothing attached yet. */
  ghost predicate Init(w: World) {
    w.store.Live? &&
    var db := w.store.db;
    db.order.clientId.role.Client? && db.order.status.Waiting? && db.order.price.None? && db.order.deadline.None? &&
    db.offers == [] && db.submissions == [] && db.files == [] && db.notes == [] &&
    w.uploads == map[] && w.log == []
  }

  // ------------------------------------------- what every step preserves

  predicate FinalRefusal(o: OfferRow) {
    IsFinallyRejected(Some(o.status), o.rejectionCount)
  }

  /** A submitted round keeps its row, its comment and its files. */
  ghost predicate ClosedRoundsKept(d: Db, e: Db) {
    |d.submissions| <= |e.submissions| &&
    forall i :: 0 <= i < |d.submissions| && d.submissions[i].submittedAt.Some? ==>
      e.submissions[i] == d.submissions[i] && FilesOfRound(e.files, i + 1) == FilesOfRound(d.files, i + 1)
  }

  /** The executor and its terms never change; losing offers are frozen (or removed). */
  ghost predicate DealKept(d: Db, e: Db) {
    forall i :: HeldBy(d, i) ==> exists j :: HeldBy(e, j) && SameDeal(d, i, e, j)
  }

  ghost predicate SameDeal(d: Db, i: nat, e: Db, j: nat)
    requires i < |d.offers| && j < |e.offers|
  {
    var before, after := d.offers[i], e.offers[j];
    after.(status := before.status) == before &&
    e.order.price == d.order.price && e.order.deadline == d.order.deadline &&
    forall o :: o in e.offers && o.id != after.id ==> o in d.offers
  }

  /** An offer refused for the last time keeps its row unchanged. */
  ghost predicate FinalRefusalsKept(d: Db, e: Db) {
    forall o, p :: o in d.offers && FinalRefusal(o) && p in e.offers && p.id == o.id ==> p == o
  }

  ghost predicate HasOffer(offers: seq<OfferRow>, id: Id) {
    exists i :: 0 <= i < |offers| && offers[i].id == id
  }

  ghost predicate IdsNotReused(d: Db, e: Db, issued: set<Id>) {
    forall p :: p in e.offers && p.id in issued ==> HasOffer(d.offers, p.id)
  }

  ghost predicate LiveAdvances(d: Db, e: Db, issued: set<Id>) {
    e.order.id == d.order.id && e.order.clientId == d.order.clientId && e.order.card == d.order.card &&
    ClosedRoundsKept(d, e) && DealKept(d, e) && FinalRefusalsKept(d, e) && IdsNotReused(d, e, issued)
  }

  ghost predicate Advances(v: World, w: World) {
    v.issued <= w.issued &&
    match v.store
    case Deleted(_) => w.store.Deleted?
    case Live(d) =>
      match w.store
      case Deleted(_) => AcceptsOffers(d.order.status)
      case Live(e) => LiveAdvances(d, e, v.issued)
  }
}
