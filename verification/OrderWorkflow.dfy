/** The transactions around a transition: offer upsert, work submission, the two halves of a
    file upload, area check, deletion, and the demo reset's clean-up of inactive offers.
    Each is one atomic step on the rows; an error leaves them as they were. */
module OrderWorkflow {
  import opened Collections
  import opened SharedRules
  import opened OrderStateMachine
  import opened OrderRecords
  import opened OrderTransitions
  import opened FileQuota

  // ------------------------------------------------------------- offers

  datatype OfferTerms = OfferTerms(price: Money, deadline: Moment, comment: Option<string>)

  /** Rewriting an existing row marks it as edited; a new row is not edited. */
  function Rewritten(o: OfferRow, terms: OfferTerms, now: Moment): OfferRow {
    o.(status := Sent, proposedPrice := terms.price, proposedDeadline := terms.deadline,
       comment := terms.comment, editedAt := Some(now))
  }

  function NewOffer(id: Id, companyId: UserId, terms: OfferTerms): OfferRow {
    OfferRow(id, companyId, Sent, terms.price, terms.deadline, terms.comment, None, 0)
  }

  function Upsert(offers: seq<OfferRow>, companyId: UserId, terms: OfferTerms, freshId: Id, now: Moment)
    : (r: seq<OfferRow>)
  {
    if First(offers, OfCompany(companyId)).None? then offers + [NewOffer(freshId, companyId, terms)]
    else seq(|offers|, i requires 0 <= i < |offers| =>
           if offers[i].companyId == companyId then Rewritten(offers[i], terms, now) else offers[i])
  }

  /** `OffersService.submit`: the upsert and the transition are one commit, and the status
      checked by the machine is the one read before the upsert. */
  function SubmitOfferTx(db: Db, companyId: UserId, terms: OfferTerms, freshId: Id, now: Moment)
    : Result<AppliedTransition, Refusal>
  {
    var existing := First(db.offers, OfCompany(companyId));
    var before := if existing.Some? then Some(existing.value.status) else None;
    var offerId := if existing.Some? then existing.value.id else freshId;
    Transact(db.(offers := Upsert(db.offers, companyId, terms, freshId, now)), SubmitOffer(offerId, before), now)
  }

  // -------------------------------------------------------- submissions

  function Open(): SubmissionRow -> bool {
    (s: SubmissionRow) => s.submittedAt.None?
  }

  function OpenWithId(id: Id): SubmissionRow -> bool {
    (s: SubmissionRow) => s.id == id && s.submittedAt.None?
  }

  /** The row of `s` with the greatest round: `orderBy: { round: 'desc' }` and take one. */
  function Latest(s: seq<SubmissionRow>): (r: Option<SubmissionRow>)
    ensures r.None? <==> s == []
    ensures r.Some? ==> r.value in s && forall x :: x in s ==> x.round <= r.value.round
  {
    if s == [] then None
    else
      var rest := Latest(s[1..]);
      if rest.None? || s[0].round >= rest.value.round then Some(s[0]) else rest
  }

  function FindOpenSubmission(db: Db): Option<SubmissionRow> {
    Latest(Filter(db.submissions, Open()))
  }

  function UpdateSubmission(s: seq<SubmissionRow>, id: Id, submittedAt: Option<Moment>, comment: Option<string>)
    : (r: seq<SubmissionRow>)
    ensures |r| == |s|
    ensures forall i :: 0 <= i < |s| && s[i].id != id ==> r[i] == s[i]
    ensures forall i :: 0 <= i < |s| && s[i].id == id ==>
      r[i].id == id && r[i].round == s[i].round &&
      r[i].submittedAt == (if submittedAt.Some? then submittedAt else s[i].submittedAt) &&
      r[i].comment == (if comment.Some? then comment.value else s[i].comment)
  {
    seq(|s|, i requires 0 <= i < |s| =>
      if s[i].id != id then s[i]
      else s[i].(submittedAt := if submittedAt.Some? then submittedAt else s[i].submittedAt,
                 comment := if comment.Some? then comment.value else s[i].comment))
  }

  /** `submitWork`: the transition comes first, then "nothing to submit", then the round closes. */
  function SubmitWorkTx(db: Db, now: Moment): Result<AppliedTransition, Refusal> {
    var open := FindOpenSubmission(db);
    match Transact(db, SubmitWork, now)
    case Err(e) => Err(e)
    case Ok(a) =>
      if open.None? || |FilesOfRound(db.files, open.value.round)| == 0 then Err(NothingToSubmit)
      else Ok(a.(db := a.db.(submissions :=
                   UpdateSubmission(a.db.submissions, open.value.id, Some(now), None))))
  }

  datatype OpenedSubmission = OpenedSubmission(db: Db, id: Id, round: nat)

  /** First transaction of `addFiles`: the open round, or a new one after the last. */
  function OpenSubmissionTx(db: Db, comment: string, freshId: Id): Result<OpenedSubmission, Refusal> {
    if !CanUploadWork(db.order.status) then Err(UploadForbidden)
    else
      match FindOpenSubmission(db)
      case Some(open) => Ok(OpenedSubmission(db, open.id, open.round))
      case None =>
        var last := Latest(db.submissions);
        var round := (if last.Some? then last.value.round else 0) + 1;
        Ok(OpenedSubmission(db.(submissions := db.submissions + [SubmissionRow(freshId, round, comment, None)]),
                            freshId, round))
  }

  /** The guard of the second transaction: order and round must still be open. */
  function SaveCommentTx(db: Db, submissionId: Id, comment: string): Result<Db, Refusal> {
    if !CanUploadWork(db.order.status) then Err(UploadForbidden)
    else
      match First(db.submissions, OpenWithId(submissionId))
      case None => Err(SubmissionAlreadySent)
      case Some(open) =>
        if open.comment == comment then Ok(db)
        else Ok(db.(submissions := UpdateSubmission(db.submissions, submissionId, None, Some(comment))))
  }

  // --------------------------------------------------------------- files

  datatype PreparedFile = PreparedFile(fileHash: int, sizeBytes: nat)

  function SameFile(round: nat, hash: int): FileRow -> bool {
    (f: FileRow) => f.submissionRound == round && f.fileHash == hash
  }

  function RowOf(owner: FileOwnerType, round: nat, file: PreparedFile): FileRow {
    FileRow(owner, round, file.fileHash, file.sizeBytes)
  }

  /** The rows `createMany` with `skipDuplicates` creates over `files`. */
  function CreatedRows(files: seq<FileRow>, owner: FileOwnerType, round: nat, batch: seq<PreparedFile>)
    : (r: seq<FileRow>)
    ensures forall f :: f in r ==> f.ownerType == owner && f.submissionRound == round
  {
    if batch == [] then []
    else
      var n := |batch| - 1;
      var rest := CreatedRows(files, owner, round, batch[..n]);
      if First(files + rest, SameFile(round, batch[n].fileHash)).Some? then rest
      else rest + [RowOf(owner, round, batch[n])]
  }

  function SumPrepared(files: seq<PreparedFile>): nat {
    if files == [] then 0
    else SumPrepared(files[..|files| - 1]) + files[|files| - 1].sizeBytes
  }

  predicate HasHash(files: seq<PreparedFile>, hash: int) {
    exists i | 0 <= i < |files| :: files[i].fileHash == hash
  }

  /** First copies only: the user keeps the name the file was first attached under. */
  function UniqueInBatch(prepared: seq<PreparedFile>): seq<PreparedFile> {
    if prepared == [] then []
    else
      var n := |prepared| - 1;
      var rest := UniqueInBatch(prepared[..n]);
      if HasHash(rest, prepared[n].fileHash) then rest else rest + [prepared[n]]
  }

  function Unknown(files: seq<FileRow>, round: nat): PreparedFile -> bool {
    (p: PreparedFile) => First(files, SameFile(round, p.fileHash)).None?
  }

  /** What the batch brings that the round does not hold yet. */
  function DropDuplicates(files: seq<FileRow>, round: nat, prepared: seq<PreparedFile>): seq<PreparedFile> {
    Filter(UniqueInBatch(prepared), Unknown(files, round))
  }

  /** Bytes held by the client's other orders and by everyone else's. */
  datatype UsageElsewhere = UsageElsewhere(client: nat, total: nat)

  predicate FitsQuota(db: Db, elsewhere: UsageElsewhere, incoming: nat) {
    var order := SumSizes(db.files);
    CheckStorageQuota(StorageUsage(order, order + elsewhere.client, order + elsewhere.total), incoming).None?
  }

  function FilesUpdatedNotice(order: OrderRow): NotificationRow {
    NotificationRow(order.clientId, NotificationType.FilesUpdated, Some(OrderFilesKey(order.id)), false)
  }

  /** Second transaction of `addFiles`: guard and comment, final quota check, rows, notification. */
  function InsertFilesTx(db: Db, submissionId: Id, round: nat, comment: string, batch: seq<PreparedFile>,
                         elsewhere: UsageElsewhere): Result<Db, Refusal> {
    match SaveCommentTx(db, submissionId, comment)
    case Err(e) => Err(e)
    case Ok(saved) => StoreFilesTx(saved, round, batch, elsewhere)
  }

  function StoreFilesTx(db: Db, round: nat, batch: seq<PreparedFile>, elsewhere: UsageElsewhere): Result<Db, Refusal> {
    if !FitsQuota(db, elsewhere, SumPrepared(batch)) then Err(OverQuota)
    else
      var created := CreatedRows(db.files, CompanyFile, round, batch);
      if created == [] then Ok(db)
      else Ok(db.(files := db.files + created, notes := Replace(db.notes, [FilesUpdatedNotice(db.order)])))
  }

  /** Task files of a new order: round 0, no guard, no notification. */
  function AttachTaskFilesTx(db: Db, batch: seq<PreparedFile>, elsewhere: UsageElsewhere): Result<Db, Refusal> {
    if !FitsQuota(db, elsewhere, SumPrepared(batch)) then Err(OverQuota)
    else Ok(db.(files := db.files + CreatedRows(db.files, ClientFile, 0, batch)))
  }

  // ------------------------------------------------ area, deletion, reset

  function AreaNotice(order: OrderRow): NotificationRow {
    NotificationRow(order.clientId, NotificationType.AreaVerified, Some(OrderAreaKey(order.id)), false)
  }

  function VerifyAreaTx(db: Db, area: real, now: Moment): Result<Db, Refusal> {
    if !CanVerifyArea(db.order.status) then Err(AreaForbidden)
    else if db.order.verifiedSquareMeters == Some(area) then Ok(db)
    else
      Ok(db.(order := db.order.(verifiedSquareMeters := Some(area), updatedAt := now),
             notes := Replace(db.notes, [AreaNotice(db.order)])))
  }

  function ActiveOffers(): OfferRow -> bool {
    (o: OfferRow) => IsActiveOffer(o.status)
  }

  function DeletedNotices(offers: seq<OfferRow>): (r: seq<NotificationRow>)
    ensures |r| == |offers|
    ensures forall i :: 0 <= i < |r| ==>
      r[i] == NotificationRow(offers[i].companyId, NotificationType.OrderDeleted, None, false)
  {
    seq(|offers|, i requires 0 <= i < |offers| =>
      NotificationRow(offers[i].companyId, NotificationType.OrderDeleted, None, false))
  }

  /** `deleteWithNotices`: only before work begins; every company still in play is told. */
  function DeleteTx(db: Db): Result<Store, Refusal> {
    if !CanDeleteOrder(db.order.status) then Err(OrderNotDeletable)
    else Ok(Deleted(db.notes + DeletedNotices(Filter(db.offers, ActiveOffers()))))
  }

  function SurvivesReset(demo: set<UserId>): OfferRow -> bool {
    (o: OfferRow) => o.companyId !in demo || IsActiveOffer(o.status)
  }

  function NotOfDemo(demo: set<UserId>): NotificationRow -> bool {
    (n: NotificationRow) => n.userId !in demo
  }

  /** The demo reset on an order of a client outside the demo. */
  function DemoResetTx(db: Db, demo: set<UserId>): Db {
    db.(offers := Filter(db.offers, SurvivesReset(demo)), notes := Filter(db.notes, NotOfDemo(demo)))
  }
}
