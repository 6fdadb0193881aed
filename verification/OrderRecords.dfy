/** The rows of one order, and the elementary writes its transactions are made of. */
module OrderRecords {
  import opened Collections
  import opened SharedRules

  /** Order columns no transaction of the deal ever writes. */
  datatype OrderCard = OrderCard(orderNumber: int, title: string, description: string, address: string,
                                 squareMeters: real, clientBudget: Option<Money>, createdAt: Moment)

  datatype OrderRow = OrderRow(id: Id, clientId: UserId, card: OrderCard, status: OrderStatus,
                               price: Option<Money>, deadline: Option<Moment>,
                               verifiedSquareMeters: Option<real>,
                               completionComment: Option<string>, correctionComment: Option<string>,
                               updatedAt: Moment)

  datatype OfferRow = OfferRow(id: Id, companyId: UserId, status: OfferStatus,
                               proposedPrice: Money, proposedDeadline: Moment, comment: Option<string>,
                               editedAt: Option<Moment>, rejectionCount: nat)

  /** `submittedAt` is `None` while the company still adds files to the round. */
  datatype SubmissionRow = SubmissionRow(id: Id, round: nat, comment: string, submittedAt: Option<Moment>)

  datatype FileRow = FileRow(ownerType: FileOwnerType, submissionRound: nat, fileHash: int, sizeBytes: nat)

  datatype NotificationRow = NotificationRow(userId: UserId, kind: NotificationType,
                                             collapseKey: Option<CollapseKey>, isRead: bool)

  /** All rows of an existing order. Offers and files stand in creation order. */
  datatype Db = Db(order: OrderRow, offers: seq<OfferRow>, submissions: seq<SubmissionRow>,
                   files: seq<FileRow>, notes: seq<NotificationRow>)

  /** Deleting an order cascades to everything but the notifications. */
  datatype Store = Live(db: Db) | Deleted(notes: seq<NotificationRow>)

  // ---------------------------------------------------------------- offers

  function WithId(id: Id): OfferRow -> bool {
    (o: OfferRow) => o.id == id
  }

  function OfCompany(companyId: UserId): OfferRow -> bool {
    (o: OfferRow) => o.companyId == companyId
  }

  function Executes(): OfferRow -> bool {
    (o: OfferRow) => IsExecutorOffer(o.status)
  }

  /** Waits for the client's choice and is not offer `id`. */
  function Rivals(id: Id): OfferRow -> bool {
    (o: OfferRow) => o.status.Sent? && o.id != id
  }

  ghost predicate UniqueOffers(offers: seq<OfferRow>) {
    forall i, j :: 0 <= i < j < |offers| ==>
      offers[i].id != offers[j].id && offers[i].companyId != offers[j].companyId
  }

  /** With unique identifiers a query by identifier or by company is deterministic. */
  lemma TheOffer(offers: seq<OfferRow>, o: OfferRow)
    requires UniqueOffers(offers) && o in offers
    ensures First(offers, WithId(o.id)) == Some(o)
    ensures First(offers, OfCompany(o.companyId)) == Some(o)
  {
    var byId := First(offers, WithId(o.id)).value;
    var byCompany := First(offers, OfCompany(o.companyId)).value;
    var i :| 0 <= i < |offers| && offers[i] == o;
    var j :| 0 <= j < |offers| && offers[j] == byId;
    var k :| 0 <= k < |offers| && offers[k] == byCompany;
    assert i == j && i == k;
  }

  /** A client's refusal is counted together with the status it sets. */
  function SetStatus(o: OfferRow, status: OfferStatus): OfferRow {
    if status.Rejected? then o.(status := status, rejectionCount := o.rejectionCount + 1)
    else o.(status := status)
  }

  function SetStatusById(offers: seq<OfferRow>, id: Id, status: OfferStatus): (r: seq<OfferRow>)
    ensures |r| == |offers|
    ensures forall i :: 0 <= i < |r| ==>
      r[i] == if offers[i].id == id then SetStatus(offers[i], status) else offers[i]
  {
    seq(|offers|, i requires 0 <= i < |offers| =>
      if offers[i].id == id then SetStatus(offers[i], status) else offers[i])
  }

  // --------------------------------------------------------- notifications

  predicate Clash(m: NotificationRow, n: NotificationRow) {
    !m.isRead && !n.isRead && m.userId == n.userId && m.collapseKey.Some? && m.collapseKey == n.collapseKey
  }

  /** Unread and replaced by one of `drafts`. */
  predicate Superseded(n: NotificationRow, drafts: seq<NotificationRow>) {
    exists i | 0 <= i < |drafts| :: Clash(drafts[i], n)
  }

  function Kept(drafts: seq<NotificationRow>): NotificationRow -> bool {
    (n: NotificationRow) => !Superseded(n, drafts)
  }

  /** `dropSupersededNotifications` followed by `createMany`: one delete, one insert. */
  function Replace(notes: seq<NotificationRow>, drafts: seq<NotificationRow>): seq<NotificationRow> {
    Filter(notes, Kept(drafts)) + drafts
  }

  /** At most one unread notification per addressee and collapse key. */
  ghost predicate NoDuplicateUnread(notes: seq<NotificationRow>) {
    forall i, j :: 0 <= i < j < |notes| ==> !Clash(notes[i], notes[j])
  }

  function Read(): NotificationRow -> bool {
    (n: NotificationRow) => n.isRead
  }

  lemma {:induction false} FilterKeepsNoDuplicates(notes: seq<NotificationRow>, p: NotificationRow -> bool)
    requires NoDuplicateUnread(notes)
    ensures NoDuplicateUnread(Filter(notes, p))
  {
    if notes != [] {
      var n := |notes| - 1;
      FilterKeepsNoDuplicates(notes[..n], p);
      var kept := Filter(notes[..n], p);
      forall x | x in kept ensures !Clash(x, notes[n]) {
        var i :| 0 <= i < n && notes[..n][i] == x;
        assert notes[i] == x;
      }
    }
  }

  ghost predicate Unread(drafts: seq<NotificationRow>) {
    forall i :: 0 <= i < |drafts| ==> !drafts[i].isRead
  }

  /** Replacing keeps the rule and never removes, adds or reorders a read notification. */
  lemma ReplaceKeepsNotes(notes: seq<NotificationRow>, drafts: seq<NotificationRow>)
    requires NoDuplicateUnread(notes)
    requires NoDuplicateUnread(drafts) && Unread(drafts)
    ensures NoDuplicateUnread(Replace(notes, drafts))
    ensures Filter(Replace(notes, drafts), Read()) == Filter(notes, Read())
  {
    var kept := Filter(notes, Kept(drafts));
    FilterKeepsNoDuplicates(notes, Kept(drafts));
    forall i, j | 0 <= i < |kept| && 0 <= j < |drafts| ensures !Clash(kept[i], drafts[j]) {
      assert kept[i] in kept;
      assert !Superseded(kept[i], drafts);
      assert !Clash(drafts[j], kept[i]);
    }
    FilterConcat(kept, drafts, Read());
    FilterNone(drafts, Read());
    FilterTwice(notes, Kept(drafts), Read(), Read());
  }

  function Unlike(draft: NotificationRow): NotificationRow -> bool {
    (n: NotificationRow) => !Clash(draft, n)
  }

  /** The new notification stands at the end in place of the unread one with its addressee and
      key; all others stay as they are, in their order. */
  ghost predicate ToldAnew(before: seq<NotificationRow>, after: seq<NotificationRow>, draft: NotificationRow) {
    after == Filter(before, Unlike(draft)) + [draft]
  }

  lemma OneDraftReplaces(notes: seq<NotificationRow>, draft: NotificationRow)
    ensures ToldAnew(notes, Replace(notes, [draft]), draft)
  {
    forall n: NotificationRow ensures Kept([draft])(n) <==> Unlike(draft)(n) {
      assert [draft][0] == draft;
    }
    FilterSame(notes, Kept([draft]), Unlike(draft));
  }

  // ------------------------------------------------------- rounds and files

  function RoundFiles(round: nat): FileRow -> bool {
    (f: FileRow) => f.ownerType.CompanyFile? && f.submissionRound == round
  }

  /** The company's files of one submission round. */
  function FilesOfRound(files: seq<FileRow>, round: nat): seq<FileRow> {
    Filter(files, RoundFiles(round))
  }

  function SumSizes(files: seq<FileRow>): nat {
    if files == [] then 0
    else SumSizes(files[..|files| - 1]) + files[|files| - 1].sizeBytes
  }

  lemma OneSize(f: FileRow)
    ensures SumSizes([f]) == f.sizeBytes && SumSizes([]) == 0
  {
    assert [f][..0] == [];
  }

  lemma {:induction false} SumSizesConcat(a: seq<FileRow>, b: seq<FileRow>)
    ensures SumSizes(a + b) == SumSizes(a) + SumSizes(b)
    decreases |b|
  {
    if b == [] {
      assert a + b == a;
    } else {
      assert (a + b)[..|a + b| - 1] == a + b[..|b| - 1];
      SumSizesConcat(a, b[..|b| - 1]);
    }
  }
}
