/** The steps that open, fill and close submission rounds keep the invariants, and a closed
    round never changes again. */
module SubmissionRounds {
  import opened Collections
  import opened SharedRules
  import opened OrderStateMachine
  import opened OrderRecords
  import opened OrderTransitions
  import opened TransitionMeaning
  import opened OrderWorkflow
  import opened OrderProtocol
  import opened OrderInvariants
  import opened OfferSubmission
  import opened FileQuota

  /** Only the last round can be open, so the query for an open round has one answer. */
  lemma OpenIsLast(db: Db, issued: set<Id>)
    requires Numbered(db.submissions, issued)
    ensures FindOpenSubmission(db) ==
      if LastOpen(db.submissions) then Some(db.submissions[|db.submissions| - 1]) else None
  {
    var s := db.submissions;
    var open := Filter(s, Open());
    if LastOpen(s) {
      assert s[|s| - 1] in open;
    }
    if open != [] {
      var found := Latest(open).value;
      assert found in open;
      var i :| 0 <= i < |s| && s[i] == found;
      assert i == |s| - 1;
    }
  }

  lemma LatestIsLast(s: seq<SubmissionRow>, issued: set<Id>)
    requires Numbered(s, issued) && s != []
    ensures Latest(s) == Some(s[|s| - 1])
  {
    var i :| 0 <= i < |s| && s[i] == Latest(s).value;
    assert s[|s| - 1] in s;
  }

  // ------------------------------------------------------ closing a round

  lemma TransitionToWork(db: Db, now: Moment) returns (k: int)
    requires UniqueOffers(db.offers) && NoDuplicateUnread(db.notes) && DealOk(db)
    ensures var r := Transact(db, SubmitWork, now);
      (r.Ok? <==> CanUploadWork(db.order.status)) &&
      (r.Ok? ==>
        HeldBy(db, k) && r.value.offerId == db.offers[k].id && Moved(db, SubmitWork, db.offers[k], now, r.value.db))
  {
    k := 0;
    WorkEventsNeverMisfire(db, SubmitWork, now);
    if CanUploadWork(db.order.status) {
      TransitionMeans(db, SubmitWork, now);
      k :| HeldBy(db, k);
      ExecutorIsUnique(db, k);
    }
  }

  /** Work is submitted exactly when the status allows it and the open round holds a company
      file; then that round, and only that round, is closed. */
  lemma SubmitWorkMeans(db: Db, issued: set<Id>, now: Moment) returns (k: int)
    requires UniqueOffers(db.offers) && NoDuplicateUnread(db.notes) && DealOk(db) && Numbered(db.submissions, issued)
    ensures var r, n := SubmitWorkTx(db, now), |db.submissions|;
      (r.Ok? <==> CanUploadWork(db.order.status) && LastOpen(db.submissions) && FilesOfRound(db.files, n) != []) &&
      (r.Ok? ==>
        HeldBy(db, k) && r.value.offerId == db.offers[k].id &&
        WorkCommitted(db, r.value.db, db.offers[k], now))
  {
    OpenIsLast(db, issued);
    k := TransitionToWork(db, now);
    WorkClosesRound(db, Transact(db, SubmitWork, now), k, now);
  }

  /** The rest of `submitWork`, whatever the transition answered. */
  lemma WorkClosesRound(db: Db, transition: Result<AppliedTransition, Refusal>, k: int, now: Moment)
    requires transition.Ok? && LastOpen(db.submissions) ==>
      0 <= k < |db.offers| && Moved(db, SubmitWork, db.offers[k], now, transition.value.db)
    ensures transition.Ok? && LastOpen(db.submissions) ==>
      var a, last := transition.value, db.submissions[|db.submissions| - 1];
      WorkCommitted(db, a.db.(submissions := UpdateSubmission(a.db.submissions, last.id, Some(now), None)),
                    db.offers[k], now)
  {
  }

  ghost predicate WorkCommitted(db: Db, after: Db, offer: OfferRow, now: Moment) {
    Moved(db, SubmitWork, offer, now, after.(submissions := db.submissions)) &&
    db.submissions != [] &&
    var last := db.submissions[|db.submissions| - 1];
    after.submissions == UpdateSubmission(db.submissions, last.id, Some(now), None)
  }

  lemma SubmitWorkStep(w: World, now: Moment)
    requires Inv(w) && w.store.Live?
    ensures var next := Next(w, SubmitWorkAction(now)); Inv(next) && Advances(w, next)
  {
    var k := SubmitWorkMeans(w.store.db, w.issued, now);
    WorkSettled(w, SubmitWorkTx(w.store.db, now), k, now);
  }

  /** The open round holds a file, the work may be submitted, and `after` is what that leaves. */
  ghost predicate WorkTaken(db: Db, after: Db, k: int, now: Moment) {
    HeldBy(db, k) && CanUploadWork(db.order.status) && LastOpen(db.submissions) &&
    FilesOfRound(db.files, |db.submissions|) != [] && WorkCommitted(db, after, db.offers[k], now)
  }

  lemma WorkSettled(w: World, r: Result<AppliedTransition, Refusal>, k: int, now: Moment)
    requires Inv(w) && w.store.Live?
    requires r.Ok? ==> WorkTaken(w.store.db, r.value.db, k, now) && r.value.offerId == w.store.db.offers[k].id
    ensures var next := AfterTransition(w, r, OrderEventType.WorkSubmitted); Inv(next) && Advances(w, next)
  {
    if r.Ok? {
      WorkStored(w, r.value.db, k, now);
    } else {
      Stutters(w);
    }
  }

  lemma WorkStored(w: World, after: Db, k: int, now: Moment)
    requires Inv(w) && w.store.Live? && WorkTaken(w.store.db, after, k, now)
    ensures var entry := LogEntry(OrderEventType.WorkSubmitted, w.store.db.offers[k].id);
      var next := w.(store := Live(after), log := w.log + [entry]); Inv(next) && Advances(w, next)
  {
    var db := w.store.db;
    WorkKeepsOffers(db, after, k, now, w.log, w.issued);
    RoundsAfterSubmission(db, after, k, now, w);
    SameOrder(db, after, k, now);
    DealMoved(w, after, LogEntry(OrderEventType.WorkSubmitted, db.offers[k].id));
  }

  lemma SameOrder(db: Db, after: Db, k: int, now: Moment)
    requires WorkTaken(db, after, k, now)
    ensures after.order.id == db.order.id && after.order.clientId == db.order.clientId && after.order.card == db.order.card
    ensures NoDuplicateUnread(after.notes)
  {
  }

  lemma WorkKeepsOffers(db: Db, after: Db, k: int, now: Moment, log: seq<LogEntry>, issued: set<Id>)
    requires OffersOk(db, issued) && DealOk(db) && BudgetOk(db.offers, log, issued) && WorkTaken(db, after, k, now)
    ensures OffersOk(after, issued) && DealOk(after) && DealKept(db, after)
    ensures BudgetOk(after.offers, log + [LogEntry(OrderEventType.WorkSubmitted, db.offers[k].id)], issued)
    ensures FinalRefusalsKept(db, after) && IdsNotReused(db, after, issued)
  {
    var moved := after.(submissions := db.submissions);
    WorkMovedOffers(db, moved, k, now, log, issued);
    DealIgnoresRounds(db, moved, after, issued);
  }

  lemma WorkMovedOffers(db: Db, moved: Db, k: int, now: Moment, log: seq<LogEntry>, issued: set<Id>)
    requires OffersOk(db, issued) && DealOk(db) && BudgetOk(db.offers, log, issued) && HeldBy(db, k)
    requires CanUploadWork(db.order.status) && Moved(db, SubmitWork, db.offers[k], now, moved)
    ensures OffersOk(moved, issued) && DealOk(moved) && DealKept(db, moved)
    ensures BudgetOk(moved.offers, log + [LogEntry(OrderEventType.WorkSubmitted, db.offers[k].id)], issued)
    ensures FinalRefusalsKept(db, moved) && IdsNotReused(db, moved, issued)
  {
    ExecutorIsUnique(db, k);
    CommandKeepsDeal(db, SubmitWork, now, moved);
    CommandKeepsBudget(db, SubmitWork, now, moved, log, issued);
  }

  lemma RoundsAfterSubmission(db: Db, after: Db, k: int, now: Moment, w: World)
    requires RoundsOk(db, w.log, w.issued) && FilesOk(db) && UploadsOk(db, w.uploads) && HeldBy(db, k) && CanUploadWork(db.order.status) && LastOpen(db.submissions)
    requires FilesOfRound(db.files, |db.submissions|) != [] && WorkCommitted(db, after, db.offers[k], now)
    ensures RoundsOk(after, w.log + [LogEntry(OrderEventType.WorkSubmitted, db.offers[k].id)], w.issued)
    ensures FilesOk(after) && UploadsOk(after, w.uploads) && ClosedRoundsKept(db, after)
  {
    LogGrows(w.log, LogEntry(OrderEventType.WorkSubmitted, db.offers[k].id));
    RoundClosed(db, after, now, w.issued);
    ClosedRoundHasFile(db, after);
    IdsKept(db, after, w.uploads, w.uploads);
  }

  /** The round just closed is the one that was checked for a file. */
  lemma ClosedRoundHasFile(d: Db, e: Db)
    requires FilesOk(d) && e.files == d.files && LastOpen(d.submissions) && |e.submissions| == |d.submissions|
    requires forall i :: 0 <= i < |d.submissions| - 1 ==> e.submissions[i] == d.submissions[i]
    requires FilesOfRound(d.files, |d.submissions|) != []
    ensures FilesOk(e)
  {
  }

  lemma RoundClosed(d: Db, e: Db, now: Moment, issued: set<Id>)
    requires Numbered(d.submissions, issued) && LastOpen(d.submissions)
    requires e.submissions == UpdateSubmission(d.submissions, d.submissions[|d.submissions| - 1].id, Some(now), None)
    requires e.files == d.files
    ensures Numbered(e.submissions, issued) && ClosedRounds(e.submissions) == |d.submissions|
    ensures !LastOpen(e.submissions) && ClosedRoundsKept(d, e)
    ensures forall i :: 0 <= i < |d.submissions| - 1 ==> e.submissions[i] == d.submissions[i]
    ensures |e.submissions| == |d.submissions|
    ensures forall i :: 0 <= i < |d.submissions| ==> e.submissions[i].id == d.submissions[i].id
  {
    var s, n := d.submissions, |d.submissions| - 1;
    forall i | 0 <= i < n ensures e.submissions[i] == s[i] {
      assert s[i].id != s[n].id;
    }
  }

  // ---------------------------------------------------- opening a round

  /** A round is opened exactly when work may be uploaded; an open round is reused, and a new
      one gets the number after the last, whatever numbers there are. */
  lemma OpenMeans(db: Db, issued: set<Id>, comment: string, newId: Id)
    requires Numbered(db.submissions, issued)
    ensures OpenSubmissionTx(db, comment, newId) ==
      if CanUploadWork(db.order.status) then Ok(RoundFor(db, comment, newId)) else Err(UploadForbidden)
  {
    OpenIsLast(db, issued);
    if db.submissions != [] {
      LatestIsLast(db.submissions, issued);
    }
  }

  lemma OpenUploadStep(w: World, a: Action)
    requires Inv(w) && w.store.Live? && a.OpenUpload? && Enabled(w, a)
    ensures var next := Next(w, a); Inv(next) && Advances(w, next)
  {
    var db := w.store.db;
    OpenMeans(db, w.issued, a.comment, a.newId);
    OpeningSettled(w, a, OpenSubmissionTx(db, a.comment, a.newId));
  }

  lemma OpeningSettled(w: World, a: Action, r: Result<OpenedSubmission, Refusal>)
    requires Inv(w) && w.store.Live? && a.OpenUpload? && Enabled(w, a)
    requires r.Ok? ==> CanUploadWork(w.store.db.order.status) && r.value == RoundFor(w.store.db, a.comment, a.newId)
    ensures var next := AfterOpening(w, r, a); Inv(next) && Advances(w, next)
  {
    if r.Ok? {
      RoundOpened(w, a, r.value);
    } else {
      Stutters(w);
    }
  }

  /** The open round, or a new one numbered after the last. */
  function RoundFor(db: Db, comment: string, newId: Id): OpenedSubmission {
    var n := |db.submissions|;
    if LastOpen(db.submissions) then OpenedSubmission(db, db.submissions[n - 1].id, n)
    else OpenedSubmission(db.(submissions := db.submissions + [SubmissionRow(newId, n + 1, comment, None)]), newId, n + 1)
  }

  lemma RoundOpened(w: World, a: Action, r: OpenedSubmission)
    requires Inv(w) && w.store.Live? && a.OpenUpload? && Enabled(w, a)
    requires CanUploadWork(w.store.db.order.status)
    requires r == RoundFor(w.store.db, a.comment, a.newId)
    ensures var next := w.(store := Live(r.db), issued := w.issued + {a.newId},
                           uploads := w.uploads[a.request := Upload(r.id, r.round, a.comment, a.prepared, None)]);
      Inv(next) && Advances(w, next)
  {
    var db := w.store.db;
    RoundAppended(db, r.db, w, a);
    RequestRegistered(db, r, w, a);
    OnlyRoundsChanged(w, r.db, w.issued + {a.newId},
                      w.uploads[a.request := Upload(r.id, r.round, a.comment, a.prepared, None)]);
  }

  lemma RequestRegistered(db: Db, r: OpenedSubmission, w: World, a: Action)
    requires a.OpenUpload? && r == RoundFor(db, a.comment, a.newId) && UploadsOk(r.db, w.uploads)
    ensures UploadsOk(r.db, w.uploads[a.request := Upload(r.id, r.round, a.comment, a.prepared, None)])
  {
    assert AimsAtRound(r.db, Upload(r.id, r.round, a.comment, a.prepared, None));
  }

  lemma RoundAppended(d: Db, e: Db, w: World, a: Action)
    requires RoundsOk(d, w.log, w.issued) && FilesOk(d) && UploadsOk(d, w.uploads)
    requires CanUploadWork(d.order.status) && a.OpenUpload? && a.newId !in w.issued
    requires e == RoundFor(d, a.comment, a.newId).db
    ensures RoundsOk(e, w.log, w.issued + {a.newId}) && FilesOk(e) && ClosedRoundsKept(d, e)
    ensures UploadsOk(e, w.uploads)
  {
    RoundNumbered(d, e, w.log, w.issued, a.comment, a.newId);
    UploadsAimOn(d, e, w.uploads);
    EmptyRoundKeepsFiles(d, e);
  }

  lemma RoundNumbered(d: Db, e: Db, log: seq<LogEntry>, issued: set<Id>, comment: string, newId: Id)
    requires RoundsOk(d, log, issued) && CanUploadWork(d.order.status) && newId !in issued
    requires e == RoundFor(d, comment, newId).db
    ensures RoundsOk(e, log, issued + {newId}) && |d.submissions| <= |e.submissions| && e.files == d.files
    ensures forall i :: 0 <= i < |d.submissions| ==> e.submissions[i] == d.submissions[i]
    ensures forall i :: |d.submissions| <= i < |e.submissions| ==> e.submissions[i].submittedAt.None?
  {
  }

  lemma UploadsAimOn(d: Db, e: Db, uploads: map<Id, Upload>)
    requires UploadsOk(d, uploads) && |d.submissions| <= |e.submissions|
    requires forall i :: 0 <= i < |d.submissions| ==> e.submissions[i] == d.submissions[i]
    ensures UploadsOk(e, uploads)
  {
    forall q | q in uploads ensures AimsAtRound(e, uploads[q]) {
      assert AimsAtRound(d, uploads[q]);
    }
  }

  lemma EmptyRoundKeepsFiles(d: Db, e: Db)
    requires FilesOk(d) && e.files == d.files && |d.submissions| <= |e.submissions|
    requires forall i :: 0 <= i < |d.submissions| ==> e.submissions[i] == d.submissions[i]
    requires forall i :: |d.submissions| <= i < |e.submissions| ==> e.submissions[i].submittedAt.None?
    ensures FilesOk(e) && ClosedRoundsKept(d, e)
  {
  }

  // ---------------------------------------------------- filling a round

  /** An upload weighs the sum of its files. */
  lemma {:induction false} PreparedAddUp(a: seq<PreparedFile>, b: seq<PreparedFile>)
    ensures SumPrepared(a + b) == SumPrepared(a) + SumPrepared(b)
    decreases |b|
  {
    if b == [] {
      assert a + b == a;
    } else {
      assert (a + b)[..|a + b| - 1] == a + b[..|b| - 1];
      PreparedAddUp(a, b[..|b| - 1]);
    }
  }

  lemma OnePrepared(p: PreparedFile)
    ensures SumPrepared([p]) == p.sizeBytes && SumPrepared([]) == 0
  {
    assert [p][..0] == [];
  }

  /** The final check: the order's own bytes count at all three limits, the client's other orders
      at the client's limit and everyone else's at the service's. */
  lemma FitsMeans(db: Db, elsewhere: UsageElsewhere, incoming: nat)
    ensures FitsQuota(db, elsewhere, incoming) <==>
      (SumSizes(db.files) + incoming <= MAX_ORDER_FILES_BYTES &&
       SumSizes(db.files) + elsewhere.client + incoming <= MAX_CLIENT_FILES_BYTES &&
       SumSizes(db.files) + elsewhere.total + incoming <= MAX_TOTAL_FILES_BYTES)
  {
  }

  lemma {:induction false} CreatedSize(files: seq<FileRow>, owner: FileOwnerType, round: nat, batch: seq<PreparedFile>)
    ensures SumSizes(CreatedRows(files, owner, round, batch)) <= SumPrepared(batch)
  {
    if batch != [] {
      var n := |batch| - 1;
      CreatedSize(files, owner, round, batch[..n]);
      var rest, row := CreatedRows(files, owner, round, batch[..n]), RowOf(owner, round, batch[n]);
      assert (rest + [row])[..|rest + [row]| - 1] == rest;
    }
  }

  ghost predicate DistinctHashes(batch: seq<PreparedFile>) {
    forall i, j :: 0 <= i < j < |batch| ==> batch[i].fileHash != batch[j].fileHash
  }

  lemma {:induction false} FirstCopiesKept(prepared: seq<PreparedFile>)
    ensures DistinctHashes(UniqueInBatch(prepared))
    ensures forall h :: HasHash(UniqueInBatch(prepared), h) <==> HasHash(prepared, h)
    ensures forall p :: p in UniqueInBatch(prepared) ==> p in prepared
  {
    if prepared != [] {
      var n := |prepared| - 1;
      FirstCopiesKept(prepared[..n]);
      assert forall i :: 0 <= i < n ==> prepared[..n][i] == prepared[i];
      HashAppended(UniqueInBatch(prepared[..n]), prepared[n]);
      HashAppended(prepared[..n], prepared[n]);
      assert prepared == prepared[..n] + [prepared[n]];
    }
  }

  lemma HashAppended(batch: seq<PreparedFile>, last: PreparedFile)
    ensures forall h :: HasHash(batch + [last], h) <==> HasHash(batch, h) || h == last.fileHash
  {
    forall h ensures HasHash(batch + [last], h) <==> HasHash(batch, h) || h == last.fileHash {
      assert (batch + [last])[|batch|] == last;
      assert forall i :: 0 <= i < |batch| ==> (batch + [last])[i] == batch[i];
    }
  }

  lemma {:induction false} FilterKeepsDistinct(batch: seq<PreparedFile>, p: PreparedFile -> bool)
    requires DistinctHashes(batch)
    ensures DistinctHashes(Filter(batch, p))
  {
    if batch != [] {
      var n := |batch| - 1;
      FilterKeepsDistinct(batch[..n], p);
      var kept := Filter(batch[..n], p);
      forall i | 0 <= i < |kept| ensures kept[i].fileHash != batch[n].fileHash {
        assert kept[i] in kept;
        var j :| 0 <= j < n && batch[..n][j] == kept[i];
        assert batch[j] == kept[i];
      }
    }
  }

  /** Dropping duplicates loses no content and brings none twice: every content of the request
      is stored in the round already or stands in the batch, never both. */
  lemma NothingLostNothingTwice(files: seq<FileRow>, round: nat, prepared: seq<PreparedFile>, hash: int)
    ensures var batch := DropDuplicates(files, round, prepared);
      DistinctHashes(batch) && (forall p :: p in batch ==> p in prepared) &&
      (HasHash(batch, hash) <==> HasHash(prepared, hash) && First(files, SameFile(round, hash)).None?)
  {
    var unique, batch := UniqueInBatch(prepared), DropDuplicates(files, round, prepared);
    FirstCopiesKept(prepared);
    FilterKeepsDistinct(unique, Unknown(files, round));
    if HasHash(batch, hash) {
      var i :| 0 <= i < |batch| && batch[i].fileHash == hash;
      assert batch[i] in batch;
      var j :| 0 <= j < |unique| && unique[j] == batch[i];
    }
    if HasHash(unique, hash) && First(files, SameFile(round, hash)).None? {
      var i :| 0 <= i < |unique| && unique[i].fileHash == hash;
      assert unique[i] in batch;
      var j :| 0 <= j < |batch| && batch[j] == unique[i];
    }
  }

  /** One row per file, in order: the owner's, of the round, with the file's own hash and size. */
  ghost predicate HoldFiles(rows: seq<FileRow>, owner: FileOwnerType, round: nat, batch: seq<PreparedFile>) {
    |rows| == |batch| &&
    forall i :: 0 <= i < |batch| ==>
      rows[i].ownerType == owner && rows[i].submissionRound == round &&
      rows[i].fileHash == batch[i].fileHash && rows[i].sizeBytes == batch[i].sizeBytes
  }

  /** No file of the batch is in the round yet, and none is in the batch twice. */
  ghost predicate AllNew(files: seq<FileRow>, round: nat, batch: seq<PreparedFile>) {
    DistinctHashes(batch) &&
    forall i :: 0 <= i < |batch| ==> First(files, SameFile(round, batch[i].fileHash)).None?
  }

  lemma NotAmongRows(rows: seq<FileRow>, owner: FileOwnerType, round: nat, batch: seq<PreparedFile>, hash: int)
    requires HoldFiles(rows, owner, round, batch) && forall i :: 0 <= i < |batch| ==> batch[i].fileHash != hash
    ensures forall f :: f in rows ==> !SameFile(round, hash)(f)
  {
    forall f | f in rows ensures f.fileHash != hash {
      var i :| 0 <= i < |rows| && rows[i] == f;
      assert rows[i].fileHash == batch[i].fileHash;
    }
  }

  /** With nothing stored in between, the insert skips nothing: every file of the batch gets its
      row, with its own content and size. */
  lemma {:induction false} BatchIsInserted(files: seq<FileRow>, owner: FileOwnerType, round: nat, batch: seq<PreparedFile>)
    requires AllNew(files, round, batch)
    ensures HoldFiles(CreatedRows(files, owner, round, batch), owner, round, batch)
  {
    if batch != [] {
      var n := |batch| - 1;
      BatchIsInserted(files, owner, round, batch[..n]);
      NotAmongRows(CreatedRows(files, owner, round, batch[..n]), owner, round, batch[..n], batch[n].fileHash);
    }
  }

  /** The rows of a batch weigh what its files weigh. */
  lemma {:induction false} RowsWeighTheirFiles(rows: seq<FileRow>, owner: FileOwnerType, round: nat, batch: seq<PreparedFile>)
    requires HoldFiles(rows, owner, round, batch)
    ensures SumSizes(rows) == SumPrepared(batch)
    decreases |batch|
  {
    if batch != [] {
      var n := |batch| - 1;
      RowsWeighTheirFiles(rows[..n], owner, round, batch[..n]);
    }
  }

  /** The file list grew by the batch, row by row and byte by byte. */
  ghost predicate BatchAdded(before: seq<FileRow>, after: seq<FileRow>, owner: FileOwnerType, round: nat,
                             batch: seq<PreparedFile>) {
    |after| == |before| + |batch| &&
    (forall i :: 0 <= i < |before| ==> after[i] == before[i]) &&
    (forall i :: 0 <= i < |batch| ==>
      var row := after[|before| + i];
      row.ownerType == owner && row.submissionRound == round &&
      row.fileHash == batch[i].fileHash && row.sizeBytes == batch[i].sizeBytes) &&
    SumSizes(after) == SumSizes(before) + SumPrepared(batch)
  }

  lemma NewBatchIsAdded(files: seq<FileRow>, owner: FileOwnerType, round: nat, batch: seq<PreparedFile>)
    requires AllNew(files, round, batch)
    ensures BatchAdded(files, files + CreatedRows(files, owner, round, batch), owner, round, batch)
  {
    var created := CreatedRows(files, owner, round, batch);
    BatchIsInserted(files, owner, round, batch);
    RowsWeighTheirFiles(created, owner, round, batch);
    SumSizesConcat(files, created);
  }

  ghost predicate IsFileOf(batch: seq<PreparedFile>, row: FileRow) {
    exists i :: 0 <= i < |batch| && batch[i].fileHash == row.fileHash && batch[i].sizeBytes == row.sizeBytes
  }

  ghost predicate InRound(files: seq<FileRow>, round: nat, hash: int) {
    exists f :: f in files && f.submissionRound == round && f.fileHash == hash
  }

  /** Whatever was stored in between: every row created is a file of the batch with its own size,
      and afterwards the round holds every content of the batch. */
  lemma {:induction false} EveryContentStored(files: seq<FileRow>, owner: FileOwnerType, round: nat, batch: seq<PreparedFile>)
    ensures var created := CreatedRows(files, owner, round, batch);
      (forall f :: f in created ==> IsFileOf(batch, f)) &&
      (forall i :: 0 <= i < |batch| ==> InRound(files + created, round, batch[i].fileHash))
  {
    if batch != [] {
      var n := |batch| - 1;
      EveryContentStored(files, owner, round, batch[..n]);
      var rest, created := CreatedRows(files, owner, round, batch[..n]), CreatedRows(files, owner, round, batch);
      forall f | f in created ensures IsFileOf(batch, f) {
        if f in rest {
          var i :| 0 <= i < n && batch[..n][i].fileHash == f.fileHash && batch[..n][i].sizeBytes == f.sizeBytes;
          assert batch[i] == batch[..n][i];
        } else {
          assert batch[n].fileHash == f.fileHash && batch[n].sizeBytes == f.sizeBytes;
        }
      }
      forall i | 0 <= i < |batch| ensures InRound(files + created, round, batch[i].fileHash) {
        assert i < n ==> batch[..n][i] == batch[i];
        StoredByNow(files, owner, round, batch, i);
      }
    }
  }

  lemma StoredByNow(files: seq<FileRow>, owner: FileOwnerType, round: nat, batch: seq<PreparedFile>, i: nat)
    requires i < |batch|
    requires i < |batch| - 1 ==>
      InRound(files + CreatedRows(files, owner, round, batch[..|batch| - 1]), round, batch[i].fileHash)
    ensures InRound(files + CreatedRows(files, owner, round, batch), round, batch[i].fileHash)
  {
    var n := |batch| - 1;
    var rest, created := CreatedRows(files, owner, round, batch[..n]), CreatedRows(files, owner, round, batch);
    if i < n {
      var f :| f in files + rest && f.submissionRound == round && f.fileHash == batch[i].fileHash;
      assert f in files + created;
    } else if First(files + rest, SameFile(round, batch[n].fileHash)).Some? {
      var f := First(files + rest, SameFile(round, batch[n].fileHash)).value;
      assert f in files + created;
    } else {
      assert created == rest + [RowOf(owner, round, batch[n])];
      assert RowOf(owner, round, batch[n]) in files + created;
    }
  }

  /** Task files: accepted exactly when they fit, and then stored one by one in round 0. */
  lemma AttachMeans(db: Db, batch: seq<PreparedFile>, elsewhere: UsageElsewhere)
    requires AllNew(db.files, 0, batch)
    ensures var r := AttachTaskFilesTx(db, batch, elsewhere);
      (r.Ok? <==> FitsQuota(db, elsewhere, SumPrepared(batch))) &&
      (r.Ok? ==> r.value == db.(files := r.value.files) && BatchAdded(db.files, r.value.files, ClientFile, 0, batch))
  {
    NewBatchIsAdded(db.files, ClientFile, 0, batch);
  }

  lemma NewFileAdded(files: seq<FileRow>, row: FileRow)
    requires NoSameFile(files) && First(files, SameFile(row.submissionRound, row.fileHash)).None?
    ensures NoSameFile(files + [row])
  {
    forall i | 0 <= i < |files|
      ensures !(files[i].submissionRound == row.submissionRound && files[i].fileHash == row.fileHash)
    {
      assert !SameFile(row.submissionRound, row.fileHash)(files[i]);
    }
  }

  lemma {:induction false} CreatedFiles(files: seq<FileRow>, owner: FileOwnerType, round: nat, batch: seq<PreparedFile>)
    requires NoSameFile(files)
    ensures NoSameFile(files + CreatedRows(files, owner, round, batch))
  {
    if batch == [] {
      assert files + [] == files;
    } else {
      var n := |batch| - 1;
      CreatedFiles(files, owner, round, batch[..n]);
      var rest, row := CreatedRows(files, owner, round, batch[..n]), RowOf(owner, round, batch[n]);
      if First(files + rest, SameFile(round, batch[n].fileHash)).None? {
        NewFileAdded(files + rest, row);
        assert files + (rest + [row]) == (files + rest) + [row];
      }
    }
  }

  /** Rows of one owner and round leave every other round's file list alone. */
  lemma OtherRoundsUntouched(files: seq<FileRow>, created: seq<FileRow>, owner: FileOwnerType, round: nat, other: nat)
    requires forall f :: f in created ==> f.ownerType == owner && f.submissionRound == round
    requires owner.ClientFile? || round != other
    ensures FilesOfRound(files + created, other) == FilesOfRound(files, other)
  {
    FilterConcat(files, created, RoundFiles(other));
    FilterNone(created, RoundFiles(other));
  }

  lemma FilesAppended(d: Db, e: Db, owner: FileOwnerType, round: nat, batch: seq<PreparedFile>)
    requires FilesOk(d) && SumSizes(d.files) + SumPrepared(batch) <= MAX_ORDER_FILES_BYTES
    requires e.files == d.files + CreatedRows(d.files, owner, round, batch)
    requires |e.submissions| == |d.submissions|
    requires forall i :: 0 <= i < |d.submissions| ==>
      (d.submissions[i].submittedAt.Some? <==> e.submissions[i].submittedAt.Some?) &&
      (d.submissions[i].submittedAt.Some? ==> e.submissions[i] == d.submissions[i])
    requires if owner.ClientFile? then round == 0
             else 1 <= round <= |d.submissions| && d.submissions[round - 1].submittedAt.None?
    ensures FilesOk(e) && ClosedRoundsKept(d, e)
  {
    CreatedFiles(d.files, owner, round, batch);
    CreatedSize(d.files, owner, round, batch);
    SumSizesConcat(d.files, CreatedRows(d.files, owner, round, batch));
    var created := CreatedRows(d.files, owner, round, batch);
    ClosedRoundsUntouched(d, e, owner, round, created);
    FilesInRounds(d.files, created, owner, round, |d.submissions|);
  }

  lemma ClosedRoundsUntouched(d: Db, e: Db, owner: FileOwnerType, round: nat, created: seq<FileRow>)
    requires e.files == d.files + created && |e.submissions| == |d.submissions|
    requires forall i :: 0 <= i < |d.submissions| && d.submissions[i].submittedAt.Some? ==> e.submissions[i] == d.submissions[i]
    requires forall f :: f in created ==> f.ownerType == owner && f.submissionRound == round
    requires owner.CompanyFile? ==> 1 <= round <= |d.submissions| && d.submissions[round - 1].submittedAt.None?
    ensures ClosedRoundsKept(d, e)
  {
    forall i | 0 <= i < |d.submissions| && d.submissions[i].submittedAt.Some?
      ensures FilesOfRound(e.files, i + 1) == FilesOfRound(d.files, i + 1)
    {
      OtherRoundsUntouched(d.files, created, owner, round, i + 1);
    }
  }

  lemma FilesInRounds(files: seq<FileRow>, created: seq<FileRow>, owner: FileOwnerType, round: nat, n: nat)
    requires forall i :: 0 <= i < |files| ==>
      if files[i].ownerType.ClientFile? then files[i].submissionRound == 0 else 1 <= files[i].submissionRound <= n
    requires forall f :: f in created ==> f.ownerType == owner && f.submissionRound == round
    requires if owner.ClientFile? then round == 0 else 1 <= round <= n
    ensures var all := files + created;
      forall i :: 0 <= i < |all| ==>
        if all[i].ownerType.ClientFile? then all[i].submissionRound == 0 else 1 <= all[i].submissionRound <= n
  {
    forall i | 0 <= i < |created| ensures created[i] in created {}
  }

  /** The guard passes only while the round the upload aims at is open: it is the last one. */
  lemma GuardMeans(db: Db, u: Upload, issued: set<Id>)
    requires Numbered(db.submissions, issued) && AimsAtRound(db, u)
    requires LastOpen(db.submissions) ==> CanUploadWork(db.order.status)
    ensures var r := SaveCommentTx(db, u.submissionId, u.comment);
      (r.Ok? <==> u.round == |db.submissions| && LastOpen(db.submissions)) &&
      (r.Ok? ==> CommentSaved(db, r.value, u))
  {
    var found := First(db.submissions, OpenWithId(u.submissionId));
    var s := db.submissions;
    if found.Some? {
      var i :| 0 <= i < |s| && s[i] == found.value;
      assert i == u.round - 1 == |s| - 1;
    } else {
      assert s[u.round - 1] in s;
    }
  }

  ghost predicate CommentSaved(db: Db, saved: Db, u: Upload) {
    saved == db.(submissions := saved.submissions) &&
    |saved.submissions| == |db.submissions| && u.round == |db.submissions| && LastOpen(db.submissions) &&
    (forall i :: 0 <= i < |db.submissions| ==>
      saved.submissions[i] ==
        if i == u.round - 1 then db.submissions[i].(comment := u.comment) else db.submissions[i])
  }

  lemma CommentStored(w: World, saved: Db, u: Upload, uploads: map<Id, Upload>)
    requires Inv(w) && w.store.Live? && CommentSaved(w.store.db, saved, u)
    requires forall q :: q in uploads ==> q in w.uploads && uploads[q] == w.uploads[q]
    ensures var next := w.(store := Live(saved), uploads := uploads); Inv(next) && Advances(w, next)
  {
    var db := w.store.db;
    forall q | q in uploads ensures AimsAtRound(saved, uploads[q]) {
      assert AimsAtRound(db, w.uploads[q]);
    }
    OnlyRoundsChanged(w, saved, w.issued, uploads);
  }

  /** Rows, comment and notification go in together, into the open round only. */
  lemma InsertStep(w: World, a: Action)
    requires Inv(w) && w.store.Live? && a.InsertFiles? && Enabled(w, a)
    ensures var next := Next(w, a); Inv(next) && Advances(w, next)
  {
    var u := w.uploads[a.request];
    var saved := SaveCommentTx(w.store.db, u.submissionId, u.comment);
    UploadGuarded(w, a.request);
    if saved.Ok? {
      StoreSettled(w, saved.value, u, Without(w.uploads, a.request), a.elsewhere);
    } else {
      Dropped(w, Without(w.uploads, a.request));
    }
  }

  /** With nothing new to store, the comment alone. */
  lemma CommentStep(w: World, a: Action)
    requires Inv(w) && w.store.Live? && a.SaveCommentOnly? && Enabled(w, a)
    ensures var next := Next(w, a); Inv(next) && Advances(w, next)
  {
    var u := w.uploads[a.request];
    var saved := SaveCommentTx(w.store.db, u.submissionId, u.comment);
    UploadGuarded(w, a.request);
    if saved.Ok? {
      CommentStored(w, saved.value, u, Without(w.uploads, a.request));
    } else {
      Dropped(w, Without(w.uploads, a.request));
    }
  }

  lemma UploadGuarded(w: World, request: Id)
    requires Inv(w) && w.store.Live? && request in w.uploads
    ensures var u := w.uploads[request];
      var r := SaveCommentTx(w.store.db, u.submissionId, u.comment); r.Ok? ==> CommentSaved(w.store.db, r.value, u)
  {
    assert AimsAtRound(w.store.db, w.uploads[request]);
    GuardMeans(w.store.db, w.uploads[request], w.issued);
  }

  lemma StoreSettled(w: World, saved: Db, u: Upload, uploads: map<Id, Upload>, elsewhere: UsageElsewhere)
    requires Inv(w) && w.store.Live? && CommentSaved(w.store.db, saved, u) && u.batch.Some?
    requires forall q :: q in uploads ==> q in w.uploads && uploads[q] == w.uploads[q]
    ensures var next := AfterWrite(w, StoreFilesTx(saved, u.round, u.batch.value, elsewhere)).(uploads := uploads);
      Inv(next) && Advances(w, next)
  {
    if FitsQuota(saved, elsewhere, SumPrepared(u.batch.value)) {
      FilesStored(w, saved, u, uploads);
    } else {
      Dropped(w, uploads);
    }
  }

  lemma Dropped(w: World, uploads: map<Id, Upload>)
    requires Inv(w)
    requires forall q :: q in uploads ==> q in w.uploads && uploads[q] == w.uploads[q]
    ensures var next := w.(uploads := uploads); Inv(next) && Advances(w, next)
  {
    Stutters(w);
  }

  lemma FilesStored(w: World, saved: Db, u: Upload, uploads: map<Id, Upload>)
    requires Inv(w) && w.store.Live? && CommentSaved(w.store.db, saved, u) && u.batch.Some?
    requires forall q :: q in uploads ==> q in w.uploads && uploads[q] == w.uploads[q]
    requires SumSizes(saved.files) + SumPrepared(u.batch.value) <= MAX_ORDER_FILES_BYTES
    ensures var created := CreatedRows(saved.files, CompanyFile, u.round, u.batch.value);
      var after := if created == [] then saved
                   else saved.(files := saved.files + created,
                               notes := Replace(saved.notes, [FilesUpdatedNotice(saved.order)]));
      var next := w.(store := Live(after), uploads := uploads);
      Inv(next) && Advances(w, next)
  {
    var db := w.store.db;
    var created := CreatedRows(saved.files, CompanyFile, u.round, u.batch.value);
    if created == [] {
      CommentStored(w, saved, u, uploads);
    } else {
      var after := saved.(files := saved.files + created,
                          notes := Replace(saved.notes, [FilesUpdatedNotice(saved.order)]));
      NewFilesKept(db, after, u, w.log, w.issued);
      ReplaceKeepsNotes(db.notes, [FilesUpdatedNotice(db.order)]);
      IdsKept(db, after, w.uploads, uploads);
      OnlyRoundsChanged(w, after, w.issued, uploads);
    }
  }

  lemma NewFilesKept(db: Db, after: Db, u: Upload, log: seq<LogEntry>, issued: set<Id>)
    requires RoundsOk(db, log, issued) && FilesOk(db) && u.batch.Some?
    requires CommentSaved(db, db.(submissions := after.submissions), u) && after.order == db.order
    requires after.files == db.files + CreatedRows(db.files, CompanyFile, u.round, u.batch.value)
    requires SumSizes(db.files) + SumPrepared(u.batch.value) <= MAX_ORDER_FILES_BYTES
    ensures RoundsOk(after, log, issued) && FilesOk(after) && ClosedRoundsKept(db, after)
    ensures |after.submissions| == |db.submissions|
    ensures forall i :: 0 <= i < |db.submissions| ==> after.submissions[i].id == db.submissions[i].id
  {
    CommentKeepsRounds(db, after, u, log, issued);
    OpenRowKept(db, after, u);
    FilesAppended(db, after, CompanyFile, u.round, u.batch.value);
  }

  lemma CommentKeepsRounds(db: Db, after: Db, u: Upload, log: seq<LogEntry>, issued: set<Id>)
    requires RoundsOk(db, log, issued)
    requires CommentSaved(db, db.(submissions := after.submissions), u) && after.order == db.order
    ensures RoundsOk(after, log, issued)
    ensures |after.submissions| == |db.submissions|
    ensures forall i :: 0 <= i < |db.submissions| ==> after.submissions[i].id == db.submissions[i].id
  {
  }

  /** The comment goes to an open row; rows already submitted stay. */
  lemma OpenRowKept(db: Db, after: Db, u: Upload)
    requires CommentSaved(db, db.(submissions := after.submissions), u)
    ensures |after.submissions| == |db.submissions|
    ensures forall i :: 0 <= i < |db.submissions| ==>
      (db.submissions[i].submittedAt.Some? <==> after.submissions[i].submittedAt.Some?) &&
      (db.submissions[i].submittedAt.Some? ==> after.submissions[i] == db.submissions[i])
    ensures 1 <= u.round <= |db.submissions| && db.submissions[u.round - 1].submittedAt.None?
  {
  }

  lemma IdsKept(d: Db, e: Db, uploads: map<Id, Upload>, fewer: map<Id, Upload>)
    requires UploadsOk(d, uploads) && |e.submissions| == |d.submissions|
    requires forall i :: 0 <= i < |d.submissions| ==> e.submissions[i].id == d.submissions[i].id
    requires forall q :: q in fewer ==> q in uploads && fewer[q] == uploads[q]
    ensures UploadsOk(e, fewer)
  {
    forall q | q in fewer ensures AimsAtRound(e, fewer[q]) {
      assert AimsAtRound(d, uploads[q]);
    }
  }

  lemma AttachStep(w: World, a: Action)
    requires Inv(w) && w.store.Live? && a.AttachTaskFiles?
    ensures var next := Next(w, a); Inv(next) && Advances(w, next)
  {
    var db := w.store.db;
    if FitsQuota(db, a.elsewhere, SumPrepared(a.files)) {
      var after := db.(files := db.files + CreatedRows(db.files, ClientFile, 0, a.files));
      FilesAppended(db, after, ClientFile, 0, a.files);
      forall q | q in w.uploads ensures AimsAtRound(after, w.uploads[q]) {
        assert AimsAtRound(db, w.uploads[q]);
      }
      OnlyRoundsChanged(w, after, w.issued, w.uploads);
    } else {
      Stutters(w);
    }
  }
}
