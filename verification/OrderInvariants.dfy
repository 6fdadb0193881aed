/** Every step of the protocol keeps the invariants and only advances the deal. */
module OrderInvariants {
  import opened Collections
  import opened SharedRules
  import opened OrderStateMachine
  import opened OrderRecords
  import opened OrderTransitions
  import opened TransitionMeaning
  import opened OrderWorkflow
  import opened OrderProtocol

  lemma LogGrows(log: seq<LogEntry>, e: LogEntry)
    ensures Disputes(log + [e]) == Disputes(log) + (if e.event.WorkDisputed? then 1 else 0)
    ensures forall id :: Rejections(log + [e], id) == Rejections(log, id) +
                         (if e.event.OfferRejected? && e.offerId == id then 1 else 0)
  {
    assert (log + [e])[..|log + [e]| - 1] == log;
  }

  // --------------------------------------------------------- transitions

  /** With lockstep the executor query has one answer: the row that holds the deal. */
  lemma ExecutorIsUnique(db: Db, i: nat)
    requires HeldBy(db, i)
    ensures First(db.offers, Executes()) == Some(db.offers[i])
    ensures forall o :: o in db.offers && IsExecutorOffer(o.status) ==> o == db.offers[i]
  {
    assert db.offers[i] in db.offers;
    forall o | o in db.offers && IsExecutorOffer(o.status) ensures o == db.offers[i] {
      var j :| 0 <= j < |db.offers| && db.offers[j] == o;
      assert j == i;
    }
  }

  lemma NoExecutorYet(db: Db)
    requires DealOk(db) && AcceptsOffers(db.order.status)
    ensures First(db.offers, Executes()).None?
  {
  }

  /** Row `k` is the one the command is about, and the only row with its identifier. */
  ghost predicate IsTarget(db: Db, command: TransitionCommand, k: int)
    requires ResolveOffer(db, command).Ok?
  {
    0 <= k < |db.offers| && db.offers[k] == ResolveOffer(db, command).value &&
    forall j :: 0 <= j < |db.offers| && j != k ==> db.offers[j].id != db.offers[k].id
  }

  lemma OfferTargets(db: Db, command: TransitionCommand)
    requires UniqueOffers(db.offers) && ResolveOffer(db, command).Ok?
    ensures exists k :: IsTarget(db, command, k)
  {
    var offer := ResolveOffer(db, command).value;
    assert offer in db.offers;
    var k :| 0 <= k < |db.offers| && db.offers[k] == offer;
    assert IsTarget(db, command, k);
  }

  lemma LeavingKeepsDeal(db: Db, command: TransitionCommand, now: Moment, after: Db, k: int)
    requires DealOk(db) && (command.WithdrawOffer? || command.RejectOffer?)
    requires ResolveOffer(db, command).Ok? && IsTarget(db, command, k)
    requires Allowed(db, command, db.offers[k], now) && Moved(db, command, db.offers[k], now, after)
    ensures DealOk(after)
  {
    forall j | 0 <= j < |db.offers| ensures after.offers[j] == OfferAfter(db.offers[j], command, db.offers[k].id) {}
    if OtherSent(db.offers, db.offers[k].id) {
      var i :| 0 <= i < |db.offers| && db.offers[i].status.Sent? && db.offers[i].id != db.offers[k].id;
      assert after.offers[i].status.Sent?;
    }
  }

  lemma AcceptanceMakesDeal(db: Db, command: TransitionCommand, now: Moment, after: Db, k: int)
    requires DealOk(db) && command.AcceptOffer?
    requires ResolveOffer(db, command).Ok? && IsTarget(db, command, k)
    requires Allowed(db, command, db.offers[k], now) && Moved(db, command, db.offers[k], now, after)
    ensures HeldBy(after, k)
  {
    forall j | 0 <= j < |db.offers| ensures after.offers[j] == OfferAfter(db.offers[j], command, db.offers[k].id) {}
  }

  lemma WorkKeepsDeal(db: Db, command: TransitionCommand, now: Moment, after: Db, k: int)
    requires HeldBy(db, k) && (command.SubmitWork? || command.ConfirmWork? || command.DisputeWork?)
    requires ResolveOffer(db, command).Ok? && IsTarget(db, command, k)
    requires Allowed(db, command, db.offers[k], now) && Moved(db, command, db.offers[k], now, after)
    ensures HeldBy(after, k) && SameDeal(db, k, after, k)
  {
    forall j | 0 <= j < |db.offers| ensures after.offers[j] == OfferAfter(db.offers[j], command, db.offers[k].id) {}
    forall o | o in after.offers && o.id != after.offers[k].id ensures o in db.offers {
      var m :| 0 <= m < |after.offers| && after.offers[m] == o;
      assert db.offers[m] == o;
    }
  }

  lemma CommandKeepsDeal(db: Db, command: TransitionCommand, now: Moment, after: Db)
    requires UniqueOffers(db.offers) && DealOk(db) && !command.SubmitOffer?
    requires ResolveOffer(db, command).Ok? && Allowed(db, command, ResolveOffer(db, command).value, now)
    requires Moved(db, command, ResolveOffer(db, command).value, now, after)
    ensures DealOk(after) && DealKept(db, after)
  {
    OfferTargets(db, command);
    var k :| IsTarget(db, command, k);
    if command.WithdrawOffer? || command.RejectOffer? {
      LeavingKeepsDeal(db, command, now, after, k);
    } else if command.AcceptOffer? {
      AcceptanceMakesDeal(db, command, now, after, k);
    } else {
      WorkCarriesDeal(db, command, now, after, k);
    }
  }

  lemma WorkCarriesDeal(db: Db, command: TransitionCommand, now: Moment, after: Db, k: int)
    requires DealOk(db) && (command.SubmitWork? || command.ConfirmWork? || command.DisputeWork?)
    requires ResolveOffer(db, command).Ok? && IsTarget(db, command, k)
    requires Allowed(db, command, db.offers[k], now) && Moved(db, command, db.offers[k], now, after)
    ensures DealOk(after) && DealKept(db, after)
  {
    var i :| HeldBy(db, i);
    HolderIsTarget(db, command, k, i);
    WorkKeepsDeal(db, command, now, after, k);
    forall j | HeldBy(db, j) ensures j == k {
      HolderIsTarget(db, command, k, j);
    }
  }

  lemma HolderIsTarget(db: Db, command: TransitionCommand, k: int, i: int)
    requires HeldBy(db, i) && !command.NamesOffer()
    requires ResolveOffer(db, command).Ok? && IsTarget(db, command, k)
    ensures i == k
  {
    ExecutorIsUnique(db, i);
  }

  /** An event the order's status allows is never refused because of the executor's offer. */
  lemma WorkEventsNeverMisfire(db: Db, command: TransitionCommand, now: Moment)
    requires UniqueOffers(db.offers) && NoDuplicateUnread(db.notes) && DealOk(db)
    requires command.SubmitWork? || command.ConfirmWork? || command.DisputeWork?
    ensures Transact(db, command, now).Ok? <==> EventOf(command) in TransitionsFrom(db.order.status)
    ensures Transact(db, command, now) != Err(InvalidOfferStatus)
  {
    TransitionMeans(db, command, now);
    if AcceptsOffers(db.order.status) {
      NoExecutorYet(db);
    } else {
      var i :| HeldBy(db, i);
      ExecutorIsUnique(db, i);
    }
  }

  lemma RowAfterCommand(db: Db, command: TransitionCommand, now: Moment, after: Db,
                        log: seq<LogEntry>, issued: set<Id>, k: int, i: int)
    requires BudgetOk(db.offers, log, issued) && !command.SubmitOffer?
    requires ResolveOffer(db, command).Ok? && IsTarget(db, command, k)
    requires Allowed(db, command, db.offers[k], now) && Moved(db, command, db.offers[k], now, after)
    requires 0 <= i < |db.offers|
    ensures after.offers[i].id == db.offers[i].id && after.offers[i].companyId == db.offers[i].companyId
    ensures FinalRefusal(db.offers[i]) ==> after.offers[i] == db.offers[i]
    ensures after.offers[i].rejectionCount ==
      Rejections(log + [LogEntry(EventOf(command), db.offers[k].id)], after.offers[i].id)
    ensures after.offers[i].rejectionCount <= MAX_OFFER_REJECTIONS
    ensures after.offers[i].rejectionCount == MAX_OFFER_REJECTIONS ==> after.offers[i].status.Rejected?
  {
    LogGrows(log, LogEntry(EventOf(command), db.offers[k].id));
    assert after.offers[i] == OfferAfter(db.offers[i], command, db.offers[k].id);
  }

  lemma CommandKeepsBudget(db: Db, command: TransitionCommand, now: Moment, after: Db,
                           log: seq<LogEntry>, issued: set<Id>)
    requires OffersOk(db, issued) && BudgetOk(db.offers, log, issued) && !command.SubmitOffer?
    requires ResolveOffer(db, command).Ok? && Allowed(db, command, ResolveOffer(db, command).value, now)
    requires Moved(db, command, ResolveOffer(db, command).value, now, after)
    ensures BudgetOk(after.offers, log + [LogEntry(EventOf(command), ResolveOffer(db, command).value.id)], issued)
    ensures OffersOk(after, issued)
    ensures FinalRefusalsKept(db, after) && IdsNotReused(db, after, issued)
  {
    OfferTargets(db, command);
    var k :| IsTarget(db, command, k);
    LogGrows(log, LogEntry(EventOf(command), db.offers[k].id));
    forall i | 0 <= i < |db.offers|
      ensures after.offers[i].id == db.offers[i].id && after.offers[i].companyId == db.offers[i].companyId
      ensures FinalRefusal(db.offers[i]) ==> after.offers[i] == db.offers[i]
      ensures after.offers[i].rejectionCount ==
        Rejections(log + [LogEntry(EventOf(command), db.offers[k].id)], after.offers[i].id)
      ensures after.offers[i].rejectionCount <= MAX_OFFER_REJECTIONS
      ensures after.offers[i].rejectionCount == MAX_OFFER_REJECTIONS ==> after.offers[i].status.Rejected?
    {
      RowAfterCommand(db, command, now, after, log, issued, k, i);
    }
    RowsSettled(db, after, log, log + [LogEntry(EventOf(command), db.offers[k].id)], issued);
  }

  /** The whole list, put together from its rows. */
  lemma RowsSettled(d: Db, e: Db, log: seq<LogEntry>, longer: seq<LogEntry>, issued: set<Id>)
    requires OffersOk(d, issued) && BudgetOk(d.offers, log, issued)
    requires |e.offers| == |d.offers| && e.order.clientId == d.order.clientId
    requires forall i :: 0 <= i < |d.offers| ==>
      e.offers[i].id == d.offers[i].id && e.offers[i].companyId == d.offers[i].companyId
    requires forall i :: 0 <= i < |d.offers| && FinalRefusal(d.offers[i]) ==> e.offers[i] == d.offers[i]
    requires forall i :: 0 <= i < |e.offers| ==>
      e.offers[i].rejectionCount == Rejections(longer, e.offers[i].id) &&
      e.offers[i].rejectionCount <= MAX_OFFER_REJECTIONS &&
      (e.offers[i].rejectionCount == MAX_OFFER_REJECTIONS ==> e.offers[i].status.Rejected?)
    requires forall id :: id !in issued ==> Rejections(longer, id) == Rejections(log, id)
    ensures BudgetOk(e.offers, longer, issued) && OffersOk(e, issued)
    ensures FinalRefusalsKept(d, e) && IdsNotReused(d, e, issued)
  {
    RowsMatchById(d, e, issued);
  }

  /** Rows that keep their places and identifiers keep final refusals and reuse nothing. */
  lemma RowsMatchById(d: Db, e: Db, issued: set<Id>)
    requires UniqueOffers(d.offers) && |e.offers| == |d.offers|
    requires forall i :: 0 <= i < |d.offers| ==> e.offers[i].id == d.offers[i].id
    requires forall i :: 0 <= i < |d.offers| && FinalRefusal(d.offers[i]) ==> e.offers[i] == d.offers[i]
    ensures FinalRefusalsKept(d, e) && IdsNotReused(d, e, issued)
  {
    forall p | p in e.offers && p.id in issued ensures HasOffer(d.offers, p.id) {
      var i :| 0 <= i < |e.offers| && e.offers[i] == p;
      assert d.offers[i].id == p.id;
    }
    forall o, p | o in d.offers && FinalRefusal(o) && p in e.offers && p.id == o.id ensures p == o {
      var i :| 0 <= i < |d.offers| && d.offers[i] == o;
      var j :| 0 <= j < |e.offers| && e.offers[j] == p;
      assert d.offers[j].id == d.offers[i].id;
    }
  }

  /** The deal does not look at the rounds, the files or the notifications. */
  lemma DealIgnoresRounds(d: Db, e: Db, f: Db, issued: set<Id>)
    requires SameDealColumns(e, f)
    requires DealOk(e) && DealKept(d, e) && FinalRefusalsKept(d, e) && IdsNotReused(d, e, issued)
    ensures DealOk(f) && DealKept(d, f) && FinalRefusalsKept(d, f) && IdsNotReused(d, f, issued)
  {
    forall i | HeldBy(e, i) ensures HeldBy(f, i) {}
    forall i | HeldBy(d, i) ensures exists j :: HeldBy(f, j) && SameDeal(d, i, f, j) {
      var j :| HeldBy(e, j) && SameDeal(d, i, e, j);
      assert SameDeal(d, i, f, j);
    }
  }

  /** A step that writes neither the deal columns nor the offers keeps everything about the deal. */
  lemma DealUntouched(d: Db, e: Db, issued: set<Id>)
    requires SameDealColumns(d, e) && UniqueOffers(d.offers)
    ensures (DealOk(d) ==> DealOk(e)) && DealKept(d, e)
    ensures FinalRefusalsKept(d, e) && IdsNotReused(d, e, issued)
  {
    forall i | HeldBy(d, i) ensures HeldBy(e, i) && SameDeal(d, i, e, i) {}
    RowsMatchById(d, e, issued);
  }

  predicate SameDealColumns(d: Db, e: Db) {
    e.offers == d.offers && e.order.id == d.order.id && e.order.clientId == d.order.clientId &&
    e.order.card == d.order.card && e.order.status == d.order.status &&
    e.order.price == d.order.price && e.order.deadline == d.order.deadline
  }

  lemma OnlyRoundsChanged(w: World, e: Db, issued: set<Id>, uploads: map<Id, Upload>)
    requires Inv(w) && w.store.Live? && w.issued <= issued
    requires SameDealColumns(w.store.db, e) && NoDuplicateUnread(e.notes)
    requires RoundsOk(e, w.log, issued) && FilesOk(e) && UploadsOk(e, uploads) && ClosedRoundsKept(w.store.db, e)
    ensures var next := w.(store := Live(e), issued := issued, uploads := uploads); Inv(next) && Advances(w, next)
  {
    DealUntouched(w.store.db, e, w.issued);
  }

  /** A committed transition, put together from its parts. */
  lemma DealMoved(w: World, e: Db, entry: LogEntry)
    requires Inv(w) && w.store.Live? && NoDuplicateUnread(e.notes)
    requires OffersOk(e, w.issued) && DealOk(e) && BudgetOk(e.offers, w.log + [entry], w.issued)
    requires RoundsOk(e, w.log + [entry], w.issued) && FilesOk(e) && UploadsOk(e, w.uploads)
    requires LiveAdvances(w.store.db, e, w.issued)
    ensures var next := w.(store := Live(e), log := w.log + [entry]); Inv(next) && Advances(w, next)
  {
  }

  lemma CommandStep(w: World, command: TransitionCommand, now: Moment)
    requires Inv(w) && w.store.Live? && !command.SubmitOffer? && !command.SubmitWork?
    ensures var next := Next(w, CommandAction(command, now)); Inv(next) && Advances(w, next)
  {
    TransitionMeans(w.store.db, command, now);
    var r := Transact(w.store.db, command, now);
    if r.Ok? {
      CommandCommitted(w, command, now, r.value.db);
    } else {
      Stutters(w);
    }
  }

  lemma CommandCommitted(w: World, command: TransitionCommand, now: Moment, after: Db)
    requires Inv(w) && w.store.Live? && !command.SubmitOffer? && !command.SubmitWork?
    requires ResolveOffer(w.store.db, command).Ok?
    requires Allowed(w.store.db, command, ResolveOffer(w.store.db, command).value, now)
    requires Moved(w.store.db, command, ResolveOffer(w.store.db, command).value, now, after)
    ensures var entry := LogEntry(EventOf(command), ResolveOffer(w.store.db, command).value.id);
      var next := w.(store := Live(after), log := w.log + [entry]); Inv(next) && Advances(w, next)
  {
    var db := w.store.db;
    var offer := ResolveOffer(db, command).value;
    CommandKeepsDeal(db, command, now, after);
    CommandKeepsBudget(db, command, now, after, w.log, w.issued);
    RoundsAfterCommand(db, command, offer, now, after, w);
    DealMoved(w, after, LogEntry(EventOf(command), offer.id));
  }

  lemma RoundsAfterCommand(db: Db, command: TransitionCommand, offer: OfferRow, now: Moment, after: Db, w: World)
    requires RoundsOk(db, w.log, w.issued) && FilesOk(db) && UploadsOk(db, w.uploads) && !command.SubmitOffer? && !command.SubmitWork?
    requires Allowed(db, command, offer, now) && Moved(db, command, offer, now, after)
    ensures RoundsOk(after, w.log + [LogEntry(EventOf(command), offer.id)], w.issued)
    ensures FilesOk(after) && UploadsOk(after, w.uploads) && ClosedRoundsKept(db, after)
  {
    RoundsCounted(db, command, offer, now, after, w.log, w.issued);
    forall q | q in w.uploads ensures AimsAtRound(after, w.uploads[q]) {
      assert AimsAtRound(db, w.uploads[q]);
    }
  }

  lemma RoundsCounted(db: Db, command: TransitionCommand, offer: OfferRow, now: Moment, after: Db,
                      log: seq<LogEntry>, issued: set<Id>)
    requires RoundsOk(db, log, issued) && !command.SubmitOffer? && !command.SubmitWork?
    requires Allowed(db, command, offer, now) && after.order.status == StatusAfter(db, command, offer.id)
    requires after.submissions == db.submissions
    ensures RoundsOk(after, log + [LogEntry(EventOf(command), offer.id)], issued)
  {
    LogGrows(log, LogEntry(EventOf(command), offer.id));
  }

  lemma Stutters(w: World)
    requires Inv(w)
    ensures Advances(w, w)
  {
    if w.store.Live? {
      DealUntouched(w.store.db, w.store.db, w.issued);
    }
  }
}
