/** What sending or updating an offer means: when the upsert-and-transition commits, and
    exactly which row it leaves behind. */
module OfferSubmission {
  import opened Collections
  import opened SharedRules
  import opened OrderStateMachine
  import opened OrderRecords
  import opened OrderTransitions
  import opened TransitionMeaning
  import opened OrderWorkflow
  import opened OrderProtocol
  import opened OrderInvariants

  /** A pending row that says what was sent, and nothing else about it. */
  ghost predicate CarriesTerms(row: OfferRow, terms: OfferTerms) {
    row.status.Sent? && row.proposedPrice == terms.price && row.proposedDeadline == terms.deadline &&
    row.comment == terms.comment
  }

  /** A first sending: the company's row, under the new identifier, never edited, never refused. */
  ghost predicate FirstSending(row: OfferRow, id: Id, companyId: UserId, terms: OfferTerms) {
    CarriesTerms(row, terms) && row.id == id && row.companyId == companyId &&
    row.editedAt.None? && row.rejectionCount == 0
  }

  /** A later one: the same row with new terms, marked as edited; refusals are kept. */
  ghost predicate LaterSending(row: OfferRow, before: OfferRow, terms: OfferTerms, now: Moment) {
    CarriesTerms(row, terms) && row.id == before.id && row.companyId == before.companyId &&
    row.editedAt == Some(now) && row.rejectionCount == before.rejectionCount
  }

  /** The upsert leaves the company's row at place `k` and every other row as it was. */
  ghost predicate Upserted(offers: seq<OfferRow>, companyId: UserId, terms: OfferTerms, newId: Id, now: Moment,
                           after: seq<OfferRow>, k: int) {
    if First(offers, OfCompany(companyId)).Some? then
      0 <= k < |offers| && offers[k].companyId == companyId &&
      |after| == |offers| && after == offers[k := after[k]] && LaterSending(after[k], offers[k], terms, now)
    else
      k == |offers| && |after| == |offers| + 1 && after == offers + [after[k]] &&
      FirstSending(after[k], newId, companyId, terms)
  }

  lemma UpsertWritesOneRow(offers: seq<OfferRow>, companyId: UserId, terms: OfferTerms, newId: Id, now: Moment)
    returns (k: int)
    requires UniqueOffers(offers)
    requires forall i :: 0 <= i < |offers| ==> offers[i].id != newId
    ensures Upserted(offers, companyId, terms, newId, now, Upsert(offers, companyId, terms, newId, now), k)
    ensures UniqueOffers(Upsert(offers, companyId, terms, newId, now))
    ensures First(offers, OfCompany(companyId)).Some? ==> First(offers, OfCompany(companyId)).value == offers[k]
  {
    var existing := First(offers, OfCompany(companyId));
    if existing.Some? {
      k :| 0 <= k < |offers| && offers[k] == existing.value;
    } else {
      k := |offers|;
      forall i | 0 <= i < |offers| ensures offers[i].companyId != companyId {
        assert offers[i] in offers;
      }
    }
  }

  /** The company may send: no offer of its own yet, or one that is pending or may be resubmitted. */
  predicate MaySend(own: Option<OfferRow>) {
    own.None? || IsPendingOffer(own.value.status) || CanResubmitOffer(own.value.status, own.value.rejectionCount)
  }

  /** On the row the upsert has just written the transition changes no offer. */
  lemma SubmitOnRow(u: Db, k: int, before: Option<OfferStatus>, now: Moment)
    requires UniqueOffers(u.offers) && NoDuplicateUnread(u.notes)
    requires 0 <= k < |u.offers| && u.offers[k].status.Sent?
    ensures var r := Transact(u, SubmitOffer(u.offers[k].id, before), now);
      (r.Ok? <==> (AcceptsOffers(u.order.status) &&
        (before.None? || IsPendingOffer(before.value) || CanResubmitOffer(before.value, u.offers[k].rejectionCount)))) &&
      (r.Ok? ==> Resubmitted(u, r.value, k, now))
  {
    var row := u.offers[k];
    var command := SubmitOffer(row.id, before);
    assert row in u.offers;
    TheOffer(u.offers, row);
    TransitionMeans(u, command, now);
    var r := Transact(u, command, now);
    if r.Ok? {
      var after := r.value.db;
      forall i | 0 <= i < |u.offers| ensures after.offers[i] == u.offers[i] {
        assert after.offers[i] == OfferAfter(u.offers[i], command, row.id);
        assert u.offers[i].id == row.id ==> i == k;
      }
      assert after.offers == u.offers;
    }
  }

  ghost predicate Resubmitted(u: Db, a: AppliedTransition, k: int, now: Moment) {
    0 <= k < |u.offers| &&
    a.db.offers == u.offers &&
    a.db.order == u.order.(status := AwaitingConfirmation, updatedAt := now) &&
    a.db.submissions == u.submissions && a.db.files == u.files &&
    NoDuplicateUnread(a.db.notes) && Filter(a.db.notes, Read()) == Filter(u.notes, Read()) &&
    a.offerId == u.offers[k].id && a.companyId == u.offers[k].companyId &&
    a.fromStatus == u.order.status && a.nextStatus == AwaitingConfirmation
  }

  /** `OffersService.submit` commits exactly when the order takes offers and the company may
      send, and then the offer list is the upserted one, untouched by the transition. */
  lemma SubmitMeans(db: Db, companyId: UserId, terms: OfferTerms, newId: Id, now: Moment) returns (k: int)
    requires UniqueOffers(db.offers) && NoDuplicateUnread(db.notes)
    requires forall i :: 0 <= i < |db.offers| ==> db.offers[i].id != newId
    ensures var r, u := SubmitOfferTx(db, companyId, terms, newId, now),
                        db.(offers := Upsert(db.offers, companyId, terms, newId, now));
      (r.Ok? <==> AcceptsOffers(db.order.status) && MaySend(First(db.offers, OfCompany(companyId)))) &&
      (r.Ok? ==>
        Upserted(db.offers, companyId, terms, newId, now, r.value.db.offers, k) &&
        UniqueOffers(r.value.db.offers) &&
        Resubmitted(u, r.value, k, now) && r.value.companyId == companyId)
  {
    k := UpsertWritesOneRow(db.offers, companyId, terms, newId, now);
    var u := db.(offers := Upsert(db.offers, companyId, terms, newId, now));
    var existing := First(db.offers, OfCompany(companyId));
    SubmitOnRow(u, k, if existing.Some? then Some(existing.value.status) else None, now);
  }

  lemma OfferStep(w: World, a: Action)
    requires Inv(w) && w.store.Live? && a.OfferAction? && Enabled(w, a)
    ensures var next := Next(w, a); Inv(next) && Advances(w, next)
  {
    var db := w.store.db;
    forall i | 0 <= i < |db.offers| ensures db.offers[i].id != a.newId {}
    var k := SubmitMeans(db, a.companyId, a.terms, a.newId, a.now);
    var r := SubmitOfferTx(db, a.companyId, a.terms, a.newId, a.now);
    if r.Ok? {
      OfferCommitted(w, a, r.value, k);
    } else {
      IssuedGrows(w, a.newId);
    }
  }

  /** Giving out an identifier changes nothing else. */
  lemma IssuedGrows(w: World, newId: Id)
    requires Inv(w)
    ensures var next := w.(issued := w.issued + {newId}); Inv(next) && Advances(w, next)
  {
    if w.store.Live? {
      OnlyRoundsChanged(w, w.store.db, w.issued + {newId}, w.uploads);
    }
  }

  lemma OfferCommitted(w: World, a: Action, r: AppliedTransition, k: int)
    requires Inv(w) && w.store.Live? && a.OfferAction? && Enabled(w, a)
    requires var db := w.store.db;
      var u := db.(offers := Upsert(db.offers, a.companyId, a.terms, a.newId, a.now));
      AcceptsOffers(db.order.status) && MaySend(First(db.offers, OfCompany(a.companyId))) &&
      Upserted(db.offers, a.companyId, a.terms, a.newId, a.now, r.db.offers, k) &&
      UniqueOffers(r.db.offers) && Resubmitted(u, r, k, a.now)
    ensures var next := w.(store := Live(r.db), log := w.log + [LogEntry(OrderEventType.OfferSubmitted, r.offerId)],
                           issued := w.issued + {a.newId});
      Inv(next) && Advances(w, next)
  {
    var db := w.store.db;
    SubmittedDeal(db, r.db, a, k);
    SubmittedRows(db, r.db, a, k, w.log, w.issued);
    SubmittedRounds(db, r.db, w.log, w.issued, a.newId, r.offerId);
  }

  lemma SubmittedDeal(d: Db, e: Db, a: Action, k: int)
    requires a.OfferAction? && DealOk(d) && AcceptsOffers(d.order.status)
    requires Upserted(d.offers, a.companyId, a.terms, a.newId, a.now, e.offers, k)
    requires e.order.status.AwaitingConfirmation? && e.order.price == d.order.price && e.order.deadline == d.order.deadline
    ensures DealOk(e) && DealKept(d, e)
  {
    assert e.offers[k].status.Sent?;
  }

  lemma SubmittedRounds(d: Db, e: Db, log: seq<LogEntry>, issued: set<Id>, newId: Id, offerId: Id)
    requires RoundsOk(d, log, issued) && AcceptsOffers(d.order.status) && AcceptsOffers(e.order.status)
    requires e.submissions == d.submissions
    ensures RoundsOk(e, log + [LogEntry(OrderEventType.OfferSubmitted, offerId)], issued + {newId})
  {
    LogGrows(log, LogEntry(OrderEventType.OfferSubmitted, offerId));
  }

  lemma SubmittedRows(d: Db, e: Db, a: Action, k: int, log: seq<LogEntry>, issued: set<Id>)
    requires a.OfferAction? && a.companyId.role.Company? && a.newId !in issued
    requires OffersOk(d, issued) && BudgetOk(d.offers, log, issued) && MaySend(First(d.offers, OfCompany(a.companyId)))
    requires Upserted(d.offers, a.companyId, a.terms, a.newId, a.now, e.offers, k) && UniqueOffers(e.offers)
    requires e.order.clientId == d.order.clientId
    ensures OffersOk(e, issued + {a.newId})
    ensures BudgetOk(e.offers, log + [LogEntry(OrderEventType.OfferSubmitted, e.offers[k].id)], issued + {a.newId})
    ensures FinalRefusalsKept(d, e) && IdsNotReused(d, e, issued)
  {
    SubmittedCounters(d, e, a, k, log, issued);
    if First(d.offers, OfCompany(a.companyId)).Some? {
      OwnRow(d.offers, a.companyId, k);
      RowsMatchById(d, e, issued);
    } else {
      AddedRow(d, e, issued);
    }
  }

  lemma OwnRow(offers: seq<OfferRow>, companyId: UserId, k: int)
    requires UniqueOffers(offers) && 0 <= k < |offers| && offers[k].companyId == companyId
    ensures First(offers, OfCompany(companyId)) == Some(offers[k])
  {
    assert offers[k] in offers;
    TheOffer(offers, offers[k]);
  }

  /** Sending counts as no refusal, and whoever may send has not used up the refusals. */
  lemma SubmittedCounters(d: Db, e: Db, a: Action, k: int, log: seq<LogEntry>, issued: set<Id>)
    requires a.OfferAction? && a.newId !in issued && UniqueOffers(d.offers)
    requires BudgetOk(d.offers, log, issued) && MaySend(First(d.offers, OfCompany(a.companyId)))
    requires Upserted(d.offers, a.companyId, a.terms, a.newId, a.now, e.offers, k)
    ensures BudgetOk(e.offers, log + [LogEntry(OrderEventType.OfferSubmitted, e.offers[k].id)], issued + {a.newId})
  {
    LogGrows(log, LogEntry(OrderEventType.OfferSubmitted, e.offers[k].id));
    if First(d.offers, OfCompany(a.companyId)).Some? {
      OwnRow(d.offers, a.companyId, k);
    }
  }

  /** A row appended under a new identifier touches no other. */
  lemma AddedRow(d: Db, e: Db, issued: set<Id>)
    requires UniqueOffers(e.offers) && |e.offers| == |d.offers| + 1 && e.offers[..|d.offers|] == d.offers
    requires e.offers[|d.offers|].id !in issued
    ensures FinalRefusalsKept(d, e) && IdsNotReused(d, e, issued)
  {
    forall i | 0 <= i < |d.offers| ensures e.offers[i] == d.offers[i] {
      assert e.offers[..|d.offers|][i] == d.offers[i];
    }
    forall p | p in e.offers && p.id in issued ensures HasOffer(d.offers, p.id) {
      var i :| 0 <= i < |e.offers| && e.offers[i] == p;
      assert d.offers[i].id == p.id;
    }
    forall o, p | o in d.offers && FinalRefusal(o) && p in e.offers && p.id == o.id ensures p == o {
      var i :| 0 <= i < |d.offers| && d.offers[i] == o;
      var j :| 0 <= j < |e.offers| && e.offers[j] == p;
      assert i == j;
    }
  }
}
