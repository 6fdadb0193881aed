/** The version check of acceptance: which terms an acceptance closes on, over any run between
    the moment the client saw an offer and the moment it accepts it. */
module OfferVersions {
  import opened Collections
  import opened SharedRules
  import opened OrderStateMachine
  import opened OrderRecords
  import opened OrderTransitions
  import opened TransitionMeaning
  import opened OrderWorkflow
  import opened OrderProtocol
  import opened OrderInvariants
  import opened OfferSubmission
  import opened SubmissionRounds
  import opened OrderRuns

  datatype Edit = Edit(moment: Moment, terms: OfferTerms)

  /** The step commits an edit of offer `id`, which is `company`'s. */
  ghost predicate Edits(w: World, a: Action, id: Id, company: UserId) {
    w.store.Live? && a.OfferAction? && a.companyId == company && HasOffer(w.store.db.offers, id) &&
    SubmitOfferTx(w.store.db, a.companyId, a.terms, a.newId, a.now).Ok?
  }

  ghost function EditOf(w: World, a: Action, id: Id, company: UserId): Option<Edit> {
    if Edits(w, a, id, company) then Some(Edit(a.now, a.terms)) else None
  }

  /** The last edit of the offer that the run commits. */
  ghost function LastEdit(w: World, actions: seq<Action>, id: Id, company: UserId): Option<Edit>
    requires ValidRun(w, actions)
    decreases |actions|
  {
    if actions == [] then None
    else
      var later := LastEdit(Next(w, actions[0]), actions[1..], id, company);
      if later.Some? then later else EditOf(w, actions[0], id, company)
  }

  /** Row `p` is row `o` after `last`, or still with its own terms. */
  predicate VersionAfter(o: OfferRow, p: OfferRow, last: Option<Edit>) {
    p.id == o.id && p.companyId == o.companyId &&
    match last
    case None =>
      p.editedAt == o.editedAt && p.proposedPrice == o.proposedPrice &&
      p.proposedDeadline == o.proposedDeadline && p.comment == o.comment
    case Some(edit) =>
      p.editedAt == Some(edit.moment) && p.proposedPrice == edit.terms.price &&
      p.proposedDeadline == edit.terms.deadline && p.comment == edit.terms.comment
  }

  // ---------------------------------------------------------- one step

  lemma MovedVersion(db: Db, command: TransitionCommand, offer: OfferRow, now: Moment, after: Db, o: OfferRow, p: OfferRow)
    requires UniqueOffers(db.offers) && Moved(db, command, offer, now, after)
    requires o in db.offers && p in after.offers && p.id == o.id
    ensures VersionAfter(o, p, None)
  {
    var i :| 0 <= i < |db.offers| && db.offers[i] == o;
    var j :| 0 <= j < |after.offers| && after.offers[j] == p;
    assert p == OfferAfter(db.offers[j], command, offer.id);
    assert i == j;
  }

  lemma KeptVersion(offers: seq<OfferRow>, o: OfferRow, p: OfferRow)
    requires UniqueOffers(offers) && o in offers && p in offers && p.id == o.id
    ensures VersionAfter(o, p, None)
  {
    TheOffer(offers, o);
    TheOffer(offers, p);
  }

  lemma UpsertedVersion(offers: seq<OfferRow>, a: Action, after: seq<OfferRow>, k: int, o: OfferRow, p: OfferRow)
    requires a.OfferAction? && UniqueOffers(offers) && UniqueOffers(after)
    requires Upserted(offers, a.companyId, a.terms, a.newId, a.now, after, k)
    requires o in offers && p in after && p.id == o.id
    ensures VersionAfter(o, p, if o.companyId == a.companyId then Some(Edit(a.now, a.terms)) else None)
  {
    var i :| 0 <= i < |offers| && offers[i] == o;
    var j :| 0 <= j < |after| && after[j] == p;
    assert after[i].id == offers[i].id;
    assert i == j;
    if o.companyId == a.companyId {
      TheOffer(offers, o);
      assert i == k;
    }
  }

  lemma NewIdIsNew(db: Db, issued: set<Id>, newId: Id)
    requires OffersOk(db, issued) && newId !in issued
    ensures forall i :: 0 <= i < |db.offers| ==> db.offers[i].id != newId
  {
  }

  lemma OfferVersion(w: World, a: Action, o: OfferRow, p: OfferRow)
    requires Inv(w) && w.store.Live? && a.OfferAction? && Enabled(w, a)
    requires o in w.store.db.offers && Next(w, a).store.Live? && p in Next(w, a).store.db.offers && p.id == o.id
    ensures VersionAfter(o, p, EditOf(w, a, o.id, o.companyId))
  {
    var db := w.store.db;
    NewIdIsNew(db, w.issued, a.newId);
    var k := SubmitMeans(db, a.companyId, a.terms, a.newId, a.now);
    var r := SubmitOfferTx(db, a.companyId, a.terms, a.newId, a.now);
    if r.Ok? {
      UpsertedVersion(db.offers, a, r.value.db.offers, k, o, p);
    } else {
      KeptVersion(db.offers, o, p);
    }
  }

  lemma CommandVersion(w: World, a: Action, o: OfferRow, p: OfferRow)
    requires Inv(w) && w.store.Live? && a.CommandAction? && Enabled(w, a)
    requires o in w.store.db.offers && Next(w, a).store.Live? && p in Next(w, a).store.db.offers && p.id == o.id
    ensures VersionAfter(o, p, None)
  {
    var db := w.store.db;
    TransitionMeans(db, a.command, a.now);
    var r := Transact(db, a.command, a.now);
    if r.Ok? {
      MovedVersion(db, a.command, ResolveOffer(db, a.command).value, a.now, r.value.db, o, p);
    } else {
      KeptVersion(db.offers, o, p);
    }
  }

  lemma WorkVersion(w: World, now: Moment, o: OfferRow, p: OfferRow)
    requires Inv(w) && w.store.Live? && o in w.store.db.offers
    requires var next := Next(w, SubmitWorkAction(now)); next.store.Live? && p in next.store.db.offers && p.id == o.id
    ensures VersionAfter(o, p, None)
  {
    var db := w.store.db;
    var k := SubmitWorkMeans(db, w.issued, now);
    var r := SubmitWorkTx(db, now);
    if r.Ok? {
      MovedVersion(db, SubmitWork, db.offers[k], now, r.value.db.(submissions := db.submissions), o, p);
    } else {
      KeptVersion(db.offers, o, p);
    }
  }

  lemma OtherVersion(w: World, a: Action, o: OfferRow, p: OfferRow)
    requires Inv(w) && w.store.Live? && Enabled(w, a)
    requires !a.OfferAction? && !a.CommandAction? && !a.SubmitWorkAction?
    requires o in w.store.db.offers && Next(w, a).store.Live? && p in Next(w, a).store.db.offers && p.id == o.id
    ensures VersionAfter(o, p, None)
  {
    assert a.DemoReset? || Next(w, a).store.db.offers == w.store.db.offers;
    KeptVersion(w.store.db.offers, o, p);
  }

  lemma StepVersion(w: World, a: Action, o: OfferRow, p: OfferRow)
    requires Inv(w) && w.store.Live? && Enabled(w, a)
    requires o in w.store.db.offers && Next(w, a).store.Live? && p in Next(w, a).store.db.offers && p.id == o.id
    ensures VersionAfter(o, p, EditOf(w, a, o.id, o.companyId))
  {
    if a.OfferAction? {
      OfferVersion(w, a, o, p);
    } else if a.CommandAction? {
      CommandVersion(w, a, o, p);
    } else if a.SubmitWorkAction? {
      WorkVersion(w, a.now, o, p);
    } else {
      OtherVersion(w, a, o, p);
    }
  }

  // --------------------------------------------------------------- runs

  /** A row known from before that is there at the end was there in between. */
  lemma RowBetween(v: World, w: World, p: OfferRow) returns (o: OfferRow)
    requires Advances(v, w) && w.store.Live? && p in w.store.db.offers && p.id in v.issued
    ensures v.store.Live? && o in v.store.db.offers && o.id == p.id
  {
    assert HasOffer(v.store.db.offers, p.id);
    var j :| 0 <= j < |v.store.db.offers| && v.store.db.offers[j].id == p.id;
    o := v.store.db.offers[j];
  }

  /** Over any run an offer carries the terms and the moment of the last edit committed, or its
      own if there was none. */
  lemma {:induction false} LastEditDecides(w: World, actions: seq<Action>, o: OfferRow, p: OfferRow)
    requires Inv(w) && w.store.Live? && o in w.store.db.offers && ValidRun(w, actions)
    requires Run(w, actions).store.Live? && p in Run(w, actions).store.db.offers && p.id == o.id
    ensures VersionAfter(o, p, LastEdit(w, actions, o.id, o.companyId))
    decreases |actions|
  {
    if actions == [] {
      KeptVersion(w.store.db.offers, o, p);
    } else {
      var v := Next(w, actions[0]);
      StepKeepsInvariants(w, actions[0]);
      RunsOnlyAdvance(v, actions[1..]);
      KnownId(w, o);
      var between := RowBetween(v, Run(v, actions[1..]), p);
      StepVersion(w, actions[0], o, between);
      LastEditDecides(v, actions[1..], between, p);
    }
  }

  lemma KnownId(w: World, o: OfferRow)
    requires Inv(w) && w.store.Live? && o in w.store.db.offers
    ensures o.id in w.issued
  {
    var i :| 0 <= i < |w.store.db.offers| && w.store.db.offers[i] == o;
  }

  // ------------------------------------------------------------ sendings

  /** A committed sending of an offer; the first one has no edit moment. */
  datatype Sending = Sending(offerId: Id, company: UserId, terms: OfferTerms, editedAt: Option<Moment>)

  ghost function SendingOf(w: World, a: Action): Option<Sending> {
    if !w.store.Live? || !a.OfferAction? then None
    else
      var r := SubmitOfferTx(w.store.db, a.companyId, a.terms, a.newId, a.now);
      if r.Err? then None
      else
        Some(Sending(r.value.offerId, a.companyId, a.terms,
                     if HasOffer(w.store.db.offers, r.value.offerId) then Some(a.now) else None))
  }

  /** The last sending of the offer that the run commits, first one included. */
  ghost function LastSending(w: World, actions: seq<Action>, id: Id): Option<Sending>
    requires ValidRun(w, actions)
    decreases |actions|
  {
    if actions == [] then None
    else
      var later := LastSending(Next(w, actions[0]), actions[1..], id);
      var own := SendingOf(w, actions[0]);
      if later.Some? then later
      else if own.Some? && own.value.offerId == id then own
      else None
  }

  predicate SentAs(p: OfferRow, s: Sending) {
    p.id == s.offerId && p.companyId == s.company && p.editedAt == s.editedAt &&
    p.proposedPrice == s.terms.price && p.proposedDeadline == s.terms.deadline && p.comment == s.terms.comment
  }

  /** Right after a sending the row is what was sent; every other row has a predecessor. */
  lemma SendingStep(w: World, a: Action, k: int, p: OfferRow)
    requires w.store.Live? && a.OfferAction? && OffersOk(w.store.db, w.issued) && a.newId !in w.issued
    requires var r := SubmitOfferTx(w.store.db, a.companyId, a.terms, a.newId, a.now);
      r.Ok? && Upserted(w.store.db.offers, a.companyId, a.terms, a.newId, a.now, r.value.db.offers, k) &&
      UniqueOffers(r.value.db.offers) && r.value.offerId == r.value.db.offers[k].id && p in r.value.db.offers
    ensures var s := SendingOf(w, a);
      s.Some? && if s.value.offerId == p.id then SentAs(p, s.value) else p in w.store.db.offers
  {
    var offers, r := w.store.db.offers, SubmitOfferTx(w.store.db, a.companyId, a.terms, a.newId, a.now).value;
    NewIdIsNew(w.store.db, w.issued, a.newId);
    var j :| 0 <= j < |r.db.offers| && r.db.offers[j] == p;
    assert r.offerId == p.id ==> j == k;
    if k < |offers| {
      assert offers[k].id == r.offerId;
    }
  }

  /** A row that a step other than a sending leaves was there before it. */
  lemma RowWasThere(w: World, a: Action, p: OfferRow) returns (o: OfferRow)
    requires Inv(w) && w.store.Live? && Enabled(w, a) && SendingOf(w, a).None?
    requires Next(w, a).store.Live? && p in Next(w, a).store.db.offers
    ensures o in w.store.db.offers && VersionAfter(o, p, None)
  {
    StepKeepsInvariants(w, a);
    if a.OfferAction? || a.OpenUpload? {
      assert Next(w, a).store.db.offers == w.store.db.offers;
      o := p;
    } else {
      KnownId(Next(w, a), p);
      IssuedStays(w, a);
      o := RowBetween(w, Next(w, a), p);
      StepVersion(w, a, o, p);
    }
  }

  lemma IssuedStays(w: World, a: Action)
    requires Enabled(w, a) && !a.OfferAction? && !a.OpenUpload?
    ensures Next(w, a).issued == w.issued
  {
  }

  lemma SentOrThere(w: World, a: Action, p: OfferRow)
    requires Inv(w) && w.store.Live? && Enabled(w, a)
    requires Next(w, a).store.Live? && p in Next(w, a).store.db.offers
    ensures var s := SendingOf(w, a);
      if s.Some? && s.value.offerId == p.id then SentAs(p, s.value)
      else exists o :: o in w.store.db.offers && VersionAfter(o, p, None)
  {
    if SendingOf(w, a).Some? {
      NewIdIsNew(w.store.db, w.issued, a.newId);
      var k := SubmitMeans(w.store.db, a.companyId, a.terms, a.newId, a.now);
      SendingStep(w, a, k, p);
      assert VersionAfter(p, p, None);
    } else {
      var o := RowWasThere(w, a, p);
    }
  }

  /** Over any run an offer carries what its last sending sent, the first sending included; one
      that the run never sends is as it was. */
  lemma {:induction false} LastSendingDecides(w: World, actions: seq<Action>, p: OfferRow)
    requires Inv(w) && w.store.Live? && ValidRun(w, actions)
    requires Run(w, actions).store.Live? && p in Run(w, actions).store.db.offers
    ensures var last := LastSending(w, actions, p.id);
      if last.Some? then SentAs(p, last.value) else exists o :: o in w.store.db.offers && VersionAfter(o, p, None)
    decreases |actions|
  {
    if actions == [] {
      assert VersionAfter(p, p, None);
    } else {
      var v, rest := Next(w, actions[0]), actions[1..];
      StepKeepsInvariants(w, actions[0]);
      RunsOnlyAdvance(v, rest);
      LastSendingDecides(v, rest, p);
      if LastSending(v, rest, p.id).None? {
        var between :| between in v.store.db.offers && VersionAfter(between, p, None);
        SentOrThere(w, actions[0], between);
        SentThenKept(w, actions[0], between, p);
      }
    }
  }

  lemma SentThenKept(w: World, a: Action, between: OfferRow, p: OfferRow)
    requires w.store.Live? && VersionAfter(between, p, None)
    requires var s := SendingOf(w, a);
      if s.Some? && s.value.offerId == between.id then SentAs(between, s.value)
      else exists o :: o in w.store.db.offers && VersionAfter(o, between, None)
    ensures var s := SendingOf(w, a);
      if s.Some? && s.value.offerId == p.id then SentAs(p, s.value)
      else exists o :: o in w.store.db.offers && VersionAfter(o, p, None)
  {
    var s := SendingOf(w, a);
    if !(s.Some? && s.value.offerId == between.id) {
      var o :| o in w.store.db.offers && VersionAfter(o, between, None);
      assert VersionAfter(o, p, None);
    }
  }

  /** From a new order on every offer carries the terms of its last committed sending. */
  lemma OffersCarryWhatWasSent(w: World, actions: seq<Action>, p: OfferRow)
    requires Init(w) && ValidRun(w, actions)
    requires Run(w, actions).store.Live? && p in Run(w, actions).store.db.offers
    ensures var last := LastSending(w, actions, p.id); last.Some? && SentAs(p, last.value)
  {
    InitIsOk(w);
    LastSendingDecides(w, actions, p);
  }

  /** Acceptance takes the terms of a pending row whose edit moment is the one presented. */
  lemma AcceptMeans(db: Db, p: OfferRow, seen: Option<Moment>, now: Moment)
    requires UniqueOffers(db.offers) && NoDuplicateUnread(db.notes) && p in db.offers
    ensures var r := Transact(db, AcceptOffer(p.id, seen), now);
      (r.Ok? <==> (db.order.status.AwaitingConfirmation? && p.status.Sent? && p.editedAt == seen &&
                   !IsOfferExpired(p.proposedDeadline, UtcCalendarDate(now)))) &&
      (r.Ok? ==> r.value.db.order.price == Some(p.proposedPrice) && r.value.db.order.deadline == Some(p.proposedDeadline))
  {
    TheOffer(db.offers, p);
    TransitionMeans(db, AcceptOffer(p.id, seen), now);
  }

  lemma AcceptedRowExists(db: Db, id: Id, seen: Option<Moment>, now: Moment) returns (p: OfferRow)
    requires Transact(db, AcceptOffer(id, seen), now).Ok?
    ensures p in db.offers && p.id == id
  {
    p := First(db.offers, WithId(id)).value;
  }

  /** The client saw offer `o`, anything ran in between, and acceptance with the edit moment it
      saw went through. It closed on other terms than those seen if and only if the last edit
      committed in between carries that very moment and another price or deadline. */
  lemma UnseenTermsIff(w: World, actions: seq<Action>, o: OfferRow, now: Moment)
    requires Inv(w) && w.store.Live? && o in w.store.db.offers && ValidRun(w, actions)
    ensures Run(w, actions).store.Live? ==>
      var r, last := Transact(Run(w, actions).store.db, AcceptOffer(o.id, o.editedAt), now),
                     LastEdit(w, actions, o.id, o.companyId);
      r.Ok? ==> (ClosedOnOther(r.value.db.order, o) <==> HiddenEdit(last, o))
  {
    if Run(w, actions).store.Live? {
      var db := Run(w, actions).store.db;
      if Transact(db, AcceptOffer(o.id, o.editedAt), now).Ok? {
        var p := AcceptedRowExists(db, o.id, o.editedAt, now);
        ReachableWorldsAreOk(w, actions);
        LastEditDecides(w, actions, o, p);
        AcceptMeans(db, p, o.editedAt, now);
      }
    }
  }

  predicate ClosedOnOther(order: OrderRow, o: OfferRow) {
    order.price != Some(o.proposedPrice) || order.deadline != Some(o.proposedDeadline)
  }

  predicate HiddenEdit(last: Option<Edit>, o: OfferRow) {
    last.Some? && Some(last.value.moment) == o.editedAt &&
    (last.value.terms.price != o.proposedPrice || last.value.terms.deadline != o.proposedDeadline)
  }

  /** The company of `o` never edits at the moment the client has seen. */
  predicate MomentNotReused(actions: seq<Action>, o: OfferRow) {
    forall i | 0 <= i < |actions| && actions[i].OfferAction? && actions[i].companyId == o.companyId ::
      Some(actions[i].now) != o.editedAt
  }

  lemma {:induction false} LastEditIsInRun(w: World, actions: seq<Action>, id: Id, company: UserId)
    requires ValidRun(w, actions)
    ensures var last := LastEdit(w, actions, id, company);
      last.Some? ==> exists i :: 0 <= i < |actions| && actions[i].OfferAction? && actions[i].companyId == company &&
                                 actions[i].now == last.value.moment
    decreases |actions|
  {
    if actions != [] {
      LastEditIsInRun(Next(w, actions[0]), actions[1..], id, company);
      if LastEdit(Next(w, actions[0]), actions[1..], id, company).Some? {
        var last := LastEdit(Next(w, actions[0]), actions[1..], id, company).value;
        var i :| 0 <= i < |actions[1..]| && actions[1..][i].OfferAction? && actions[1..][i].companyId == company &&
                 actions[1..][i].now == last.moment;
        assert actions[i + 1] == actions[1..][i];
      }
    }
  }

  /** With distinct edit moments of the one offer, in whatever order the clock gives them, the
      accepted terms are the version the client saw. */
  lemma AcceptedTermsWereSeen(w: World, actions: seq<Action>, o: OfferRow, now: Moment)
    requires Inv(w) && w.store.Live? && o in w.store.db.offers && ValidRun(w, actions)
    requires MomentNotReused(actions, o)
    ensures Run(w, actions).store.Live? ==>
      var r := Transact(Run(w, actions).store.db, AcceptOffer(o.id, o.editedAt), now);
      r.Ok? ==>
        r.value.db.order.price == Some(o.proposedPrice) && r.value.db.order.deadline == Some(o.proposedDeadline)
  {
    UnseenTermsIff(w, actions, o, now);
    LastEditIsInRun(w, actions, o.id, o.companyId);
  }

  // ------------------------------------------------------- one edit

  /** A pending offer seen at `seen` is edited at `stamp`: acceptance that presents `seen` goes
      through exactly when the stamp repeats that moment and the new deadline has not passed,
      and then it closes on the new terms. */
  lemma EditGoesUnnoticedIff(db: Db, k: int, seen: Option<Moment>, terms: OfferTerms, newId: Id, stamp: Moment, now: Moment)
    requires UniqueOffers(db.offers) && NoDuplicateUnread(db.notes) && db.order.status.AwaitingConfirmation?
    requires 0 <= k < |db.offers| && db.offers[k].status.Sent? && db.offers[k].editedAt == seen
    requires forall i :: 0 <= i < |db.offers| ==> db.offers[i].id != newId
    ensures var edit := SubmitOfferTx(db, db.offers[k].companyId, terms, newId, stamp);
      edit.Ok? && UnnoticedIff(edit.value.db, db.offers[k].id, seen, stamp, terms, now)
  {
    var row := db.offers[k];
    assert row in db.offers;
    TheOffer(db.offers, row);
    var m := SubmitMeans(db, row.companyId, terms, newId, stamp);
    EditedRowAnswers(db, k, m, seen, terms, newId, stamp, now, SubmitOfferTx(db, row.companyId, terms, newId, stamp).value.db);
  }

  predicate UnnoticedIff(edited: Db, id: Id, seen: Option<Moment>, stamp: Moment, terms: OfferTerms, now: Moment) {
    var r := Transact(edited, AcceptOffer(id, seen), now);
    (r.Ok? <==> Some(stamp) == seen && !IsOfferExpired(terms.deadline, UtcCalendarDate(now))) &&
    (r.Ok? ==> r.value.db.order.price == Some(terms.price) && r.value.db.order.deadline == Some(terms.deadline))
  }

  lemma EditedRowAnswers(db: Db, k: int, m: int, seen: Option<Moment>, terms: OfferTerms, newId: Id, stamp: Moment,
                         now: Moment, edited: Db)
    requires UniqueOffers(db.offers) && 0 <= k < |db.offers| && UniqueOffers(edited.offers)
    requires NoDuplicateUnread(edited.notes) && edited.order.status.AwaitingConfirmation?
    requires Upserted(db.offers, db.offers[k].companyId, terms, newId, stamp, edited.offers, m)
    ensures UnnoticedIff(edited, db.offers[k].id, seen, stamp, terms, now)
  {
    assert db.offers[k] in db.offers;
    assert m == k;
    assert edited.offers[k] in edited.offers;
    AcceptMeans(edited, edited.offers[k], seen, now);
  }
}
