/** The remaining steps, the step theorem for all actions, and what follows over whole runs. */
module OrderRuns {
  import opened Collections
  import opened SharedRules
  import opened OrderStateMachine
  import opened OrderRecords
  import opened OrderTransitions
  import opened TransitionMeaning
  import opened OrderWorkflow
  import opened OrderProtocol
  import opened OrderInvariants
  import opened OfferSubmission
  import opened SubmissionRounds

  // ------------------------------------------------------- other steps

  lemma AreaStep(w: World, a: Action)
    requires Inv(w) && w.store.Live? && a.VerifyArea?
    ensures var next := Next(w, a); Inv(next) && Advances(w, next)
  {
    var db := w.store.db;
    var r := VerifyAreaTx(db, a.area, a.now);
    if r.Ok? && db.order.verifiedSquareMeters != Some(a.area) {
      AreaStored(w, a.area, a.now);
    } else {
      assert Next(w, a) == w;
      Stutters(w);
    }
  }

  lemma AreaStored(w: World, area: real, now: Moment)
    requires Inv(w) && w.store.Live?
    ensures var db := w.store.db;
      var e := db.(order := db.order.(verifiedSquareMeters := Some(area), updatedAt := now),
                   notes := Replace(db.notes, [AreaNotice(db.order)]));
      Inv(w.(store := Live(e))) && Advances(w, w.(store := Live(e)))
  {
    var db := w.store.db;
    var e := db.(order := db.order.(verifiedSquareMeters := Some(area), updatedAt := now),
                 notes := Replace(db.notes, [AreaNotice(db.order)]));
    ReplaceKeepsNotes(db.notes, [AreaNotice(db.order)]);
    RoundsUntouched(db, e, w);
    OnlyRoundsChanged(w, e, w.issued, w.uploads);
  }

  lemma RoundsUntouched(d: Db, e: Db, w: World)
    requires RoundsOk(d, w.log, w.issued) && FilesOk(d) && UploadsOk(d, w.uploads)
    requires e.submissions == d.submissions && e.files == d.files && e.order.status == d.order.status
    ensures RoundsOk(e, w.log, w.issued) && FilesOk(e) && UploadsOk(e, w.uploads) && ClosedRoundsKept(d, e)
  {
    forall q | q in w.uploads ensures AimsAtRound(e, w.uploads[q]) {
      assert AimsAtRound(d, w.uploads[q]);
    }
  }

  lemma MarkReadKeepsNotes(notes: seq<NotificationRow>, index: nat)
    requires NoDuplicateUnread(notes)
    ensures NoDuplicateUnread(MarkedRead(notes, index))
  {
  }

  lemma DeletionKeepsNotes(db: Db)
    requires NoDuplicateUnread(db.notes)
    ensures NoDuplicateUnread(db.notes + DeletedNotices(Filter(db.offers, ActiveOffers())))
  {
  }

  lemma NotesStored(w: World, notes: seq<NotificationRow>)
    requires Inv(w) && w.store.Live? && NoDuplicateUnread(notes)
    ensures var next := w.(store := Live(w.store.db.(notes := notes))); Inv(next) && Advances(w, next)
  {
    var e := w.store.db.(notes := notes);
    RoundsUntouched(w.store.db, e, w);
    OnlyRoundsChanged(w, e, w.issued, w.uploads);
  }

  lemma MarkStep(w: World, index: nat)
    requires Inv(w) && w.store.Live?
    ensures var next := Next(w, MarkRead(index)); Inv(next) && Advances(w, next)
  {
    MarkReadKeepsNotes(w.store.db.notes, index);
    NotesStored(w, MarkedRead(w.store.db.notes, index));
    assert Next(w, MarkRead(index)) == w.(store := Live(w.store.db.(notes := MarkedRead(w.store.db.notes, index))));
  }

  lemma MarkAfterDeletion(w: World, index: nat)
    requires Inv(w) && w.store.Deleted?
    ensures var next := Next(w, MarkRead(index)); Inv(next) && Advances(w, next)
  {
    MarkReadKeepsNotes(w.store.notes, index);
  }

  // -------------------------------------------------------- demo reset

  /** Removing inactive offers leaves order and offers in lockstep: the status of an order
      never rests on an inactive offer. */
  lemma ResetKeepsDeal(db: Db, demo: set<UserId>)
    requires DealOk(db)
    ensures DealOk(DemoResetTx(db, demo)) && DealKept(db, DemoResetTx(db, demo))
  {
    var e := DemoResetTx(db, demo);
    forall j | 0 <= j < |e.offers| ensures e.offers[j] in db.offers {
      assert e.offers[j] in e.offers;
    }
    if AcceptsOffers(db.order.status) {
      if db.order.status.AwaitingConfirmation? {
        var j :| 0 <= j < |db.offers| && db.offers[j].status.Sent?;
        assert db.offers[j] in e.offers;
      }
    } else {
      var i :| HeldBy(db, i);
      ResetKeepsExecutor(db, demo, i);
    }
    forall i | HeldBy(db, i) ensures exists j :: HeldBy(e, j) && SameDeal(db, i, e, j) {
      ResetKeepsExecutor(db, demo, i);
    }
  }

  lemma ResetKeepsExecutor(db: Db, demo: set<UserId>, i: int)
    requires HeldBy(db, i)
    ensures exists j :: HeldBy(DemoResetTx(db, demo), j) && SameDeal(db, i, DemoResetTx(db, demo), j)
  {
    var e := DemoResetTx(db, demo);
    var j := FilterKeepsPlace(db.offers, SurvivesReset(demo), i);
    forall k | 0 <= k < |e.offers| && k != j
      ensures LeftByChoice(e.offers[k].status) || e.offers[k].status.NotAccepted?
    {
      var m :| 0 <= m < |db.offers| && m != i && db.offers[m] == e.offers[k];
    }
    assert HeldBy(e, j);
    forall o | o in e.offers && o.id != e.offers[j].id ensures o in db.offers {}
    assert SameDeal(db, i, e, j);
  }

  lemma ResetKeepsRows(db: Db, demo: set<UserId>, log: seq<LogEntry>, issued: set<Id>)
    requires OffersOk(db, issued) && BudgetOk(db.offers, log, issued)
    ensures var e := DemoResetTx(db, demo);
      OffersOk(e, issued) && BudgetOk(e.offers, log, issued) && FinalRefusalsKept(db, e) && IdsNotReused(db, e, issued)
  {
    var e := DemoResetTx(db, demo);
    FilterIsUnique(db.offers, SurvivesReset(demo));
    forall j | 0 <= j < |e.offers| ensures exists i :: 0 <= i < |db.offers| && db.offers[i] == e.offers[j] {
      assert e.offers[j] in e.offers;
    }
    forall o, p | o in db.offers && p in e.offers && p.id == o.id ensures p == o {
      TheOffer(db.offers, o);
      TheOffer(db.offers, p);
    }
  }

  lemma ResetStep(w: World, demo: set<UserId>)
    requires Inv(w) && w.store.Live? && w.store.db.order.clientId !in demo
    ensures var next := Next(w, DemoReset(demo)); Inv(next) && Advances(w, next)
  {
    var db, e := w.store.db, DemoResetTx(w.store.db, demo);
    ResetKeepsDeal(db, demo);
    ResetKeepsRows(db, demo, w.log, w.issued);
    FilterKeepsNoDuplicates(db.notes, NotOfDemo(demo));
    RoundsUntouched(db, e, w);
    assert LiveAdvances(db, e, w.issued);
  }

  // ------------------------------------------------------- every step

  /** Each step, whatever the interleaving, keeps all invariants and only advances the deal. */
  lemma StepKeepsInvariants(w: World, a: Action)
    requires Inv(w) && Enabled(w, a)
    ensures var next := Next(w, a); Inv(next) && Advances(w, next)
  {
    match w.store {
      case Deleted(_) =>
        if a.MarkRead? {
          MarkAfterDeletion(w, a.index);
        }
      case Live(db) =>
        match a {
          case OfferAction(_, _, _, _) => OfferStep(w, a);
          case CommandAction(command, now) => CommandStep(w, command, now);
          case SubmitWorkAction(now) => SubmitWorkStep(w, now);
          case OpenUpload(_, _, _, _) => OpenUploadStep(w, a);
          case DropDuplicatesOf(_) => PrepareStep(w, a);
          case InsertFiles(_, _) => InsertStep(w, a);
          case SaveCommentOnly(_) => CommentStep(w, a);
          case AbandonUpload(request) => Dropped(w, Without(w.uploads, request));
          case AttachTaskFiles(_, _) => AttachStep(w, a);
          case VerifyArea(_, _) => AreaStep(w, a);
          case DeleteOrder => DeleteStep(w);
          case DemoReset(demo) => ResetStep(w, demo);
          case MarkRead(index) => MarkStep(w, index);
        }
    }
  }

  lemma PrepareStep(w: World, a: Action)
    requires Inv(w) && w.store.Live? && a.DropDuplicatesOf? && Enabled(w, a)
    ensures var next := Next(w, a); Inv(next) && Advances(w, next)
  {
    var next := Next(w, a);
    RoundsUntouched(w.store.db, w.store.db, w);
    forall q | q in next.uploads ensures AimsAtRound(w.store.db, next.uploads[q]) {
      assert AimsAtRound(w.store.db, w.uploads[q]);
    }
    OnlyRoundsChanged(w, w.store.db, w.issued, next.uploads);
  }

  lemma DeleteStep(w: World)
    requires Inv(w) && w.store.Live?
    ensures var next := Next(w, DeleteOrder); Inv(next) && Advances(w, next)
  {
    var db := w.store.db;
    if CanDeleteOrder(db.order.status) {
      DeletionKeepsNotes(db);
      assert Next(w, DeleteOrder) ==
        w.(store := Deleted(db.notes + DeletedNotices(Filter(db.offers, ActiveOffers()))));
    } else {
      assert Next(w, DeleteOrder) == w;
      Stutters(w);
    }
  }

  // ------------------------------------------------------------- runs

  /** Every action of the run is possible where it happens. */
  predicate ValidRun(w: World, actions: seq<Action>)
    decreases |actions|
  {
    actions == [] || (Enabled(w, actions[0]) && ValidRun(Next(w, actions[0]), actions[1..]))
  }

  function Run(w: World, actions: seq<Action>): World
    requires ValidRun(w, actions)
    decreases |actions|
  {
    if actions == [] then w else Run(Next(w, actions[0]), actions[1..])
  }

  /** Every reachable world satisfies the invariants. */
  lemma {:induction false} ReachableWorldsAreOk(w: World, actions: seq<Action>)
    requires (Init(w) || Inv(w)) && ValidRun(w, actions)
    ensures Inv(Run(w, actions))
    decreases |actions|
  {
    if Init(w) {
      InitIsOk(w);
    }
    if actions != [] {
      StepKeepsInvariants(w, actions[0]);
      ReachableWorldsAreOk(Next(w, actions[0]), actions[1..]);
    }
  }

  lemma InitIsOk(w: World)
    requires Init(w)
    ensures Inv(w)
  {
  }

  lemma AdvancesIsTransitive(u: World, v: World, w: World)
    requires Inv(u) && Advances(u, v) && Advances(v, w)
    ensures Advances(u, w)
  {
    if u.store.Live? && w.store.Live? {
      LiveAdvancesIsTransitive(u.store.db, v.store.db, w.store.db, u.issued, v.issued);
    }
  }

  lemma LiveAdvancesIsTransitive(d: Db, e: Db, f: Db, issued: set<Id>, later: set<Id>)
    requires LiveAdvances(d, e, issued) && LiveAdvances(e, f, later) && issued <= later
    requires forall i :: 0 <= i < |d.offers| ==> d.offers[i].id in issued
    ensures LiveAdvances(d, f, issued)
  {
    forall i | HeldBy(d, i) ensures exists k :: HeldBy(f, k) && SameDeal(d, i, f, k) {
      var j :| HeldBy(e, j) && SameDeal(d, i, e, j);
      var k :| HeldBy(f, k) && SameDeal(e, j, f, k);
      assert SameDeal(d, i, f, k);
    }
    forall p | p in f.offers && p.id in issued ensures HasOffer(d.offers, p.id) {
      assert HasOffer(e.offers, p.id);
      var j :| 0 <= j < |e.offers| && e.offers[j].id == p.id;
      assert e.offers[j] in e.offers;
    }
    forall o, p | o in d.offers && FinalRefusal(o) && p in f.offers && p.id == o.id ensures p == o {
      var i :| 0 <= i < |d.offers| && d.offers[i] == o;
      assert HasOffer(e.offers, p.id);
      var j :| 0 <= j < |e.offers| && e.offers[j].id == p.id;
      assert e.offers[j] in e.offers;
    }
  }

  /** Over any run: closed rounds, the deal, and final refusals never change. */
  lemma {:induction false} RunsOnlyAdvance(w: World, actions: seq<Action>)
    requires Inv(w) && ValidRun(w, actions)
    ensures Advances(w, Run(w, actions))
    decreases |actions|
  {
    if actions == [] {
      Stutters(w);
    } else {
      var v := Next(w, actions[0]);
      StepKeepsInvariants(w, actions[0]);
      RunsOnlyAdvance(v, actions[1..]);
      AdvancesIsTransitive(w, v, Run(w, actions));
    }
  }
}
