/** The order page: it knows only the projected order, and recomputes who is looking, which
    rounds there are and which buttons to show. */
module OrderPage {
  import opened Collections
  import opened SharedRules
  import opened OrderStateMachine
  import opened OrderRecords
  import opened OrderTransitions
  import opened OrderWorkflow
  import opened OrderView

  // ------------------------------------------------------------- access

  datatype OrderDetailAccess =
    OrderDetailAccess(isOwner: bool, isParty: bool, seesRealStatus: bool, clientFiles: seq<FileRow>)

  /** `viewer` is `None` when the session is lost between rendering and request. */
  function ResolveOrderDetailAccess(order: OrderDetail, viewer: Option<UserId>): OrderDetailAccess {
    var isOwner := viewer.Some? && order.client == viewer;
    var own := if viewer.Some? then First(order.offers, OfCompany(viewer.value)) else None;
    OrderDetailAccess(isOwner,
                      isOwner || (own.Some? && IsExecutorOffer(own.value.status)),
                      isOwner || (own.Some? && IsActiveOffer(own.value.status)),
                      Filter(order.files, ClientFiles()))
  }

  // ------------------------------------------------------------- rounds

  datatype SubmissionView =
    SubmissionView(round: nat, comment: string, submittedAt: Option<Moment>, files: seq<FileRow>)

  datatype SubmissionsView =
    SubmissionsView(latest: Option<SubmissionView>, history: seq<SubmissionView>, open: Option<SubmissionView>)

  function OfRound(round: nat): SubmissionDto -> bool {
    (s: SubmissionDto) => s.round == round
  }

  function ViewOf(order: OrderDetail, round: nat, files: seq<FileRow>): SubmissionView {
    var submission := First(order.submissions, OfRound(round));
    SubmissionView(round,
                   if submission.Some? then submission.value.comment else "",
                   if submission.Some? then submission.value.submittedAt else None,
                   files)
  }

  function Views(order: OrderDetail, rounds: seq<nat>): (r: seq<SubmissionView>)
    ensures |r| == |rounds|
    ensures forall i :: 0 <= i < |r| ==>
      r[i] == ViewOf(order, rounds[i], FilesOfRound(order.files, rounds[i]))
  {
    seq(|rounds|, i requires 0 <= i < |rounds| => ViewOf(order, rounds[i], FilesOfRound(order.files, rounds[i])))
  }

  function Reversed<T>(s: seq<T>): (r: seq<T>)
    ensures |r| == |s| && forall i :: 0 <= i < |s| ==> r[i] == s[|s| - 1 - i]
  {
    if s == [] then [] else Reversed(s[1..]) + [s[0]]
  }

  function Assembled(views: seq<SubmissionView>): SubmissionsView {
    if views == [] then SubmissionsView(None, [], None)
    else
      var latest := views[|views| - 1];
      SubmissionsView(Some(latest), Reversed(views[..|views| - 1]),
                      if latest.submittedAt.None? then Some(latest) else None)
  }

  /** A round is shown when it has a submission row or a company file. */
  ghost predicate HasRound(order: OrderDetail, round: nat) {
    (exists i :: 0 <= i < |order.submissions| && order.submissions[i].round == round) ||
    (exists i :: 0 <= i < |order.files| && order.files[i].ownerType.CompanyFile? && order.files[i].submissionRound == round)
  }

  ghost predicate Ascending(rounds: seq<nat>) {
    forall i, j :: 0 <= i < j < |rounds| ==> rounds[i] < rounds[j]
  }

  /** Every round there is, once, in order: this determines the result. */
  ghost predicate RoundsOf(order: OrderDetail, rounds: seq<nat>) {
    Ascending(rounds) && forall r: nat :: r in rounds <==> HasRound(order, r)
  }

  /** Two ascending lists of the same numbers are the same list. */
  lemma {:induction false} AscendingIsUnique(a: seq<nat>, b: seq<nat>)
    requires Ascending(a) && Ascending(b) && forall r: nat :: r in a <==> r in b
    ensures a == b
    decreases |a|
  {
    SomeMember(a);
    SomeMember(b);
    if a != [] {
      var m, n := |a| - 1, |b| - 1;
      SameGreatest(a, b);
      forall r: nat ensures r in a[..m] <==> r in b[..n] {
        InAllButLast(a, r);
        InAllButLast(b, r);
      }
      AscendingIsUnique(a[..m], b[..n]);
    }
  }

  lemma SomeMember(a: seq<nat>)
    ensures a != [] ==> exists r: nat :: r in a
  {
    if a != [] {
      assert a[0] in a;
    }
  }

  lemma SameGreatest(a: seq<nat>, b: seq<nat>)
    requires Ascending(a) && Ascending(b) && a != [] && b != []
    requires a[|a| - 1] in b && b[|b| - 1] in a
    ensures a[|a| - 1] == b[|b| - 1]
  {
  }

  lemma InAllButLast(a: seq<nat>, r: nat)
    requires Ascending(a) && a != []
    ensures r in a[..|a| - 1] <==> r in a && r != a[|a| - 1]
  {
    if r in a && r != a[|a| - 1] {
      var i :| 0 <= i < |a| && a[i] == r;
      assert a[..|a| - 1][i] == r;
    }
  }

  /** Sorting the keys: each new number goes to its place. */
  function Inserted(s: seq<nat>, x: nat): (r: seq<nat>)
    requires Ascending(s)
    ensures Ascending(r) && forall y: nat :: y in r <==> y in s || y == x
  {
    if s == [] then [x]
    else
      var n := |s| - 1;
      assert s == s[..n] + [s[n]];
      if s[n] == x then s
      else if s[n] < x then s + [x]
      else
        var rest := Inserted(s[..n], x);
        assert forall y: nat :: y in rest ==> y < s[n];
        assert forall i :: 0 <= i < |rest| ==> rest[i] in rest;
        rest + [s[n]]
  }

  function Sorted(keys: seq<nat>): (r: seq<nat>)
    ensures Ascending(r) && forall y: nat :: y in r <==> y in keys
  {
    if keys == [] then []
    else
      assert keys == keys[..|keys| - 1] + [keys[|keys| - 1]];
      Inserted(Sorted(keys[..|keys| - 1]), keys[|keys| - 1])
  }

  /** The files of one loop prefix, as the map keeps them. */
  ghost predicate Collected(files: seq<FileRow>, filesByRound: map<nat, seq<FileRow>>, keys: seq<nat>) {
    (forall r: nat :: r in filesByRound <==> FilesOfRound(files, r) != []) &&
    (forall r: nat :: r in filesByRound ==> filesByRound[r] == FilesOfRound(files, r)) &&
    (forall r: nat :: r in keys <==> r in filesByRound)
  }

  /** One more file: it joins the list of its round, or begins it. */
  lemma FileKept(files: seq<FileRow>, file: FileRow, filesByRound: map<nat, seq<FileRow>>, keys: seq<nat>)
    requires Collected(files, filesByRound, keys)
    ensures var round := file.submissionRound;
      if file.ownerType.ClientFile? then Collected(files + [file], filesByRound, keys)
      else if round in filesByRound then
        Collected(files + [file], filesByRound[round := filesByRound[round] + [file]], keys)
      else Collected(files + [file], filesByRound[round := [file]], keys + [round])
  {
    forall r: nat ensures FilesOfRound(files + [file], r) ==
      if RoundFiles(r)(file) then FilesOfRound(files, r) + [file] else FilesOfRound(files, r)
    {
      assert (files + [file])[..|files + [file]| - 1] == files;
    }
    if file.ownerType.CompanyFile? && file.submissionRound !in filesByRound {
      RoundBegins(files, file, filesByRound, keys);
    }
  }

  lemma RoundBegins(files: seq<FileRow>, file: FileRow, filesByRound: map<nat, seq<FileRow>>, keys: seq<nat>)
    requires Collected(files, filesByRound, keys)
    requires file.ownerType.CompanyFile? && file.submissionRound !in filesByRound
    requires forall r: nat ::
      FilesOfRound(files + [file], r) == (if RoundFiles(r)(file) then FilesOfRound(files, r) + [file] else FilesOfRound(files, r))
    ensures Collected(files + [file], filesByRound[file.submissionRound := [file]], keys + [file.submissionRound])
  {
  }

  /** The map's keys and the rows' numbers are the rounds there are. */
  lemma KeysAreRounds(order: OrderDetail, filesByRound: map<nat, seq<FileRow>>, keys: seq<nat>, named: seq<nat>)
    requires Collected(order.files, filesByRound, keys)
    requires |named| == |order.submissions| && forall i :: 0 <= i < |named| ==> named[i] == order.submissions[i].round
    ensures forall r: nat :: r in named + keys <==> HasRound(order, r)
  {
    forall r: nat ensures r in named + keys <==> HasRound(order, r) {
      assert r in named <==> exists i :: 0 <= i < |order.submissions| && order.submissions[i].round == r;
      RoundHasFile(order.files, r);
    }
  }

  lemma RoundHasFile(files: seq<FileRow>, r: nat)
    ensures FilesOfRound(files, r) != [] <==>
      exists i :: 0 <= i < |files| && files[i].ownerType.CompanyFile? && files[i].submissionRound == r
  {
    var kept := FilesOfRound(files, r);
    if kept != [] {
      assert kept[0] in kept;
    }
    if i :| 0 <= i < |files| && files[i].ownerType.CompanyFile? && files[i].submissionRound == r {
      assert files[i] in kept;
    }
  }

  /** The rounds in the order shown. */
  function RoundsShown(order: OrderDetail): seq<nat> {
    Sorted(Named(order.submissions) + CompanyRounds(order.files))
  }

  function Named(s: seq<SubmissionDto>): (r: seq<nat>)
    ensures |r| == |s| && forall i :: 0 <= i < |s| ==> r[i] == s[i].round
  {
    seq(|s|, i requires 0 <= i < |s| => s[i].round)
  }

  /** They are the rounds of rows and files, each once, ascending. */
  lemma RoundsShownAre(order: OrderDetail)
    ensures RoundsOf(order, RoundsShown(order))
  {
    NamedAndFiled(order, Named(order.submissions));
  }

  function CompanyRounds(files: seq<FileRow>): (r: seq<nat>)
    ensures forall x: nat :: x in r <==>
      exists i :: 0 <= i < |files| && files[i].ownerType.CompanyFile? && files[i].submissionRound == x
  {
    if files == [] then []
    else
      var n := |files| - 1;
      var rest := CompanyRounds(files[..n]);
      assert files == files[..n] + [files[n]];
      if files[n].ownerType.CompanyFile? then rest + [files[n].submissionRound] else rest
  }

  lemma NamedAndFiled(order: OrderDetail, named: seq<nat>)
    requires |named| == |order.submissions| && forall i :: 0 <= i < |named| ==> named[i] == order.submissions[i].round
    ensures forall r: nat :: r in named + CompanyRounds(order.files) <==> HasRound(order, r)
  {
    forall r: nat ensures r in named + CompanyRounds(order.files) <==> HasRound(order, r) {
      assert r in named <==> exists i :: 0 <= i < |order.submissions| && order.submissions[i].round == r;
    }
  }

  /** The card shows the greatest round unfolded and all others below it, newest first; the open
      round is the greatest one if it has not been submitted. */
  ghost predicate ShowsRounds(order: OrderDetail, shown: SubmissionsView) {
    if shown.latest.None? then (forall r: nat :: !HasRound(order, r)) && shown.history == [] && shown.open.None?
    else
      HasRound(order, shown.latest.value.round) &&
      (forall r: nat :: HasRound(order, r) ==> r <= shown.latest.value.round) &&
      NewestFirst(order, shown.latest.value.round, shown.history) &&
      shown.open == if shown.latest.value.submittedAt.None? then shown.latest else None
  }

  lemma LatestAndHistory(order: OrderDetail)
    ensures ShowsRounds(order, SubmissionsOf(order))
  {
    RoundsShownAre(order);
    AssembledShows(order, RoundsShown(order));
  }

  lemma AssembledShows(order: OrderDetail, rounds: seq<nat>)
    requires RoundsOf(order, rounds)
    ensures ShowsRounds(order, Assembled(Views(order, rounds)))
  {
    if rounds == [] {
      forall r: nat ensures !HasRound(order, r) {
        assert r !in rounds;
      }
    } else {
      GreatestIsLast(order, rounds);
      OthersNewestFirst(order, rounds);
    }
  }

  lemma GreatestIsLast(order: OrderDetail, rounds: seq<nat>)
    requires RoundsOf(order, rounds) && rounds != []
    ensures HasRound(order, rounds[|rounds| - 1])
    ensures forall r: nat :: HasRound(order, r) ==> r <= rounds[|rounds| - 1]
  {
    assert rounds[|rounds| - 1] in rounds;
    forall r: nat | HasRound(order, r) ensures r <= rounds[|rounds| - 1] {
      var i :| 0 <= i < |rounds| && rounds[i] == r;
    }
  }

  /** Every round below the latest one, once, in falling order. */
  ghost predicate NewestFirst(order: OrderDetail, latest: nat, history: seq<SubmissionView>) {
    (forall i, j :: 0 <= i < j < |history| ==> history[j].round < history[i].round) &&
    (forall i :: 0 <= i < |history| ==> HasRound(order, history[i].round) && history[i].round < latest) &&
    (forall r: nat :: HasRound(order, r) && r < latest ==> exists i :: 0 <= i < |history| && history[i].round == r)
  }

  lemma OthersNewestFirst(order: OrderDetail, rounds: seq<nat>)
    requires RoundsOf(order, rounds) && rounds != []
    ensures NewestFirst(order, rounds[|rounds| - 1], Reversed(Views(order, rounds)[..|rounds| - 1]))
  {
    var n := |rounds| - 1;
    var history := Reversed(Views(order, rounds)[..n]);
    forall i | 0 <= i < |history| ensures history[i].round == rounds[n - 1 - i] && rounds[n - 1 - i] in rounds {}
    forall r: nat | HasRound(order, r) && r < rounds[n] ensures exists i :: 0 <= i < |history| && history[i].round == r {
      var j :| 0 <= j < |rounds| && rounds[j] == r;
      assert history[n - 1 - j].round == r;
    }
  }

  function SubmissionsOf(order: OrderDetail): SubmissionsView {
    Assembled(Views(order, RoundsShown(order)))
  }

  /** `resolveSubmissions`: one pass over the files, then one view per round. */
  method ResolveSubmissions(order: OrderDetail) returns (view: SubmissionsView)
    ensures view == SubmissionsOf(order)
  {
    var filesByRound: map<nat, seq<FileRow>> := map[];
    var keys: seq<nat> := [];
    for i := 0 to |order.files|
      invariant Collected(order.files[..i], filesByRound, keys)
    {
      var file := order.files[i];
      FileKept(order.files[..i], file, filesByRound, keys);
      assert order.files[..i + 1] == order.files[..i] + [file];
      if file.ownerType.CompanyFile? {
        var round := file.submissionRound;
        if round in filesByRound {
          filesByRound := filesByRound[round := filesByRound[round] + [file]];
        } else {
          filesByRound := filesByRound[round := [file]];
          keys := keys + [round];
        }
      }
    }
    assert order.files[..|order.files|] == order.files;
    var named := Named(order.submissions);
    KeysAreRounds(order, filesByRound, keys, named);
    var sorted := Sorted(named + keys);
    RoundsShownAre(order);
    AscendingIsUnique(sorted, RoundsShown(order));
    var views := seq(|sorted|, i requires 0 <= i < |sorted| =>
      ViewOf(order, sorted[i], if sorted[i] in filesByRound then filesByRound[sorted[i]] else []));
    assert views == Views(order, sorted);
    view := Assembled(views);
  }

  // ------------------------------------------------------------ buttons

  datatype OfferDecision = OfferDecision(offer: OfferRow, canAccept: bool, canReject: bool, expired: bool)

  datatype OrderClientActions =
    OrderClientActions(decisions: seq<OfferDecision>, executorOffer: Option<OfferRow>,
                       canConfirmWork: bool, canDisputeWork: bool)

  datatype OrderCompanyActions =
    OrderCompanyActions(ownOffer: Option<OfferRow>, isExecutor: bool, canSubmitOffer: bool,
                        canAddFiles: bool, canSubmitWork: bool, canVerifyArea: bool)

  function Pending(): OfferRow -> bool {
    (o: OfferRow) => IsPendingOffer(o.status)
  }

  function Decision(status: OrderStatus, offer: OfferRow, today: int): OfferDecision {
    var expired := IsOfferExpired(offer.proposedDeadline, today);
    OfferDecision(offer,
                  !expired && CanTransition(status, OrderEventType.OfferAccepted, Some(offer.status)),
                  CanTransition(status, OrderEventType.OfferRejected, Some(offer.status)),
                  expired)
  }

  function ResolveClientActions(order: OrderDetail, access: OrderDetailAccess, today: int): OrderClientActions {
    if !access.isOwner then OrderClientActions([], None, false, false)
    else
      var pending := Filter(order.offers, Pending());
      var executor := First(order.offers, Executes());
      OrderClientActions(
        seq(|pending|, i requires 0 <= i < |pending| => Decision(order.item.status, pending[i], today)),
        executor,
        executor.Some? && CanTransition(order.item.status, OrderEventType.WorkConfirmed, Some(executor.value.status)),
        executor.Some? && CanTransition(order.item.status, OrderEventType.WorkDisputed, Some(executor.value.status)))
  }

  function ResolveCompanyActions(order: OrderDetail, access: OrderDetailAccess, submissions: SubmissionsView,
                                 viewer: Option<UserId>): OrderCompanyActions {
    if access.isOwner || viewer.None? then OrderCompanyActions(None, false, false, false, false, false)
    else
      var own := First(order.offers, OfCompany(viewer.value));
      if own.None? || !IsExecutorOffer(own.value.status) then
        OrderCompanyActions(own, false, order.canSubmitOffer, false, false, false)
      else
        OrderCompanyActions(own, true, order.canSubmitOffer,
                            CanUploadWork(order.item.status),
                            CanTransition(order.item.status, OrderEventType.WorkSubmitted, Some(own.value.status)) &&
                            submissions.open.Some? && |submissions.open.value.files| > 0,
                            CanVerifyArea(order.item.status))
  }

  /** Everything the page computes from the order it received. */
  datatype Page = Page(order: OrderDetail, access: OrderDetailAccess, client: OrderClientActions,
                       company: OrderCompanyActions)

  function PageOf(order: OrderDetail, viewer: Option<UserId>, today: int): Page {
    var access := ResolveOrderDetailAccess(order, viewer);
    Page(order, access, ResolveClientActions(order, access, today),
         ResolveCompanyActions(order, access, SubmissionsOf(order), viewer))
  }
}
