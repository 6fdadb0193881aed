/** The byte quota under concurrency, over all orders: uploads are admitted with a
    reservation, travel to the bucket, insert their rows under a final check, and give the
    reservation back. Every step is atomic; steps of different uploads interleave freely. */
module StorageAdmission {
  import opened Collections
  import opened SharedRules
  import opened FileQuota

  /** An upload from admission on. It is settled once its rows are in or it has failed. */
  datatype Transfer = Transfer(claim: Claim, settled: bool, released: bool)

  /** Orders keep their client and identifiers are not reused; `rows` are the stored files. */
  datatype Depot = Depot(orders: map<Id, UserId>, deleted: set<Id>, rows: seq<Claim>, transfers: seq<Transfer>)

  datatype Action =
    | Create(orderId: Id, clientId: UserId)
    | Admit(orderId: Id, bytes: nat, read: StorageUsage)
    | Insert(upload: nat, guardPasses: bool, created: seq<nat>)
    | Fail(upload: nat)
    | Release(upload: nat)
    | Delete(orderId: Id)

  // ---------------------------------------------------------------- sums

  function RowsAt(rows: seq<Claim>, scope: Scope): nat {
    if rows == [] then 0 else RowsAt(rows[..|rows| - 1], scope) + BytesAt(scope, rows[|rows| - 1])
  }

  function RowUsage(rows: seq<Claim>, orderId: Id, clientId: UserId): StorageUsage {
    StorageUsage(RowsAt(rows, OrderScope(orderId)), RowsAt(rows, ClientScope(clientId)), RowsAt(rows, ServiceScope))
  }

  function SumBytes(created: seq<nat>): nat {
    if created == [] then 0 else SumBytes(created[..|created| - 1]) + created[|created| - 1]
  }

  function Rows(orderId: Id, clientId: UserId, created: seq<nat>): (r: seq<Claim>)
    ensures |r| == |created|
    ensures forall i :: 0 <= i < |r| ==> r[i] == Claim(orderId, clientId, created[i])
  {
    seq(|created|, i requires 0 <= i < |created| => Claim(orderId, clientId, created[i]))
  }

  /** What the in-memory reservations hold. */
  function Ledger(transfers: seq<Transfer>): (r: seq<Reservation>)
    ensures |r| == |transfers|
    ensures forall i :: 0 <= i < |r| ==> r[i] == Reservation(transfers[i].claim, transfers[i].released)
  {
    seq(|transfers|, i requires 0 <= i < |transfers| => Reservation(transfers[i].claim, transfers[i].released))
  }

  /** The rows of this upload may still come: it is not settled and its order exists. */
  predicate Travels(t: Transfer, deleted: set<Id>) {
    !t.settled && t.claim.orderId !in deleted
  }

  /** Bytes admitted whose rows are still to come. */
  function OnTheWay(transfers: seq<Transfer>, deleted: set<Id>): (r: seq<Reservation>)
    ensures |r| == |transfers|
    ensures forall i :: 0 <= i < |r| ==> r[i] == Reservation(transfers[i].claim, !Travels(transfers[i], deleted))
  {
    seq(|transfers|, i requires 0 <= i < |transfers| => Reservation(transfers[i].claim, !Travels(transfers[i], deleted)))
  }

  function NotOf(orderId: Id): Claim -> bool {
    (c: Claim) => c.orderId != orderId
  }

  // --------------------------------------------------------------- steps

  predicate Exists(d: Depot, orderId: Id) {
    orderId in d.orders && orderId !in d.deleted
  }

  predicate Enabled(d: Depot, a: Action) {
    match a
    case Create(orderId, _) => orderId !in d.orders
    case Delete(orderId) => orderId in d.orders
    case Insert(i, _, created) =>
      i < |d.transfers| && !d.transfers[i].settled && SumBytes(created) <= d.transfers[i].claim.bytes
    case Fail(i) => i < |d.transfers| && !d.transfers[i].settled
    case Release(i) => i < |d.transfers| && d.transfers[i].settled && !d.transfers[i].released
    case _ => true
  }

  /** The check and the reservation happen together, on usage read before them. */
  predicate Admits(d: Depot, orderId: Id, bytes: nat, read: StorageUsage) {
    Exists(d, orderId) &&
    CheckStorageQuota(AddUsage(read, PendingUsage(Ledger(d.transfers), orderId, d.orders[orderId])), bytes).None?
  }

  /** The final check, over rows only, inside the inserting transaction. */
  function FinalCheck(d: Depot, c: Claim): Option<QuotaScope> {
    CheckStorageQuota(RowUsage(d.rows, c.orderId, c.clientId), c.bytes)
  }

  predicate Stores(d: Depot, i: nat, guardPasses: bool)
    requires i < |d.transfers|
  {
    guardPasses && Exists(d, d.transfers[i].claim.orderId) && FinalCheck(d, d.transfers[i].claim).None?
  }

  function Next(d: Depot, a: Action): Depot
    requires Enabled(d, a)
  {
    match a
    case Create(orderId, clientId) => d.(orders := d.orders[orderId := clientId])
    case Admit(orderId, bytes, read) =>
      if Admits(d, orderId, bytes, read) then
        d.(transfers := d.transfers + [Transfer(Claim(orderId, d.orders[orderId], bytes), false, false)])
      else d
    case Insert(i, guardPasses, created) =>
      var t := d.transfers[i];
      var settled := d.transfers[i := t.(settled := true)];
      if Stores(d, i, guardPasses) then
        d.(transfers := settled, rows := d.rows + Rows(t.claim.orderId, t.claim.clientId, created))
      else d.(transfers := settled)
    case Fail(i) => d.(transfers := d.transfers[i := d.transfers[i].(settled := true)])
    case Release(i) => d.(transfers := d.transfers[i := d.transfers[i].(released := true)])
    case Delete(orderId) =>
      d.(deleted := d.deleted + {orderId}, rows := Filter(d.rows, NotOf(orderId)))
  }

  // ----------------------------------------------------------- invariant

  /** Stored bytes and bytes on the way. */
  function Committed(d: Depot, scope: Scope): nat {
    RowsAt(d.rows, scope) + PendingAt(OnTheWay(d.transfers, d.deleted), scope)
  }

  /** They fit together, at every scope. */
  ghost predicate Headroom(d: Depot) {
    forall scope :: Committed(d, scope) <= Limit(scope)
  }

  ghost predicate WithinLimits(rows: seq<Claim>) {
    forall scope :: RowsAt(rows, scope) <= Limit(scope)
  }

  /** Uploads belong to known orders and their clients, and are settled before they are released. */
  ghost predicate Known(d: Depot) {
    d.deleted <= d.orders.Keys &&
    forall i :: 0 <= i < |d.transfers| ==>
      var t := d.transfers[i];
      t.claim.orderId in d.orders && t.claim.clientId == d.orders[t.claim.orderId] && (t.released ==> t.settled)
  }

  ghost predicate Inv(d: Depot) {
    Known(d) && Headroom(d)
  }

  /** What is still to come and the incoming bytes fit beside what is stored, at the three
      scopes of the claim. */
  predicate Fits(d: Depot, c: Claim) {
    Committed(d, OrderScope(c.orderId)) + c.bytes <= MAX_ORDER_FILES_BYTES &&
    Committed(d, ClientScope(c.clientId)) + c.bytes <= MAX_CLIENT_FILES_BYTES &&
    Committed(d, ServiceScope) + c.bytes <= MAX_TOTAL_FILES_BYTES
  }

  /** An admission, if it is granted, fits. */
  predicate AdmissionFits(d: Depot, a: Action) {
    a.Admit? && Admits(d, a.orderId, a.bytes, a.read) ==> Fits(d, Claim(a.orderId, d.orders[a.orderId], a.bytes))
  }

  // ---------------------------------------------------------------- sums

  /** A reservation outlives the upload it was made for. */
  lemma {:induction false} ReservedCoversOnTheWay(transfers: seq<Transfer>, deleted: set<Id>, scope: Scope)
    requires forall i :: 0 <= i < |transfers| && transfers[i].released ==> transfers[i].settled
    ensures PendingAt(OnTheWay(transfers, deleted), scope) <= PendingAt(Ledger(transfers), scope)
  {
    if transfers != [] {
      var n := |transfers| - 1;
      assert OnTheWay(transfers, deleted)[..n] == OnTheWay(transfers[..n], deleted);
      assert Ledger(transfers)[..n] == Ledger(transfers[..n]);
      ReservedCoversOnTheWay(transfers[..n], deleted, scope);
    }
  }

  lemma {:induction false} RowsAdded(rows: seq<Claim>, orderId: Id, clientId: UserId, created: seq<nat>, scope: Scope)
    ensures RowsAt(rows + Rows(orderId, clientId, created), scope) ==
      RowsAt(rows, scope) + BytesAt(scope, Claim(orderId, clientId, SumBytes(created)))
    decreases |created|
  {
    if created == [] {
      assert rows + Rows(orderId, clientId, created) == rows;
    } else {
      var n := |created| - 1;
      var before, after := rows + Rows(orderId, clientId, created[..n]), rows + Rows(orderId, clientId, created);
      assert after == before + [Claim(orderId, clientId, created[n])];
      assert after[..|after| - 1] == before;
      RowsAdded(rows, orderId, clientId, created[..n], scope);
    }
  }

  lemma {:induction false} RowsRemoved(rows: seq<Claim>, p: Claim -> bool, scope: Scope)
    ensures RowsAt(Filter(rows, p), scope) <= RowsAt(rows, scope)
  {
    if rows != [] {
      var n := |rows| - 1;
      RowsRemoved(rows[..n], p, scope);
      var kept := Filter(rows[..n], p);
      assert (kept + [rows[n]])[..|kept + [rows[n]]| - 1] == kept;
    }
  }

  lemma {:induction false} FewerOnTheWay(transfers: seq<Transfer>, deleted: set<Id>, more: set<Id>, scope: Scope)
    requires deleted <= more
    ensures PendingAt(OnTheWay(transfers, more), scope) <= PendingAt(OnTheWay(transfers, deleted), scope)
  {
    if transfers != [] {
      var n := |transfers| - 1;
      assert OnTheWay(transfers, deleted)[..n] == OnTheWay(transfers[..n], deleted);
      assert OnTheWay(transfers, more)[..n] == OnTheWay(transfers[..n], more);
      FewerOnTheWay(transfers[..n], deleted, more, scope);
    }
  }

  /** An upload settled takes its bytes off the way, if it travelled. */
  lemma SettledOne(transfers: seq<Transfer>, deleted: set<Id>, i: nat, scope: Scope)
    requires i < |transfers| && !transfers[i].settled
    ensures var after := transfers[i := transfers[i].(settled := true)];
      PendingAt(OnTheWay(after, deleted), scope) ==
        PendingAt(OnTheWay(transfers, deleted), scope) -
        (if Travels(transfers[i], deleted) then BytesAt(scope, transfers[i].claim) else 0)
  {
    var before, after := OnTheWay(transfers, deleted), OnTheWay(transfers[i := transfers[i].(settled := true)], deleted);
    if Travels(transfers[i], deleted) {
      ReleasedOne(before, i, scope);
      assert after == before[i := Reservation(transfers[i].claim, true)];
    } else {
      assert after == before;
    }
  }

  lemma OneMoreOnTheWay(d: Depot, c: Claim, scope: Scope)
    requires c.orderId !in d.deleted
    ensures var after := d.transfers + [Transfer(c, false, false)];
      PendingAt(OnTheWay(after, d.deleted), scope) ==
        PendingAt(OnTheWay(d.transfers, d.deleted), scope) + BytesAt(scope, c)
  {
    var after := d.transfers + [Transfer(c, false, false)];
    assert OnTheWay(after, d.deleted) == OnTheWay(d.transfers, d.deleted) + [Reservation(c, false)];
    ReservedMore(OnTheWay(d.transfers, d.deleted), c, scope);
  }

  // --------------------------------------------------------- every step

  /** A granted admission keeps headroom exactly when it fits. */
  lemma AdmissionKeepsHeadroomIff(d: Depot, a: Action)
    requires Headroom(d) && a.Admit? && Admits(d, a.orderId, a.bytes, a.read)
    ensures Headroom(Next(d, a)) <==> AdmissionFits(d, a)
  {
    var c, next := Claim(a.orderId, d.orders[a.orderId], a.bytes), Next(d, a);
    forall scope ensures Committed(next, scope) == Committed(d, scope) + BytesAt(scope, c) {
      OneMoreOnTheWay(d, c, scope);
    }
    if Headroom(next) {
      assert Committed(next, OrderScope(c.orderId)) <= Limit(OrderScope(c.orderId));
      assert Committed(next, ClientScope(c.clientId)) <= Limit(ClientScope(c.clientId));
      assert Committed(next, ServiceScope) <= Limit(ServiceScope);
    } else if Fits(d, c) {
      forall scope ensures Committed(next, scope) <= Limit(scope) {
        assert Committed(d, scope) <= Limit(scope);
      }
    }
  }

  lemma InsertKeepsCommitted(d: Depot, a: Action, scope: Scope)
    requires Known(d) && a.Insert? && Enabled(d, a)
    ensures Committed(Next(d, a), scope) <= Committed(d, scope)
  {
    var c := d.transfers[a.upload].claim;
    SettledOne(d.transfers, d.deleted, a.upload, scope);
    RowsAdded(d.rows, c.orderId, c.clientId, a.created, scope);
  }

  lemma OtherKeepsCommitted(d: Depot, a: Action, scope: Scope)
    requires Known(d) && Enabled(d, a) && !a.Insert? && !a.Admit?
    ensures Committed(Next(d, a), scope) <= Committed(d, scope)
  {
    var next := Next(d, a);
    if a.Fail? {
      SettledOne(d.transfers, d.deleted, a.upload, scope);
    } else if a.Release? {
      assert OnTheWay(next.transfers, next.deleted) == OnTheWay(d.transfers, d.deleted);
    } else if a.Delete? {
      RowsRemoved(d.rows, NotOf(a.orderId), scope);
      FewerOnTheWay(d.transfers, d.deleted, next.deleted, scope);
    }
  }

  lemma StepKeepsKnown(d: Depot, a: Action)
    requires Known(d) && Enabled(d, a)
    ensures Known(Next(d, a))
  {
  }

  lemma StepKeepsInvariant(d: Depot, a: Action)
    requires Inv(d) && Enabled(d, a) && AdmissionFits(d, a)
    ensures Inv(Next(d, a))
  {
    StepKeepsKnown(d, a);
    if a.Admit? {
      if Admits(d, a.orderId, a.bytes, a.read) {
        AdmissionKeepsHeadroomIff(d, a);
      }
    } else {
      forall scope ensures Committed(Next(d, a), scope) <= Limit(scope) {
        assert Committed(d, scope) <= Limit(scope);
        if a.Insert? {
          InsertKeepsCommitted(d, a, scope);
        } else {
          OtherKeepsCommitted(d, a, scope);
        }
      }
    }
  }

  /** The final check alone keeps the rows within the limits, whatever was admitted. */
  lemma StepKeepsLimits(d: Depot, a: Action)
    requires Known(d) && WithinLimits(d.rows) && Enabled(d, a)
    ensures WithinLimits(Next(d, a).rows)
  {
    forall scope ensures RowsAt(Next(d, a).rows, scope) <= Limit(scope) {
      assert RowsAt(d.rows, scope) <= Limit(scope);
      if a.Insert? && Stores(d, a.upload, a.guardPasses) {
        var c := d.transfers[a.upload].claim;
        RowsAdded(d.rows, c.orderId, c.clientId, a.created, scope);
      } else if a.Delete? {
        RowsRemoved(d.rows, NotOf(a.orderId), scope);
      }
    }
  }

  // ---------------------------------------------------------------- runs

  predicate ValidRun(d: Depot, actions: seq<Action>)
    decreases |actions|
  {
    actions == [] || (Enabled(d, actions[0]) && ValidRun(Next(d, actions[0]), actions[1..]))
  }

  function Run(d: Depot, actions: seq<Action>): Depot
    requires ValidRun(d, actions)
    decreases |actions|
  {
    if actions == [] then d else Run(Next(d, actions[0]), actions[1..])
  }

  /** Every granted admission of the run fits. */
  predicate AdmissionsFit(d: Depot, actions: seq<Action>)
    requires ValidRun(d, actions)
    decreases |actions|
  {
    actions == [] || (AdmissionFits(d, actions[0]) && AdmissionsFit(Next(d, actions[0]), actions[1..]))
  }

  predicate NoAdmissions(actions: seq<Action>) {
    forall i | 0 <= i < |actions| :: !actions[i].Admit?
  }

  /** The final check would pass every upload that is still to come. */
  ghost predicate NoRefusal(d: Depot) {
    forall i :: 0 <= i < |d.transfers| && Travels(d.transfers[i], d.deleted) ==>
      FinalCheck(d, d.transfers[i].claim).None?
  }

  /** And goes on doing so however the uploads admitted so far take turns. */
  ghost predicate NeverRefuses(d: Depot) {
    forall more :: ValidRun(d, more) && NoAdmissions(more) ==> NoRefusal(Run(d, more))
  }

  ghost predicate NeverRefusesThroughout(d: Depot, actions: seq<Action>)
    requires ValidRun(d, actions)
    decreases |actions|
  {
    NeverRefuses(d) && (actions == [] || NeverRefusesThroughout(Next(d, actions[0]), actions[1..]))
  }

  lemma {:induction false} RunKeepsInvariant(d: Depot, actions: seq<Action>)
    requires Inv(d) && ValidRun(d, actions) && AdmissionsFit(d, actions)
    ensures Inv(Run(d, actions))
    decreases |actions|
  {
    if actions != [] {
      StepKeepsInvariant(d, actions[0]);
      RunKeepsInvariant(Next(d, actions[0]), actions[1..]);
    }
  }

  lemma {:induction false} WithoutAdmissionsAllFit(d: Depot, actions: seq<Action>)
    requires ValidRun(d, actions) && NoAdmissions(actions)
    ensures AdmissionsFit(d, actions)
    decreases |actions|
  {
    if actions != [] {
      forall i | 0 <= i < |actions[1..]| ensures !actions[1..][i].Admit? {
        assert actions[1..][i] == actions[i + 1];
      }
      WithoutAdmissionsAllFit(Next(d, actions[0]), actions[1..]);
    }
  }

  lemma FitsFinally(d: Depot, i: nat)
    requires Headroom(d) && i < |d.transfers| && Travels(d.transfers[i], d.deleted)
    ensures FinalCheck(d, d.transfers[i].claim).None?
  {
    var c := d.transfers[i].claim;
    forall scope | Covers(scope, c) ensures RowsAt(d.rows, scope) + c.bytes <= Limit(scope) {
      PendingCovers(OnTheWay(d.transfers, d.deleted), i, scope);
      assert Committed(d, scope) <= Limit(scope);
    }
    assert Covers(OrderScope(c.orderId), c) && Covers(ClientScope(c.clientId), c) && Covers(ServiceScope, c);
  }

  lemma HeadroomNeverRefuses(d: Depot)
    requires Inv(d)
    ensures NeverRefuses(d)
  {
    forall more | ValidRun(d, more) && NoAdmissions(more) ensures NoRefusal(Run(d, more)) {
      WithoutAdmissionsAllFit(d, more);
      RunKeepsInvariant(d, more);
      var end := Run(d, more);
      forall i | 0 <= i < |end.transfers| && Travels(end.transfers[i], end.deleted)
        ensures FinalCheck(end, end.transfers[i].claim).None?
      {
        FitsFinally(end, i);
      }
    }
  }

  // -------------------------------------------- too much on the way

  function Unsettled(transfers: seq<Transfer>): set<nat> {
    set i: nat | i < |transfers| && !transfers[i].settled
  }

  /** With more on the way than a limit allows, some upload it covers still travels. */
  lemma SomeoneTravels(d: Depot, scope: Scope) returns (i: nat)
    requires RowsAt(d.rows, scope) <= Limit(scope) < Committed(d, scope)
    ensures i < |d.transfers| && Travels(d.transfers[i], d.deleted) && Covers(scope, d.transfers[i].claim)
  {
    if forall k :: 0 <= k < |d.transfers| && Travels(d.transfers[k], d.deleted) ==> !Covers(scope, d.transfers[k].claim) {
      NothingPending(OnTheWay(d.transfers, d.deleted), scope);
      assert false;
    }
    i :| 0 <= i < |d.transfers| && Travels(d.transfers[i], d.deleted) && Covers(scope, d.transfers[i].claim);
  }

  lemma OneSum(bytes: nat)
    ensures SumBytes([bytes]) == bytes
  {
    assert [bytes][..0] == [];
  }

  /** Storing a whole upload moves its bytes from the way to the rows. */
  lemma WholeUploadStored(d: Depot, i: nat, created: seq<nat>, scope: Scope)
    requires Known(d) && i < |d.transfers| && Travels(d.transfers[i], d.deleted)
    requires SumBytes(created) == d.transfers[i].claim.bytes
    requires Covers(scope, d.transfers[i].claim) && FinalCheck(d, d.transfers[i].claim).None?
    ensures var next := Next(d, Insert(i, true, created));
      Committed(next, scope) == Committed(d, scope) && RowsAt(next.rows, scope) <= Limit(scope)
  {
    var c := d.transfers[i].claim;
    SettledOne(d.transfers, d.deleted, i, scope);
    RowsAdded(d.rows, c.orderId, c.clientId, created, scope);
  }

  lemma OneFewerUnsettled(transfers: seq<Transfer>, i: nat)
    requires i < |transfers| && !transfers[i].settled
    ensures Unsettled(transfers[i := transfers[i].(settled := true)]) == Unsettled(transfers) - {i}
    ensures |Unsettled(transfers) - {i}| < |Unsettled(transfers)|
  {
    assert i in Unsettled(transfers);
  }

  /** Then the uploads can take turns so that the final check refuses one of them. */
  lemma {:induction false} TooMuchIsRefused(d: Depot, scope: Scope) returns (more: seq<Action>)
    requires Known(d) && RowsAt(d.rows, scope) <= Limit(scope) < Committed(d, scope)
    ensures ValidRun(d, more) && NoAdmissions(more) && !NoRefusal(Run(d, more))
    decreases |Unsettled(d.transfers)|
  {
    var i := SomeoneTravels(d, scope);
    var c := d.transfers[i].claim;
    if FinalCheck(d, c).Some? {
      more := [];
    } else {
      var insert := Insert(i, true, [c.bytes]);
      OneSum(c.bytes);
      WholeUploadStored(d, i, insert.created, scope);
      StepKeepsKnown(d, insert);
      OneFewerUnsettled(d.transfers, i);
      var rest := TooMuchIsRefused(Next(d, insert), scope);
      more := [insert] + rest;
      assert more[1..] == rest;
    }
  }

  lemma OverbookedMayRefuse(d: Depot)
    requires Known(d) && WithinLimits(d.rows) && !Headroom(d)
    ensures !NeverRefuses(d)
  {
    var scope :| Committed(d, scope) > Limit(scope);
    assert RowsAt(d.rows, scope) <= Limit(scope);
    var more := TooMuchIsRefused(d, scope);
  }

  // ---------------------------------------------- what the steps store

  /** A deleted order's rows are gone, at every scope, and no other row is. */
  lemma DeletionFreesBytes(d: Depot, orderId: Id)
    requires orderId in d.orders
    ensures var next := Next(d, Delete(orderId));
      (forall c :: c in next.rows <==> c in d.rows && c.orderId != orderId) && !Exists(next, orderId) &&
      RowsAt(next.rows, OrderScope(orderId)) == 0 && next.transfers == d.transfers
  {
    NoRowsNoBytes(Filter(d.rows, NotOf(orderId)), OrderScope(orderId));
  }

  lemma {:induction false} NoRowsNoBytes(rows: seq<Claim>, scope: Scope)
    requires forall c :: c in rows ==> !Covers(scope, c)
    ensures RowsAt(rows, scope) == 0
  {
    if rows != [] {
      NoRowsNoBytes(rows[..|rows| - 1], scope);
    }
  }

  /** An upload whose guard passes, whose order exists and which fits is stored with its bytes; any
      other leaves the rows as they were. Either way it is no longer on the way. */
  lemma InsertStoresBytes(d: Depot, a: Action, scope: Scope)
    requires a.Insert? && Enabled(d, a)
    ensures var c, next := d.transfers[a.upload].claim, Next(d, a);
      next.transfers[a.upload].settled && next.transfers[a.upload].released == d.transfers[a.upload].released &&
      RowsAt(next.rows, scope) - RowsAt(d.rows, scope) ==
        if a.guardPasses && Exists(d, c.orderId) && FinalCheck(d, c).None? && Covers(scope, c) then SumBytes(a.created) else 0
  {
    var c := d.transfers[a.upload].claim;
    RowsAdded(d.rows, c.orderId, c.clientId, a.created, scope);
  }

  /** A failed upload is no longer on the way; its reservation stands until it is released. */
  lemma FailureFreesTheWay(d: Depot, i: nat, scope: Scope)
    requires i < |d.transfers| && !d.transfers[i].settled
    ensures var next := Next(d, Fail(i));
      next.rows == d.rows && next.transfers[i].settled &&
      Committed(d, scope) - Committed(next, scope) ==
        if Travels(d.transfers[i], d.deleted) then BytesAt(scope, d.transfers[i].claim) else 0
  {
    SettledOne(d.transfers, d.deleted, i, scope);
  }

  /** A release gives back exactly the upload's bytes. */
  lemma ReleaseGivesBack(d: Depot, i: nat, scope: Scope)
    requires i < |d.transfers| && d.transfers[i].settled && !d.transfers[i].released
    ensures var next := Next(d, Release(i));
      next.rows == d.rows && PendingAt(Ledger(d.transfers), scope) - PendingAt(Ledger(next.transfers), scope) ==
        BytesAt(scope, d.transfers[i].claim)
  {
    ReleasedOne(Ledger(d.transfers), i, scope);
    assert Ledger(Next(d, Release(i)).transfers) == Ledger(d.transfers)[i := Reservation(d.transfers[i].claim, true)];
  }

  lemma CreatedOrderExists(d: Depot, orderId: Id, clientId: UserId)
    requires Known(d) && orderId !in d.orders
    ensures var next := Next(d, Create(orderId, clientId)); Exists(next, orderId) && next.orders[orderId] == clientId
  {
  }

  // ------------------------------------------------------- the result

  /** The quota promise, exactly. Along any run the final check never refuses an admitted
      upload, however the uploads take turns, if and only if at every granted admission what is
      stored, what is on the way and what comes in fit the three limits together. */
  lemma {:induction false} NeverRefusedIff(d: Depot, actions: seq<Action>)
    requires Inv(d) && ValidRun(d, actions)
    ensures NeverRefusesThroughout(d, actions) <==> AdmissionsFit(d, actions)
    decreases |actions|
  {
    HeadroomNeverRefuses(d);
    if actions != [] {
      var a, next := actions[0], Next(d, actions[0]);
      if AdmissionFits(d, a) {
        StepKeepsInvariant(d, a);
        NeverRefusedIff(next, actions[1..]);
      } else {
        AdmissionKeepsHeadroomIff(d, a);
        StepKeepsKnown(d, a);
        RowsFit(d);
        StepKeepsLimits(d, a);
        OverbookedMayRefuse(next);
      }
    }
  }

  lemma RowsFit(d: Depot)
    requires Headroom(d)
    ensures WithinLimits(d.rows)
  {
    forall scope ensures RowsAt(d.rows, scope) <= Limit(scope) {
      assert Committed(d, scope) <= Limit(scope);
    }
  }

  /** An empty service; orders may exist. */
  function Empty(orders: map<Id, UserId>): Depot {
    Depot(orders, {}, [], [])
  }

  lemma EmptyIsOk(orders: map<Id, UserId>)
    ensures Inv(Empty(orders))
  {
  }

  /** From an empty service on, in every run: the rows stay within all three limits, fitting
      admissions or not. */
  lemma LimitsHold(orders: map<Id, UserId>, actions: seq<Action>)
    requires ValidRun(Empty(orders), actions)
    ensures WithinLimits(Run(Empty(orders), actions).rows)
  {
    EmptyIsOk(orders);
    RowsFit(Empty(orders));
    RunKeepsLimits(Empty(orders), actions);
  }

  lemma {:induction false} RunKeepsLimits(d: Depot, actions: seq<Action>)
    requires Known(d) && WithinLimits(d.rows) && ValidRun(d, actions)
    ensures WithinLimits(Run(d, actions).rows)
    decreases |actions|
  {
    if actions != [] {
      StepKeepsKnown(d, actions[0]);
      StepKeepsLimits(d, actions[0]);
      RunKeepsLimits(Next(d, actions[0]), actions[1..]);
    }
  }

  // ---------------------------------------------- readings and the limits

  /** The usage an admission relies on has not grown since it was read. */
  predicate NotOutdated(d: Depot, a: Action) {
    a.Admit? && a.orderId in d.orders ==>
      var now := RowUsage(d.rows, a.orderId, d.orders[a.orderId]);
      a.read.order >= now.order && a.read.client >= now.client && a.read.total >= now.total
  }

  predicate ReadingsHold(d: Depot, actions: seq<Action>)
    requires ValidRun(d, actions)
    decreases |actions|
  {
    actions == [] || (NotOutdated(d, actions[0]) && ReadingsHold(Next(d, actions[0]), actions[1..]))
  }

  /** An admission granted on a reading that still holds fits, because a reservation is kept
      as long as its upload is on the way. */
  lemma NotOutdatedFits(d: Depot, a: Action)
    requires Known(d) && NotOutdated(d, a)
    ensures AdmissionFits(d, a)
  {
    if a.Admit? && Admits(d, a.orderId, a.bytes, a.read) {
      var client := d.orders[a.orderId];
      ReservedCoversOnTheWay(d.transfers, d.deleted, OrderScope(a.orderId));
      ReservedCoversOnTheWay(d.transfers, d.deleted, ClientScope(client));
      ReservedCoversOnTheWay(d.transfers, d.deleted, ServiceScope);
    }
  }

  lemma {:induction false} HeldReadingsFit(d: Depot, actions: seq<Action>)
    requires Known(d) && ValidRun(d, actions) && ReadingsHold(d, actions)
    ensures AdmissionsFit(d, actions)
    decreases |actions|
  {
    if actions != [] {
      NotOutdatedFits(d, actions[0]);
      StepKeepsKnown(d, actions[0]);
      HeldReadingsFit(Next(d, actions[0]), actions[1..]);
    }
  }

  /** With reading and reserving as one step, from an empty service on: in every interleaving
      the final check never refuses an upload that was admitted. */
  lemma AdmittedIsNeverRefused(orders: map<Id, UserId>, actions: seq<Action>)
    requires ValidRun(Empty(orders), actions) && ReadingsHold(Empty(orders), actions)
    ensures NeverRefusesThroughout(Empty(orders), actions)
  {
    EmptyIsOk(orders);
    HeldReadingsFit(Empty(orders), actions);
    NeverRefusedIff(Empty(orders), actions);
  }

  /** `reserveStorage`: check against rows and reservations and reserve, without a pause. */
  method ReserveStorage(reservations: StorageReservations, orderId: Id, clientId: UserId, read: StorageUsage,
                        incoming: nat, ghost d: Depot) returns (r: Result<ReservationHandle, QuotaScope>)
    requires reservations.Valid() && reservations.ledger == Ledger(d.transfers)
    requires Exists(d, orderId) && d.orders[orderId] == clientId
    modifies reservations
    ensures reservations.Valid()
    ensures r.Ok? <==> Admits(d, orderId, incoming, read)
    ensures reservations.ledger == Ledger(Next(d, Admit(orderId, incoming, read)).transfers)
    ensures r.Ok? ==> fresh(r.value) && reservations.Issued(r.value) && r.value.claim == Claim(orderId, clientId, incoming)
  {
    var pending := reservations.Pending(orderId, clientId);
    var refusal := CheckStorageQuota(AddUsage(read, pending), incoming);
    if refusal.Some? {
      return Err(refusal.value);
    }
    var handle := reservations.Reserve(orderId, clientId, incoming);
    assert reservations.ledger == Ledger(Next(d, Admit(orderId, incoming, read)).transfers);
    return Ok(handle);
  }

  // ------------------------------------------------- an outdated reading

  /** One order, filled to its limit by one upload whose reservation is already back. */
  function FullOrder(client: UserId): Depot {
    var c := Claim(1, client, MAX_ORDER_FILES_BYTES);
    Depot(map[1 := client], {}, [c], [Transfer(c, true, true)])
  }

  function OneUpload(client: UserId, settled: bool): Depot {
    var c := Claim(1, client, MAX_ORDER_FILES_BYTES);
    Depot(map[1 := client], {}, if settled then [c] else [], [Transfer(c, settled, false)])
  }

  lemma FullOrderIsAdmitted(client: UserId)
    ensures Next(Empty(map[1 := client]), Admit(1, MAX_ORDER_FILES_BYTES, StorageUsage(0, 0, 0))) == OneUpload(client, false)
  {
    FirstUpload(Empty(map[1 := client]), 1, MAX_ORDER_FILES_BYTES, StorageUsage(0, 0, 0));
  }

  lemma FirstUpload(d: Depot, orderId: Id, bytes: nat, read: StorageUsage)
    requires d.transfers == [] && Exists(d, orderId) && CheckStorageQuota(read, bytes).None?
    ensures Next(d, Admit(orderId, bytes, read)) ==
      d.(transfers := [Transfer(Claim(orderId, d.orders[orderId], bytes), false, false)])
  {
    assert Ledger(d.transfers) == [];
  }

  lemma FullOrderIsStored(client: UserId)
    ensures var insert := Insert(0, true, [MAX_ORDER_FILES_BYTES]);
      Enabled(OneUpload(client, false), insert) && Next(OneUpload(client, false), insert) == OneUpload(client, true)
  {
    OneSum(MAX_ORDER_FILES_BYTES);
    assert Rows(1, client, [MAX_ORDER_FILES_BYTES]) == [Claim(1, client, MAX_ORDER_FILES_BYTES)];
  }

  lemma FullOrderIsReleased(client: UserId)
    ensures Next(OneUpload(client, true), Release(0)) == FullOrder(client)
  {
  }

  /** Reading usage and reserving are two moments in the code. When another upload is stored
      and gives its reservation back in between, the later one is admitted on an outdated
      reading although it does not fit: the promise does fail in a run of the code. */
  lemma OutdatedReadOverbooks(client: UserId)
    ensures var late := Admit(1, 1, StorageUsage(0, 0, 0));
      Admits(FullOrder(client), 1, 1, late.read) && !AdmissionFits(FullOrder(client), late)
  {
    var d := FullOrder(client);
    NothingPending(Ledger(d.transfers), OrderScope(1));
    NothingPending(Ledger(d.transfers), ClientScope(client));
    NothingPending(Ledger(d.transfers), ServiceScope);
    OneRow(Claim(1, client, MAX_ORDER_FILES_BYTES), OrderScope(1));
  }

  lemma OneRow(c: Claim, scope: Scope)
    ensures RowsAt([c], scope) == BytesAt(scope, c)
  {
    assert [c][..0] == [];
  }
}
