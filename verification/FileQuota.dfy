/** Storage quotas: how many bytes files may take per order, per client and in the whole
    service, and the bytes promised to uploads still under way. */
module FileQuota {
  import opened Collections
  import opened SharedRules

  const MAX_CLIENT_FILES_BYTES := 150 * 1024 * 1024
  const MAX_TOTAL_FILES_BYTES := 800 * 1024 * 1024

  datatype StorageUsage = StorageUsage(order: int, client: int, total: int)

  datatype QuotaScope = OrderQuota | ClientQuota | TotalQuota

  /** Whether new files fit; a refusal names the first limit passed, from narrow to wide. */
  function CheckStorageQuota(usage: StorageUsage, incoming: int): Option<QuotaScope> {
    if usage.order + incoming > MAX_ORDER_FILES_BYTES then Some(OrderQuota)
    else if usage.client + incoming > MAX_CLIENT_FILES_BYTES then Some(ClientQuota)
    else if usage.total + incoming > MAX_TOTAL_FILES_BYTES then Some(TotalQuota)
    else None
  }

  /** Files fit exactly when all three limits hold, and a refusal names the narrowest limit passed. */
  lemma NarrowestLimitIsNamed(usage: StorageUsage, incoming: int)
    ensures var order, client, total := usage.order + incoming <= MAX_ORDER_FILES_BYTES,
                                        usage.client + incoming <= MAX_CLIENT_FILES_BYTES,
                                        usage.total + incoming <= MAX_TOTAL_FILES_BYTES;
      var answer := CheckStorageQuota(usage, incoming);
      (answer.None? <==> order && client && total) &&
      (answer == Some(OrderQuota) <==> !order) &&
      (answer == Some(ClientQuota) <==> order && !client) &&
      (answer == Some(TotalQuota) <==> order && client && !total)
  {
  }

  function AddUsage(a: StorageUsage, b: StorageUsage): StorageUsage {
    StorageUsage(a.order + b.order, a.client + b.client, a.total + b.total)
  }

  // ------------------------------------------------- bytes claimed at a scope

  /** Whose bytes are counted: one order's, one client's, everyone's. */
  datatype Scope = OrderScope(orderId: Id) | ClientScope(clientId: UserId) | ServiceScope

  function Limit(scope: Scope): int {
    match scope
    case OrderScope(_) => MAX_ORDER_FILES_BYTES
    case ClientScope(_) => MAX_CLIENT_FILES_BYTES
    case ServiceScope => MAX_TOTAL_FILES_BYTES
  }

  datatype Claim = Claim(orderId: Id, clientId: UserId, bytes: nat)

  predicate Covers(scope: Scope, c: Claim) {
    match scope
    case OrderScope(orderId) => c.orderId == orderId
    case ClientScope(clientId) => c.clientId == clientId
    case ServiceScope => true
  }

  function BytesAt(scope: Scope, c: Claim): nat {
    if Covers(scope, c) then c.bytes else 0
  }

  datatype Reservation = Reservation(claim: Claim, released: bool)

  /** The exact sum of the live reservations a scope covers. */
  function PendingAt(ledger: seq<Reservation>, scope: Scope): nat {
    if ledger == [] then 0
    else
      var last := ledger[|ledger| - 1];
      PendingAt(ledger[..|ledger| - 1], scope) + (if last.released then 0 else BytesAt(scope, last.claim))
  }

  function PendingUsage(ledger: seq<Reservation>, orderId: Id, clientId: UserId): StorageUsage {
    StorageUsage(PendingAt(ledger, OrderScope(orderId)), PendingAt(ledger, ClientScope(clientId)),
                 PendingAt(ledger, ServiceScope))
  }

  lemma ReservedMore(ledger: seq<Reservation>, c: Claim, scope: Scope)
    ensures PendingAt(ledger + [Reservation(c, false)], scope) == PendingAt(ledger, scope) + BytesAt(scope, c)
  {
    assert (ledger + [Reservation(c, false)])[..|ledger + [Reservation(c, false)]| - 1] == ledger;
  }

  /** Releasing one live reservation takes exactly its bytes away, wherever it stands. */
  lemma {:induction false} ReleasedOne(ledger: seq<Reservation>, i: nat, scope: Scope)
    requires i < |ledger| && !ledger[i].released
    ensures PendingAt(ledger[i := ledger[i].(released := true)], scope) ==
      PendingAt(ledger, scope) - BytesAt(scope, ledger[i].claim)
  {
    var n := |ledger| - 1;
    var after := ledger[i := ledger[i].(released := true)];
    if i < n {
      assert after[..n] == ledger[..n][i := ledger[i].(released := true)];
      ReleasedOne(ledger[..n], i, scope);
    } else {
      assert after[..n] == ledger[..n];
    }
  }

  /** What is live at place `i` is part of the sum. */
  lemma {:induction false} PendingCovers(ledger: seq<Reservation>, i: nat, scope: Scope)
    requires i < |ledger| && !ledger[i].released
    ensures PendingAt(ledger, scope) >= BytesAt(scope, ledger[i].claim)
  {
    ReleasedOne(ledger, i, scope);
  }

  lemma {:induction false} NothingPending(ledger: seq<Reservation>, scope: Scope)
    requires forall i :: 0 <= i < |ledger| && !ledger[i].released ==> BytesAt(scope, ledger[i].claim) == 0
    ensures PendingAt(ledger, scope) == 0
  {
    if ledger != [] {
      NothingPending(ledger[..|ledger| - 1], scope);
    }
  }

  function SumAt(ledger: seq<Reservation>, scopes: seq<Scope>): nat {
    if scopes == [] then 0 else PendingAt(ledger, scopes[0]) + SumAt(ledger, scopes[1..])
  }

  ghost predicate CountedOnce(scopes: seq<Scope>, c: Claim) {
    (exists i :: 0 <= i < |scopes| && Covers(scopes[i], c)) &&
    forall i, j :: 0 <= i < j < |scopes| ==> !(Covers(scopes[i], c) && Covers(scopes[j], c))
  }

  function BytesOver(scopes: seq<Scope>, c: Claim): nat {
    if scopes == [] then 0 else BytesAt(scopes[0], c) + BytesOver(scopes[1..], c)
  }

  lemma {:induction false} NoneCovers(scopes: seq<Scope>, c: Claim)
    requires forall i :: 0 <= i < |scopes| ==> !Covers(scopes[i], c)
    ensures BytesOver(scopes, c) == 0
  {
    if scopes != [] {
      NoneCovers(scopes[1..], c);
    }
  }

  lemma {:induction false} OneCovers(scopes: seq<Scope>, c: Claim, i: nat)
    requires i < |scopes| && Covers(scopes[i], c)
    requires forall j :: 0 <= j < |scopes| && j != i ==> !Covers(scopes[j], c)
    ensures BytesOver(scopes, c) == c.bytes
  {
    if i == 0 {
      NoneCovers(scopes[1..], c);
    } else {
      OneCovers(scopes[1..], c, i - 1);
    }
  }

  lemma {:induction false} SumSnoc(ledger: seq<Reservation>, scopes: seq<Scope>)
    requires ledger != []
    ensures var last := ledger[|ledger| - 1];
      SumAt(ledger, scopes) ==
        SumAt(ledger[..|ledger| - 1], scopes) + (if last.released then 0 else BytesOver(scopes, last.claim))
  {
    if scopes != [] {
      SumSnoc(ledger, scopes[1..]);
    }
  }

  lemma {:induction false} SumOfEmpty(scopes: seq<Scope>)
    ensures SumAt([], scopes) == 0
  {
    if scopes != [] {
      SumOfEmpty(scopes[1..]);
    }
  }

  /** Scopes that partition a wider scope add up to it: orders to their client, clients to
      the service. */
  lemma {:induction false} ScopesAddUp(ledger: seq<Reservation>, scopes: seq<Scope>, whole: Scope)
    requires forall i :: 0 <= i < |ledger| && !ledger[i].released ==>
      if Covers(whole, ledger[i].claim) then CountedOnce(scopes, ledger[i].claim)
      else forall k :: 0 <= k < |scopes| ==> !Covers(scopes[k], ledger[i].claim)
    ensures SumAt(ledger, scopes) == PendingAt(ledger, whole)
  {
    if ledger == [] {
      SumOfEmpty(scopes);
    } else {
      var n := |ledger| - 1;
      ScopesAddUp(ledger[..n], scopes, whole);
      SumSnoc(ledger, scopes);
      var c := ledger[n].claim;
      if !ledger[n].released {
        if Covers(whole, c) {
          var i :| 0 <= i < |scopes| && Covers(scopes[i], c);
          OneCovers(scopes, c, i);
        } else {
          NoneCovers(scopes, c);
        }
      }
    }
  }

  // ------------------------------------------------------ reservations

  /** An entry that falls to zero is removed: the map never keeps an order or a client for good. */
  function Adjusted<K>(entries: map<K, int>, key: K, delta: int): map<K, int> {
    var next := (if key in entries then entries[key] else 0) + delta;
    if next <= 0 then entries - {key} else entries[key := next]
  }

  function At<K>(entries: map<K, int>, key: K): int {
    if key in entries then entries[key] else 0
  }

  /** The maps hold exactly the positive sums of the ledger. */
  ghost predicate Mirrors(byOrder: map<Id, int>, byClient: map<UserId, int>, total: int, ledger: seq<Reservation>) {
    (forall k :: At(byOrder, k) == PendingAt(ledger, OrderScope(k)) && (k in byOrder ==> byOrder[k] > 0)) &&
    (forall k :: At(byClient, k) == PendingAt(ledger, ClientScope(k)) && (k in byClient ==> byClient[k] > 0)) &&
    total == PendingAt(ledger, ServiceScope)
  }

  lemma MirrorsReserved(byOrder: map<Id, int>, byClient: map<UserId, int>, total: int, ledger: seq<Reservation>, c: Claim)
    requires Mirrors(byOrder, byClient, total, ledger)
    ensures Mirrors(Adjusted(byOrder, c.orderId, c.bytes), Adjusted(byClient, c.clientId, c.bytes), total + c.bytes,
                    ledger + [Reservation(c, false)])
  {
    forall scope ensures PendingAt(ledger + [Reservation(c, false)], scope) == PendingAt(ledger, scope) + BytesAt(scope, c) {
      ReservedMore(ledger, c, scope);
    }
  }

  lemma MirrorsReleased(byOrder: map<Id, int>, byClient: map<UserId, int>, total: int, ledger: seq<Reservation>, i: nat)
    requires Mirrors(byOrder, byClient, total, ledger) && i < |ledger| && !ledger[i].released
    ensures var c, freed: int := ledger[i].claim, ledger[i].claim.bytes;
      Mirrors(Adjusted(byOrder, c.orderId, -freed), Adjusted(byClient, c.clientId, -freed), total - freed,
              ledger[i := ledger[i].(released := true)])
  {
    var c := ledger[i].claim;
    var after := ledger[i := ledger[i].(released := true)];
    forall scope ensures PendingAt(after, scope) == PendingAt(ledger, scope) - BytesAt(scope, c) {
      ReleasedOne(ledger, i, scope);
    }
  }

  /** Once every positive reservation is released no entry remains. */
  lemma NothingRemains(byOrder: map<Id, int>, byClient: map<UserId, int>, total: int, ledger: seq<Reservation>)
    requires Mirrors(byOrder, byClient, total, ledger)
    requires forall i :: 0 <= i < |ledger| && ledger[i].claim.bytes > 0 ==> ledger[i].released
    ensures byOrder == map[] && byClient == map[] && total == 0
  {
    forall scope ensures PendingAt(ledger, scope) == 0 {
      NothingPending(ledger, scope);
    }
    forall k ensures k !in byOrder {
      assert At(byOrder, k) == PendingAt(ledger, OrderScope(k));
    }
    forall k ensures k !in byClient {
      assert At(byClient, k) == PendingAt(ledger, ClientScope(k));
    }
  }

  /** The release closure of one reservation, with its captured values and flag. */
  class ReservationHandle {
    const claim: Claim
    ghost const number: nat
    var released: bool

    constructor (claim: Claim, ghost number: nat)
      ensures this.claim == claim && this.number == number && !released
    {
      this.claim, this.number, released := claim, number, false;
    }
  }

  class StorageReservations {
    var byOrder: map<Id, int>
    var byClient: map<UserId, int>
    var total: int
    ghost var ledger: seq<Reservation>
    ghost var handles: seq<ReservationHandle>

    constructor ()
      ensures Valid() && ledger == [] && handles == []
    {
      byOrder, byClient, total, ledger, handles := map[], map[], 0, [], [];
    }

    ghost predicate Valid()
      reads this, handles
    {
      Mirrors(byOrder, byClient, total, ledger) && |handles| == |ledger| &&
      forall i :: 0 <= i < |handles| ==>
        handles[i].number == i && ledger[i] == Reservation(handles[i].claim, handles[i].released)
    }

    ghost predicate Issued(handle: ReservationHandle)
      reads this
    {
      handle.number < |handles| && handles[handle.number] == handle
    }

    method Pending(orderId: Id, clientId: UserId) returns (usage: StorageUsage)
      requires Valid()
      ensures usage == PendingUsage(ledger, orderId, clientId)
    {
      usage := StorageUsage(At(byOrder, orderId), At(byClient, clientId), total);
    }

    method Reserve(orderId: Id, clientId: UserId, bytes: nat) returns (handle: ReservationHandle)
      requires Valid()
      modifies this
      ensures Valid() && fresh(handle) && Issued(handle)
      ensures ledger == old(ledger) + [Reservation(Claim(orderId, clientId, bytes), false)]
      ensures handles == old(handles) + [handle] && handle.claim == Claim(orderId, clientId, bytes)
    {
      var claim := Claim(orderId, clientId, bytes);
      MirrorsReserved(byOrder, byClient, total, ledger, claim);
      byOrder := Adjusted(byOrder, orderId, bytes);
      byClient := Adjusted(byClient, clientId, bytes);
      total := total + bytes;
      handle := new ReservationHandle(claim, |handles|);
      ledger, handles := ledger + [Reservation(claim, false)], handles + [handle];
    }

    /** Calling it again changes nothing. */
    method Release(handle: ReservationHandle)
      requires Valid() && Issued(handle)
      modifies this`byOrder, this`byClient, this`total, this`ledger, handle
      ensures Valid() && Issued(handle)
      ensures ledger == old(ledger)[handle.number := Reservation(handle.claim, true)]
      ensures old(handle.released) ==>
        byOrder == old(byOrder) && byClient == old(byClient) && total == old(total)
    {
      ghost var i := handle.number;
      if handle.released {
        assert ledger[i] == Reservation(handle.claim, true);
        return;
      }
      MirrorsReleased(byOrder, byClient, total, ledger, i);
      handle.released := true;
      var freed: int := handle.claim.bytes;
      byOrder := Adjusted(byOrder, handle.claim.orderId, -freed);
      byClient := Adjusted(byClient, handle.claim.clientId, -freed);
      total := total - freed;
      ledger := ledger[i := ledger[i].(released := true)];
    }
  }
}
