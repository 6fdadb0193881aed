/** The room of one order: subscribe handlers, commits and evictions interleave step by step.
    A subscribe is check, join, check again, leave; an eviction follows its commit later. */
module OrderGateway {
  import opened Collections
  import opened SharedRules
  import opened OrderStateMachine
  import opened OrderRecords
  import opened OrderTransitions
  import opened TransitionMeaning
  import opened OrderWorkflow
  import opened OrderProtocol
  import opened OrderInvariants
  import opened OfferSubmission
  import opened SubmissionRounds
  import opened OrderRuns
  import opened RealtimeEvents

  type SocketId = int

  /** What a subscribe handler does next. */
  datatype Phase = FirstCheck | Join | Recheck | Leave

  datatype Handler = Handler(socket: SocketId, phase: Phase)

  datatype Lobby = Lobby(world: World, orderId: Id, sockets: map<SocketId, UserId>, room: set<SocketId>,
                         handlers: map<Id, Handler>, pending: seq<Eviction>)

  datatype Step =
    | Connect(socket: SocketId, user: UserId)
    | Subscribe(handler: Id, socket: SocketId)
    | Proceed(handler: Id)
    | CheckThrows(handler: Id)
    | Unsubscribe(socket: SocketId)
    | Commit(action: Action)
    | Evict(index: nat)

  // --------------------------------------------------------- evictions

  predicate Targets(e: Eviction, user: UserId, orderId: Id) {
    e.room == OrderRoom(orderId) && (e.members == UserRoom(user) || e.members == OrderRoom(orderId))
  }

  /** `in(members).socketsLeave(room)`: who stays. */
  function Remaining(room: set<SocketId>, sockets: map<SocketId, UserId>, e: Eviction, orderId: Id): set<SocketId> {
    set s | s in room && !(s in sockets && Targets(e, sockets[s], orderId))
  }

  /** What a step of the deal sends out as evictions once it has committed. */
  function EvictionsAfter(w: World, a: Action): seq<Eviction>
    requires Enabled(w, a)
  {
    if w.store.Deleted? then []
    else
      var db := w.store.db;
      match a
      case OfferAction(companyId, terms, newId, now) =>
        var r := SubmitOfferTx(db, companyId, terms, newId, now);
        if r.Ok? then BroadcastOf(r.value, None).evictions else []
      case CommandAction(command, now) =>
        var r := Transact(db, command, now);
        if r.Ok? then BroadcastOf(r.value, None).evictions else []
      case SubmitWorkAction(now) =>
        var r := SubmitWorkTx(db, now);
        if r.Ok? then BroadcastOf(r.value, None).evictions else []
      case DeleteOrder =>
        if DeleteTx(db).Ok? then OrderDeletedBroadcast(db.order.id, []).evictions else []
      case _ => []
  }

  // -------------------------------------------------------------- steps

  predicate Possible(g: Lobby, s: Step) {
    match s
    case Connect(socket, _) => socket !in g.sockets
    case Subscribe(handler, socket) => handler !in g.handlers && socket in g.sockets
    case Proceed(handler) => handler in g.handlers
    case CheckThrows(handler) =>
      handler in g.handlers && (g.handlers[handler].phase.FirstCheck? || g.handlers[handler].phase.Recheck?)
    case Commit(action) => Enabled(g.world, action)
    case Evict(index) => index < |g.pending|
    case Unsubscribe(_) => true
  }

  function Without<T>(s: seq<T>, index: nat): seq<T>
    requires index < |s|
  {
    s[..index] + s[index + 1..]
  }

  function Advanced(g: Lobby, handler: Id): Lobby
    requires handler in g.handlers && g.handlers[handler].socket in g.sockets
  {
    var h := g.handlers[handler];
    var participant := IsParticipant(g.world.store, g.sockets[h.socket]);
    match h.phase
    case FirstCheck =>
      if participant then g.(handlers := g.handlers[handler := h.(phase := Join)])
      else g.(handlers := g.handlers - {handler})
    case Join => g.(room := g.room + {h.socket}, handlers := g.handlers[handler := h.(phase := Recheck)])
    case Recheck =>
      if participant then g.(handlers := g.handlers - {handler})
      else g.(handlers := g.handlers[handler := h.(phase := Leave)])
    case Leave => g.(room := g.room - {h.socket}, handlers := g.handlers - {handler})
  }

  function NextLobby(g: Lobby, s: Step): Lobby
    requires Possible(g, s) && HandlersKnown(g)
  {
    match s
    case Connect(socket, user) => g.(sockets := g.sockets[socket := user])
    case Subscribe(handler, socket) => g.(handlers := g.handlers[handler := Handler(socket, FirstCheck)])
    case Proceed(handler) => Advanced(g, handler)
    case CheckThrows(handler) => g.(handlers := g.handlers - {handler})
    case Unsubscribe(socket) => g.(room := g.room - {socket})
    case Commit(action) =>
      g.(world := Next(g.world, action), pending := g.pending + EvictionsAfter(g.world, action))
    case Evict(index) =>
      g.(room := Remaining(g.room, g.sockets, g.pending[index], g.orderId), pending := Without(g.pending, index))
  }

  // ----------------------------------------------------------- invariant

  ghost predicate HandlersKnown(g: Lobby) {
    forall h :: h in g.handlers ==> g.handlers[h].socket in g.sockets
  }

  ghost predicate EvictionPending(pending: seq<Eviction>, user: UserId, orderId: Id) {
    exists i :: 0 <= i < |pending| && Targets(pending[i], user, orderId)
  }

  ghost predicate BeingSettled(handlers: map<Id, Handler>, socket: SocketId) {
    exists h :: h in handlers && handlers[h].socket == socket && (handlers[h].phase.Recheck? || handlers[h].phase.Leave?)
  }

  /** Why a socket may be in the room. */
  ghost predicate Accounted(g: Lobby, socket: SocketId) {
    socket in g.sockets &&
    (IsParticipant(g.world.store, g.sockets[socket]) ||
     EvictionPending(g.pending, g.sockets[socket], g.orderId) ||
     BeingSettled(g.handlers, socket))
  }

  ghost predicate LobbyOk(g: Lobby) {
    Inv(g.world) && HandlersKnown(g) &&
    (g.world.store.Live? ==> g.world.store.db.order.id == g.orderId) &&
    AccountedFor(g)
  }

  ghost predicate AccountedFor(g: Lobby) {
    forall s :: s in g.room ==> Accounted(g, s)
  }

  /** A second check that throws ends its handler and leaves the socket where it is. That is
      harmless when the socket has left, or when the room will still be put right without it. */
  ghost predicate Harmless(g: Lobby, s: Step) {
    s.CheckThrows? && s.handler in g.handlers && g.handlers[s.handler].phase.Recheck? &&
    g.handlers[s.handler].socket in g.room && g.handlers[s.handler].socket in g.sockets ==>
      var socket := g.handlers[s.handler].socket;
      IsParticipant(g.world.store, g.sockets[socket]) ||
      EvictionPending(g.pending, g.sockets[socket], g.orderId) ||
      exists other :: other in g.handlers && other != s.handler && g.handlers[other].socket == socket &&
        (g.handlers[other].phase.Recheck? || g.handlers[other].phase.Leave?)
  }

  // ------------------------------------------ who a commit makes leave

  /** Someone who is a participant of the rows before and not after lost an active offer. */
  lemma LostOffer(d: Db, e: Db, user: UserId)
    requires e.order.clientId == d.order.clientId
    requires IsParticipant(Live(d), user) && !IsParticipant(Live(e), user)
    ensures HoldsActive(d.offers, user) && !HoldsActive(e.offers, user)
  {
  }

  lemma CommandLoss(w: World, command: TransitionCommand, now: Moment, user: UserId)
    requires Inv(w) && w.store.Live? && !command.SubmitOffer? && !command.SubmitWork?
    requires IsParticipant(w.store, user) && !IsParticipant(Next(w, CommandAction(command, now)).store, user)
    ensures EvictionPending(EvictionsAfter(w, CommandAction(command, now)), user, w.store.db.order.id)
  {
    var db := w.store.db;
    var r := Transact(db, command, now);
    TransitionMeans(db, command, now);
    LostOffer(db, r.value.db, user);
    EvictionsAreExact(db, command, now, user);
    Listed(Evictions(db.order.id, r.value.offerUpdates), user, db.order.id);
  }

  lemma Listed(evictions: seq<Eviction>, user: UserId, orderId: Id)
    requires Eviction(UserRoom(user), OrderRoom(orderId)) in evictions
    ensures EvictionPending(evictions, user, orderId)
  {
    var i :| 0 <= i < |evictions| && evictions[i] == Eviction(UserRoom(user), OrderRoom(orderId));
    assert Targets(evictions[i], user, orderId);
  }

  /** Sending work never costs anyone the room: the executor stays the executor. */
  lemma WorkKeepsParticipants(db: Db, issued: set<Id>, now: Moment, user: UserId)
    requires UniqueOffers(db.offers) && NoDuplicateUnread(db.notes) && DealOk(db) && Numbered(db.submissions, issued)
    requires SubmitWorkTx(db, now).Ok? && IsParticipant(Live(db), user)
    ensures IsParticipant(Live(SubmitWorkTx(db, now).value.db), user)
  {
    var k := SubmitWorkMeans(db, issued, now);
    WorkKeepsActive(db, SubmitWorkTx(db, now).value.db, k, now, user);
  }

  lemma WorkKeepsActive(db: Db, e: Db, k: nat, now: Moment, user: UserId)
    requires k < |db.offers| && WorkCommitted(db, e, db.offers[k], now) && IsParticipant(Live(db), user)
    ensures IsParticipant(Live(e), user)
  {
    if db.order.clientId != user {
      var j :| 0 <= j < |db.offers| && db.offers[j].companyId == user && IsActiveOffer(db.offers[j].status);
      assert e.offers[j] == OfferAfter(db.offers[j], SubmitWork, db.offers[k].id);
      assert IsActiveOffer(e.offers[j].status);
    }
  }

  lemma OfferKeepsParticipants(db: Db, a: Action, user: UserId)
    requires UniqueOffers(db.offers) && NoDuplicateUnread(db.notes) && a.OfferAction?
    requires forall i :: 0 <= i < |db.offers| ==> db.offers[i].id != a.newId
    requires SubmitOfferTx(db, a.companyId, a.terms, a.newId, a.now).Ok? && IsParticipant(Live(db), user)
    ensures IsParticipant(Live(SubmitOfferTx(db, a.companyId, a.terms, a.newId, a.now).value.db), user)
  {
    var k := SubmitMeans(db, a.companyId, a.terms, a.newId, a.now);
    var e := SubmitOfferTx(db, a.companyId, a.terms, a.newId, a.now).value.db;
    if db.order.clientId != user {
      var j :| 0 <= j < |db.offers| && db.offers[j].companyId == user && IsActiveOffer(db.offers[j].status);
      assert j == k || e.offers[j] == db.offers[j];
      assert e.offers[j].companyId == user && IsActiveOffer(e.offers[j].status);
    }
  }

  lemma ResetKeepsParticipants(db: Db, demo: set<UserId>, user: UserId)
    requires IsParticipant(Live(db), user)
    ensures IsParticipant(Live(DemoResetTx(db, demo)), user)
  {
    var e := DemoResetTx(db, demo);
    if db.order.clientId != user {
      var j :| 0 <= j < |db.offers| && db.offers[j].companyId == user && IsActiveOffer(db.offers[j].status);
      assert db.offers[j] in e.offers;
      var i :| 0 <= i < |e.offers| && e.offers[i] == db.offers[j];
      assert e.offers[i].companyId == user;
    }
  }

  /** Whoever a commit makes a stranger to the order is on the eviction list it sends out. */
  lemma LossIsEvicted(w: World, a: Action, user: UserId)
    requires Inv(w) && Enabled(w, a) && w.store.Live?
    ensures IsParticipant(w.store, user) && !IsParticipant(Next(w, a).store, user) ==>
      EvictionPending(EvictionsAfter(w, a), user, w.store.db.order.id)
  {
    if IsParticipant(w.store, user) && !IsParticipant(Next(w, a).store, user) {
      var db := w.store.db;
      match a {
        case CommandAction(command, now) => CommandLoss(w, command, now, user);
        case DeleteOrder => assert Targets(EvictionsAfter(w, a)[0], user, db.order.id);
        case OfferAction(_, _, _, _) =>
          if SubmitOfferTx(db, a.companyId, a.terms, a.newId, a.now).Ok? {
            OfferKeepsParticipants(db, a, user);
          }
        case SubmitWorkAction(now) =>
          if SubmitWorkTx(db, now).Ok? {
            WorkKeepsParticipants(db, w.issued, now, user);
          }
        case DemoReset(demo) => ResetKeepsParticipants(db, demo, user);
        case _ => OthersKeepOffers(w, a);
      }
    }
  }

  /** And nobody who still takes part afterwards is on the list. */
  lemma ParticipantsAreNotEvicted(w: World, a: Action, user: UserId)
    requires Inv(w) && Enabled(w, a) && w.store.Live? && IsParticipant(Next(w, a).store, user)
    ensures !EvictionPending(EvictionsAfter(w, a), user, w.store.db.order.id)
  {
    match a {
      case CommandAction(command, now) => CommandSparesParticipants(w, command, now, user);
      case SubmitWorkAction(now) => WorkEvictsNobody(w, now);
      case OfferAction(_, _, _, _) => OfferEvictsNobody(w, a);
      case _ => OthersEvictNobody(w, a, user);
    }
  }

  lemma OthersEvictNobody(w: World, a: Action, user: UserId)
    requires w.store.Live? && Enabled(w, a) && IsParticipant(Next(w, a).store, user)
    requires !a.CommandAction? && !a.SubmitWorkAction? && !a.OfferAction?
    ensures EvictionsAfter(w, a) == []
  {
  }

  lemma WorkEvictsNobody(w: World, now: Moment)
    requires w.store.Live?
    ensures EvictionsAfter(w, SubmitWorkAction(now)) == []
  {
    if SubmitWorkTx(w.store.db, now).Ok? {
      ActiveUpdateEvictsNobody(w.store.db, SubmitWork, now);
    }
  }

  lemma OfferEvictsNobody(w: World, a: Action)
    requires w.store.Live? && a.OfferAction? && Enabled(w, a)
    ensures EvictionsAfter(w, a) == []
  {
    if SubmitOfferTx(w.store.db, a.companyId, a.terms, a.newId, a.now).Ok? {
      SendingEvictsNobody(w.store.db, a);
    }
  }

  lemma CommandSparesParticipants(w: World, command: TransitionCommand, now: Moment, user: UserId)
    requires Inv(w) && w.store.Live? && !command.SubmitOffer? && !command.SubmitWork?
    requires IsParticipant(Next(w, CommandAction(command, now)).store, user)
    ensures !EvictionPending(EvictionsAfter(w, CommandAction(command, now)), user, w.store.db.order.id)
  {
    if Transact(w.store.db, command, now).Ok? {
      TransitionMeans(w.store.db, command, now);
      CommandEvictsLosers(w.store.db, w.issued, command, now, user);
    }
  }

  lemma CommandEvictsLosers(db: Db, issued: set<Id>, command: TransitionCommand, now: Moment, user: UserId)
    requires OffersOk(db, issued) && NoDuplicateUnread(db.notes) && !command.SubmitOffer?
    requires Transact(db, command, now).Ok? && IsParticipant(Live(Transact(db, command, now).value.db), user)
    ensures !EvictionPending(Evictions(db.order.id, Transact(db, command, now).value.offerUpdates), user, db.order.id)
  {
    TransitionMeans(db, command, now);
    EvictionsAreExact(db, command, now, user);
  }

  /** A single update to a status in play evicts nobody. */
  lemma ActiveUpdateEvictsNobody(db: Db, command: TransitionCommand, now: Moment)
    requires command.SubmitWork? || command.SubmitOffer?
    requires Transact(db, command, now).Ok?
    ensures Evictions(db.order.id, Transact(db, command, now).value.offerUpdates) == []
  {
    var offer := ResolveOffer(db, command).value;
    SingleShape(OrderStateContext(db.order.clientId, db.order.status), BuildEvent(db, command, offer, now), db.order);
    NobodyInactive(db.order.id, Transact(db, command, now).value.offerUpdates);
  }

  lemma NobodyInactive(orderId: Id, updates: seq<OfferStatusUpdate>)
    requires forall i :: 0 <= i < |updates| ==> IsActiveOffer(updates[i].status)
    ensures Evictions(orderId, updates) == []
  {
    FilterNone(updates, Inactive());
  }

  lemma SendingEvictsNobody(db: Db, a: Action)
    requires a.OfferAction? && SubmitOfferTx(db, a.companyId, a.terms, a.newId, a.now).Ok?
    ensures Evictions(db.order.id, SubmitOfferTx(db, a.companyId, a.terms, a.newId, a.now).value.offerUpdates) == []
  {
    var existing := First(db.offers, OfCompany(a.companyId));
    var u := db.(offers := Upsert(db.offers, a.companyId, a.terms, a.newId, a.now));
    ActiveUpdateEvictsNobody(u, SubmitOffer(if existing.Some? then existing.value.id else a.newId,
                                            if existing.Some? then Some(existing.value.status) else None), a.now);
  }

  lemma OthersKeepOffers(w: World, a: Action)
    requires Enabled(w, a) && w.store.Live?
    requires !a.CommandAction? && !a.DeleteOrder? && !a.OfferAction? && !a.SubmitWorkAction? && !a.DemoReset?
    ensures var next := Next(w, a);
      next.store.Live? && next.store.db.offers == w.store.db.offers &&
      next.store.db.order.clientId == w.store.db.order.clientId
  {
  }

  // ------------------------------------------------------ every step

  /** Why a socket stays accounted for when only one of the three reasons may change. */
  lemma CommitKeepsAccounted(g: Lobby, a: Action, socket: SocketId)
    requires LobbyOk(g) && Enabled(g.world, a) && Accounted(g, socket)
    ensures Accounted(NextLobby(g, Commit(a)), socket)
  {
    var user := g.sockets[socket];
    PendingGrows(g.pending, EvictionsAfter(g.world, a), user, g.orderId);
    if IsParticipant(g.world.store, user) && !IsParticipant(Next(g.world, a).store, user) {
      LossIsEvicted(g.world, a, user);
    }
  }

  lemma PendingGrows(pending: seq<Eviction>, more: seq<Eviction>, user: UserId, orderId: Id)
    ensures EvictionPending(pending, user, orderId) || EvictionPending(more, user, orderId) ==>
      EvictionPending(pending + more, user, orderId)
  {
    var all := pending + more;
    if EvictionPending(pending, user, orderId) {
      var i :| 0 <= i < |pending| && Targets(pending[i], user, orderId);
      assert Targets(all[i], user, orderId);
    } else if EvictionPending(more, user, orderId) {
      var i :| 0 <= i < |more| && Targets(more[i], user, orderId);
      assert Targets(all[|pending| + i], user, orderId);
    }
  }

  lemma CommitStep(g: Lobby, a: Action)
    requires LobbyOk(g) && Enabled(g.world, a)
    ensures LobbyOk(NextLobby(g, Commit(a)))
  {
    StepKeepsInvariants(g.world, a);
    forall s | s in g.room && Accounted(g, s) ensures Accounted(NextLobby(g, Commit(a)), s) {
      CommitKeepsAccounted(g, a, s);
    }
  }

  /** A socket that stays behind when an eviction fires is not one it was for. */
  lemma EvictStep(g: Lobby, index: nat)
    requires LobbyOk(g) && index < |g.pending|
    ensures LobbyOk(NextLobby(g, Evict(index)))
  {
    var next := NextLobby(g, Evict(index));
    forall s | s in next.room && Accounted(g, s) ensures Accounted(next, s) {
      var user := g.sockets[s];
      if EvictionPending(g.pending, user, g.orderId) {
        var i :| 0 <= i < |g.pending| && Targets(g.pending[i], user, g.orderId);
        var j := if i < index then i else i - 1;
        assert i != index && next.pending[j] == g.pending[i];
      }
    }
  }

  lemma HandlerStep(g: Lobby, handler: Id)
    requires LobbyOk(g) && handler in g.handlers
    ensures LobbyOk(NextLobby(g, Proceed(handler)))
  {
    var next, h := NextLobby(g, Proceed(handler)), g.handlers[handler];
    forall s | s in next.room && s != h.socket && Accounted(g, s) ensures Accounted(next, s) {
      OtherHandlersStay(g, next, handler, s);
    }
    if h.phase.Join? {
      assert next.handlers[handler].socket == h.socket;
    } else if h.phase.Recheck? && next.handlers != g.handlers - {handler} {
      assert next.handlers[handler].phase.Leave?;
    } else if h.phase.FirstCheck? && Accounted(g, h.socket) {
      OtherHandlersStay(g, next, handler, h.socket);
    }
  }

  /** A handler's own progress does not touch the reasons of other handlers. */
  lemma OtherHandlersStay(g: Lobby, next: Lobby, handler: Id, socket: SocketId)
    requires Accounted(g, socket) && handler in g.handlers
    requires g.handlers[handler].socket != socket || g.handlers[handler].phase.FirstCheck?
    requires next.world == g.world && next.sockets == g.sockets && next.pending == g.pending && next.orderId == g.orderId
    requires forall h :: h in g.handlers && h != handler ==> h in next.handlers && next.handlers[h] == g.handlers[h]
    ensures Accounted(next, socket)
  {
    if BeingSettled(g.handlers, socket) {
      var h :| h in g.handlers && g.handlers[h].socket == socket && (g.handlers[h].phase.Recheck? || g.handlers[h].phase.Leave?);
      assert next.handlers[h] == g.handlers[h];
    }
  }

  lemma LobbyStep(g: Lobby, s: Step)
    requires LobbyOk(g) && Possible(g, s) && Harmless(g, s)
    ensures LobbyOk(NextLobby(g, s))
  {
    match s {
      case Commit(action) => CommitStep(g, action);
      case Evict(index) => EvictStep(g, index);
      case Proceed(handler) => HandlerStep(g, handler);
      case CheckThrows(handler) => ThrowStep(g, handler);
      case Subscribe(handler, socket) =>
        var next := NextLobby(g, s);
        forall t | t in g.room && Accounted(g, t) ensures Accounted(next, t) {
          StaysSettled(g, next, t);
        }
      case _ =>
        var next := NextLobby(g, s);
        forall t | t in next.room && Accounted(g, t) ensures Accounted(next, t) {
          StaysSettled(g, next, t);
        }
    }
  }

  lemma StaysSettled(g: Lobby, next: Lobby, socket: SocketId)
    requires Accounted(g, socket)
    requires next.world == g.world && next.pending == g.pending && next.orderId == g.orderId
    requires socket in next.sockets && next.sockets[socket] == g.sockets[socket]
    requires forall h :: h in g.handlers ==> h in next.handlers && next.handlers[h] == g.handlers[h]
    ensures Accounted(next, socket)
  {
  }

  lemma ThrowStep(g: Lobby, handler: Id)
    requires LobbyOk(g) && Possible(g, CheckThrows(handler)) && Harmless(g, CheckThrows(handler))
    ensures LobbyOk(NextLobby(g, CheckThrows(handler)))
  {
    var next, h := NextLobby(g, CheckThrows(handler)), g.handlers[handler];
    forall s | s in next.room ensures Accounted(next, s) {
      if s != h.socket || h.phase.FirstCheck? {
        OtherHandlersStay(g, next, handler, s);
      } else {
        OtherSettles(g, next, handler, s);
      }
    }
  }

  lemma OtherSettles(g: Lobby, next: Lobby, handler: Id, socket: SocketId)
    requires handler in g.handlers && g.handlers[handler] == Handler(socket, Recheck)
    requires socket in g.sockets && socket in g.room && Harmless(g, CheckThrows(handler))
    requires next == g.(handlers := g.handlers - {handler})
    ensures Accounted(next, socket)
  {
    if other :| other in g.handlers && other != handler && g.handlers[other].socket == socket &&
                (g.handlers[other].phase.Recheck? || g.handlers[other].phase.Leave?) {
      assert next.handlers[other] == g.handlers[other];
    }
  }

  /** A harmful throw is seen at once: nothing accounts for its socket any more. */
  lemma HarmIsDone(g: Lobby, handler: Id)
    requires HandlersKnown(g) && Possible(g, CheckThrows(handler)) && !Harmless(g, CheckThrows(handler))
    ensures !AccountedFor(NextLobby(g, CheckThrows(handler)))
  {
    var socket := g.handlers[handler].socket;
    var next := NextLobby(g, CheckThrows(handler));
    assert socket in next.room && !BeingSettled(next.handlers, socket);
  }

  // ------------------------------------------------------------- runs

  ghost predicate ValidLobbyRun(g: Lobby, steps: seq<Step>)
    decreases |steps|
  {
    steps == [] ||
    (HandlersKnown(g) && Possible(g, steps[0]) && ValidLobbyRun(NextLobby(g, steps[0]), steps[1..]))
  }

  ghost function RunLobby(g: Lobby, steps: seq<Step>): Lobby
    requires ValidLobbyRun(g, steps)
    decreases |steps|
  {
    if steps == [] then g else RunLobby(NextLobby(g, steps[0]), steps[1..])
  }

  /** Along the run every throwing second check is harmless. */
  ghost predicate HarmlessThrows(g: Lobby, steps: seq<Step>)
    requires ValidLobbyRun(g, steps)
    decreases |steps|
  {
    steps == [] || (Harmless(g, steps[0]) && HarmlessThrows(NextLobby(g, steps[0]), steps[1..]))
  }

  /** In every state along the run each socket in the room is accounted for. */
  ghost predicate AccountedThroughout(g: Lobby, steps: seq<Step>)
    requires ValidLobbyRun(g, steps)
    decreases |steps|
  {
    AccountedFor(g) && (steps == [] || AccountedThroughout(NextLobby(g, steps[0]), steps[1..]))
  }

  /** The room property, exactly. In every interleaving of subscribe steps, commits and
      evictions, a socket in the room is always a participant's, or an eviction that will
      remove it is pending, or a handler of it has yet to check again or leave, if and only if
      no second check throws while nothing else would put the room right. */
  lemma {:induction false} RoomIsAccountedForIff(g: Lobby, steps: seq<Step>)
    requires LobbyOk(g) && ValidLobbyRun(g, steps)
    ensures AccountedThroughout(g, steps) <==> HarmlessThrows(g, steps)
    decreases |steps|
  {
    if steps != [] {
      if Harmless(g, steps[0]) {
        LobbyStep(g, steps[0]);
        RoomIsAccountedForIff(NextLobby(g, steps[0]), steps[1..]);
      } else {
        HarmIsDone(g, steps[0].handler);
      }
    }
  }

  lemma {:induction false} HarmlessRunKeepsLobby(g: Lobby, steps: seq<Step>)
    requires LobbyOk(g) && ValidLobbyRun(g, steps) && HarmlessThrows(g, steps)
    ensures LobbyOk(RunLobby(g, steps))
    decreases |steps|
  {
    if steps != [] {
      LobbyStep(g, steps[0]);
      HarmlessRunKeepsLobby(NextLobby(g, steps[0]), steps[1..]);
    }
  }

  /** Once everything under way has finished, only participants are in the room. */
  lemma QuietRoomHoldsParticipants(g: Lobby, steps: seq<Step>, socket: SocketId)
    requires LobbyOk(g) && ValidLobbyRun(g, steps) && HarmlessThrows(g, steps)
    requires var end := RunLobby(g, steps); socket in end.room && end.pending == [] && end.handlers == map[]
    ensures var end := RunLobby(g, steps);
      socket in end.sockets && IsParticipant(end.world.store, end.sockets[socket])
  {
    HarmlessRunKeepsLobby(g, steps);
    assert Accounted(RunLobby(g, steps), socket);
  }

  // --------------------------------------------- who gets in, who does not

  /** The socket's user takes part in the order as it is now. */
  predicate TakesPart(g: Lobby, socket: SocketId) {
    socket in g.sockets && IsParticipant(g.world.store, g.sockets[socket])
  }

  /** The step does not take the socket out of the room: it is no unsubscribe of it, no eviction
      for its user that fires, no other handler of it that leaves. */
  predicate LetsStay(g: Lobby, s: Step, socket: SocketId) {
    s != Unsubscribe(socket) &&
    (s.Evict? && s.index < |g.pending| && socket in g.sockets ==>
      !Targets(g.pending[s.index], g.sockets[socket], g.orderId)) &&
    (s.Proceed? && s.handler in g.handlers ==> g.handlers[s.handler] != Handler(socket, Leave))
  }

  /** The user takes part at both checks, no check of the handler throws, and from the join on
      nothing takes the socket out. */
  predicate Undisturbed(g: Lobby, s: Step, handler: Id, socket: SocketId) {
    if handler !in g.handlers then LetsStay(g, s, socket) && !(s.Subscribe? && s.handler == handler)
    else
      var phase := g.handlers[handler].phase;
      s != CheckThrows(handler) &&
      (s == Proceed(handler) && (phase.FirstCheck? || phase.Recheck?) ==> TakesPart(g, socket)) &&
      (phase.Recheck? ==> LetsStay(g, s, socket))
  }

  ghost predicate UndisturbedRun(g: Lobby, steps: seq<Step>, handler: Id, socket: SocketId)
    requires ValidLobbyRun(g, steps)
    decreases |steps|
  {
    steps == [] ||
    (Undisturbed(g, steps[0], handler, socket) && UndisturbedRun(NextLobby(g, steps[0]), steps[1..], handler, socket))
  }

  /** The handler is on its way in, and once it has joined or ended the socket is in the room. */
  ghost predicate OnItsWay(g: Lobby, handler: Id, socket: SocketId) {
    socket in g.sockets &&
    if handler in g.handlers then
      g.handlers[handler].socket == socket && !g.handlers[handler].phase.Leave? &&
      (g.handlers[handler].phase.Recheck? ==> socket in g.room)
    else socket in g.room
  }

  lemma KnownStays(g: Lobby, s: Step)
    requires HandlersKnown(g) && Possible(g, s)
    ensures HandlersKnown(NextLobby(g, s))
  {
  }

  /** A step that lets the socket stay leaves it in the room. */
  lemma StaysInRoom(g: Lobby, s: Step, socket: SocketId)
    requires HandlersKnown(g) && Possible(g, s) && socket in g.sockets && socket in g.room && LetsStay(g, s, socket)
    ensures socket in NextLobby(g, s).room
  {
  }

  lemma OneStepOnItsWay(g: Lobby, s: Step, handler: Id, socket: SocketId)
    requires HandlersKnown(g) && Possible(g, s) && OnItsWay(g, handler, socket) && Undisturbed(g, s, handler, socket)
    ensures OnItsWay(NextLobby(g, s), handler, socket)
  {
    if socket in g.room && LetsStay(g, s, socket) {
      StaysInRoom(g, s, socket);
    }
  }

  /** A participant gets in: in every interleaving, a subscribe handler whose user takes part at
      both checks and that nothing disturbs ends with its socket in the room, and the socket
      stays there until something takes it out. */
  lemma {:induction false} ParticipantGetsIn(g: Lobby, steps: seq<Step>, handler: Id, socket: SocketId)
    requires HandlersKnown(g) && ValidLobbyRun(g, steps) && UndisturbedRun(g, steps, handler, socket)
    requires OnItsWay(g, handler, socket)
    ensures var end := RunLobby(g, steps);
      OnItsWay(end, handler, socket) && (handler !in end.handlers ==> socket in end.room)
    decreases |steps|
  {
    if steps != [] {
      KnownStays(g, steps[0]);
      OneStepOnItsWay(g, steps[0], handler, socket);
      ParticipantGetsIn(NextLobby(g, steps[0]), steps[1..], handler, socket);
    }
  }

  /** A handler just created is on its way. */
  lemma SubscriberIsOnItsWay(g: Lobby, handler: Id, socket: SocketId)
    requires HandlersKnown(g) && Possible(g, Subscribe(handler, socket))
    ensures OnItsWay(NextLobby(g, Subscribe(handler, socket)), handler, socket)
  {
  }

  ghost predicate NoMoveOf(steps: seq<Step>, handler: Id) {
    forall i :: 0 <= i < |steps| ==> steps[i] != Proceed(handler) && steps[i] != CheckThrows(handler)
  }

  lemma {:induction false} HandlerWaits(g: Lobby, steps: seq<Step>, handler: Id)
    requires HandlersKnown(g) && ValidLobbyRun(g, steps) && NoMoveOf(steps, handler) && handler in g.handlers
    ensures var end := RunLobby(g, steps);
      HandlersKnown(end) && handler in end.handlers && end.handlers[handler] == g.handlers[handler]
    decreases |steps|
  {
    if steps != [] {
      KnownStays(g, steps[0]);
      forall i | 0 <= i < |steps[1..]| ensures steps[1..][i] != Proceed(handler) && steps[1..][i] != CheckThrows(handler) {
        assert steps[1..][i] == steps[i + 1];
      }
      assert handler in NextLobby(g, steps[0]).handlers;
      HandlerWaits(NextLobby(g, steps[0]), steps[1..], handler);
    }
  }

  /** Whoever takes no part at the first check is turned away and the room is as it was. */
  lemma StrangerIsTurnedAway(g: Lobby, handler: Id)
    requires HandlersKnown(g) && handler in g.handlers && g.handlers[handler].phase.FirstCheck?
    requires !TakesPart(g, g.handlers[handler].socket)
    ensures var next := NextLobby(g, Proceed(handler)); next.room == g.room && handler !in next.handlers
  {
  }

  /** Whoever takes no part at the second check is outside when the handler ends, whatever runs
      between the check and the end. */
  lemma StrangerIsSentOut(g: Lobby, handler: Id, steps: seq<Step>)
    requires HandlersKnown(g) && handler in g.handlers && g.handlers[handler].phase.Recheck?
    requires !TakesPart(g, g.handlers[handler].socket)
    requires ValidLobbyRun(NextLobby(g, Proceed(handler)), steps) && NoMoveOf(steps, handler)
    ensures var before := RunLobby(NextLobby(g, Proceed(handler)), steps);
      HandlersKnown(before) && Possible(before, Proceed(handler)) &&
      var end := NextLobby(before, Proceed(handler));
      g.handlers[handler].socket !in end.room && handler !in end.handlers
  {
    KnownStays(g, Proceed(handler));
    HandlerWaits(NextLobby(g, Proceed(handler)), steps, handler);
  }

  /** Whoever unsubscribes is out. */
  lemma UnsubscribedIsOut(g: Lobby, socket: SocketId)
    requires HandlersKnown(g)
    ensures var next := NextLobby(g, Unsubscribe(socket)); next.room == g.room - {socket} && next.handlers == g.handlers
  {
  }

  /** A handler moves no socket but its own; besides handlers only evictions and the socket's own
      unsubscribe move it. */
  lemma OnlyOwnSocketMoves(g: Lobby, s: Step, other: SocketId)
    requires HandlersKnown(g) && Possible(g, s) && !s.Evict? && s != Unsubscribe(other)
    requires s.Proceed? ==> g.handlers[s.handler].socket != other
    ensures other in NextLobby(g, s).room <==> other in g.room
  {
  }

  ghost predicate OnlyEvictions(steps: seq<Step>) {
    forall i :: 0 <= i < |steps| ==> steps[i].Evict?
  }

  lemma {:induction false} EvictionsOnlyEmptyRooms(g: Lobby, steps: seq<Step>)
    requires ValidLobbyRun(g, steps) && OnlyEvictions(steps)
    ensures var end := RunLobby(g, steps);
      end == g.(room := end.room, pending := end.pending) && end.room <= g.room
    decreases |steps|
  {
    if steps != [] {
      EvictionsOnlyEmptyRooms(NextLobby(g, steps[0]), steps[1..]);
    }
  }

  /** How it goes wrong: the first check passes, a commit makes the user a stranger, all its
      evictions fire before the join, and then the second check fails. The socket stays in the
      room with nothing left that would remove it. */
  lemma FailedCheckLeavesAStranger(g: Lobby, handler: Id, a: Action, evictions: seq<Step>)
    requires LobbyOk(g) && handler in g.handlers && g.handlers == map[handler := Handler(g.handlers[handler].socket, Join)]
    requires Enabled(g.world, a) && !IsParticipant(Next(g.world, a).store, g.sockets[g.handlers[handler].socket])
    requires ValidLobbyRun(NextLobby(g, Commit(a)), evictions) && OnlyEvictions(evictions)
    requires RunLobby(NextLobby(g, Commit(a)), evictions).pending == []
    ensures var evicted := RunLobby(NextLobby(g, Commit(a)), evictions);
      HandlersKnown(evicted) && Possible(evicted, Proceed(handler)) &&
      var joined := NextLobby(evicted, Proceed(handler));
      HandlersKnown(joined) && Possible(joined, CheckThrows(handler)) &&
      var end, socket := NextLobby(joined, CheckThrows(handler)), g.handlers[handler].socket;
      socket in end.room && !Accounted(end, socket)
  {
    EvictionsOnlyEmptyRooms(NextLobby(g, Commit(a)), evictions);
  }

  /** Pending evictions can always all fire. */
  lemma {:induction false} EvictionsCanFinish(g: Lobby) returns (steps: seq<Step>)
    requires HandlersKnown(g)
    ensures ValidLobbyRun(g, steps) && OnlyEvictions(steps) && RunLobby(g, steps).pending == []
    decreases |g.pending|
  {
    steps := [];
    if g.pending != [] {
      var rest := EvictionsCanFinish(NextLobby(g, Evict(0)));
      steps := [Evict(0)] + rest;
      assert steps[1..] == rest;
    }
  }

  lemma RefusalCommits(db: Db, o: OfferRow, now: Moment)
    requires UniqueOffers(db.offers) && NoDuplicateUnread(db.notes) && DealOk(db) && o in db.offers && o.status.Sent?
    ensures var r := Transact(db, RejectOffer(o.id), now); r.Ok? && Moved(db, RejectOffer(o.id), o, now, r.value.db)
  {
    var k :| 0 <= k < |db.offers| && db.offers[k] == o;
    TheOffer(db.offers, o);
    assert ResolveOffer(db, RejectOffer(o.id)) == Ok(o);
    assert Allowed(db, RejectOffer(o.id), o, now);
    TransitionMeans(db, RejectOffer(o.id), now);
  }

  /** Refusing a pending offer makes its company a stranger to the order. */
  lemma RefusalMakesStranger(w: World, o: OfferRow, now: Moment)
    requires Inv(w) && w.store.Live? && o in w.store.db.offers && o.status.Sent?
    ensures !IsParticipant(Next(w, CommandAction(RejectOffer(o.id), now)).store, o.companyId)
  {
    RefusalCommits(w.store.db, o, now);
    NoClientOffers(w.store.db, w.issued, o);
    RefusedRows(w.store.db, RejectOffer(o.id), o, now, Transact(w.store.db, RejectOffer(o.id), now).value.db);
  }

  lemma NoClientOffers(db: Db, issued: set<Id>, o: OfferRow)
    requires OffersOk(db, issued) && o in db.offers
    ensures db.order.clientId != o.companyId
  {
    var k :| 0 <= k < |db.offers| && db.offers[k] == o;
  }

  lemma RefusedRows(db: Db, command: TransitionCommand, o: OfferRow, now: Moment, after: Db)
    requires UniqueOffers(db.offers) && o in db.offers && command.RejectOffer? && Moved(db, command, o, now, after)
    requires db.order.clientId != o.companyId
    ensures !IsParticipant(Live(after), o.companyId)
  {
    forall j | 0 <= j < |db.offers| && after.offers[j].companyId == o.companyId
      ensures after.offers[j].status == OfferStatus.Rejected
    {
      assert after.offers[j] == OfferAfter(db.offers[j], command, o.id);
      var k :| 0 <= k < |db.offers| && db.offers[k] == o;
      assert j == k;
    }
  }

  // ------------------------------------------- a run that goes wrong

  ghost predicate LeadsToStranger(g: Lobby, steps: seq<Step>, socket: SocketId) {
    ValidLobbyRun(g, steps) && var end := RunLobby(g, steps); socket in end.room && !Accounted(end, socket)
  }

  lemma Prepended(g: Lobby, s: Step, rest: seq<Step>, socket: SocketId)
    requires HandlersKnown(g) && Possible(g, s) && LeadsToStranger(NextLobby(g, s), rest, socket)
    ensures LeadsToStranger(g, [s] + rest, socket)
  {
    assert ([s] + rest)[1..] == rest;
  }

  lemma {:induction false} PrependedRun(g: Lobby, steps: seq<Step>, rest: seq<Step>, socket: SocketId)
    requires ValidLobbyRun(g, steps) && LeadsToStranger(RunLobby(g, steps), rest, socket)
    ensures LeadsToStranger(g, steps + rest, socket)
    decreases |steps|
  {
    if steps == [] {
      assert steps + rest == rest;
    } else {
      PrependedRun(NextLobby(g, steps[0]), steps[1..], rest, socket);
      Prepended(g, steps[0], steps[1..] + rest, socket);
      assert [steps[0]] + (steps[1..] + rest) == steps + rest;
    }
  }

  /** A company refused between its first check and its join, whose second check throws. */
  lemma RefusedCompanyCanStay(g: Lobby, handler: Id, o: OfferRow, now: Moment) returns (steps: seq<Step>)
    requires LobbyOk(g) && g.world.store.Live? && o in g.world.store.db.offers && o.status.Sent?
    requires handler in g.handlers && g.handlers == map[handler := Handler(g.handlers[handler].socket, Join)]
    requires g.sockets[g.handlers[handler].socket] == o.companyId
    ensures LeadsToStranger(g, steps, g.handlers[handler].socket)
  {
    var a, socket := CommandAction(RejectOffer(o.id), now), g.handlers[handler].socket;
    RefusalMakesStranger(g.world, o, now);
    var refused := NextLobby(g, Commit(a));
    var evictions := EvictionsCanFinish(refused);
    FailedCheckLeavesAStranger(g, handler, a, evictions);
    var evicted := RunLobby(refused, evictions);
    var joined := NextLobby(evicted, Proceed(handler));
    assert LeadsToStranger(NextLobby(joined, CheckThrows(handler)), [], socket);
    Prepended(joined, CheckThrows(handler), [], socket);
    Prepended(evicted, Proceed(handler), [CheckThrows(handler)] + [], socket);
    steps := [Proceed(handler)] + ([CheckThrows(handler)] + []);
    PrependedRun(refused, evictions, steps, socket);
    steps := evictions + steps;
    Prepended(g, Commit(a), steps, socket);
    steps := [Commit(a)] + steps;
  }

  /** The lobby of a new order: nobody connected yet. */
  ghost function EmptyLobby(w: World): Lobby
    requires w.store.Live?
  {
    Lobby(w, w.store.db.order.id, map[], {}, map[], [])
  }

  lemma EmptyLobbyIsOk(w: World)
    requires Init(w)
    ensures LobbyOk(EmptyLobby(w))
  {
  }

  lemma SubscriberCanStay(g: Lobby, o: OfferRow, now: Moment) returns (steps: seq<Step>)
    requires LobbyOk(g) && g.world.store.Live? && o in g.world.store.db.offers && o.status.Sent?
    requires g.sockets == map[] && g.handlers == map[] && IsParticipant(g.world.store, o.companyId)
    ensures LeadsToStranger(g, steps, 0)
  {
    var connect, subscribe, check := Connect(0, o.companyId), Subscribe(0, 0), Proceed(0);
    var connected := NextLobby(g, connect);
    LobbyStep(g, connect);
    var subscribed := NextLobby(connected, subscribe);
    LobbyStep(connected, subscribe);
    var checked := NextLobby(subscribed, check);
    LobbyStep(subscribed, check);
    assert checked.handlers == map[0 := Handler(0, Join)];
    steps := RefusedCompanyCanStay(checked, 0, o, now);
    Prepended(subscribed, check, steps, 0);
    Prepended(connected, subscribe, [check] + steps, 0);
    Prepended(g, connect, [subscribe] + ([check] + steps), 0);
    steps := [connect] + ([subscribe] + ([check] + steps));
  }

  /** From a new order on: a company sends an offer, connects, subscribes and passes the first
      check; the refusal follows. So the room property does fail in a whole run of the code. */
  lemma StrangerFromTheStart(w: World, company: UserId, terms: OfferTerms, newId: Id, now: Moment)
    returns (steps: seq<Step>)
    requires Init(w) && company.role.Company? && newId !in w.issued
    ensures LeadsToStranger(EmptyLobby(w), steps, 0)
  {
    var g, sent := EmptyLobby(w), Commit(OfferAction(company, terms, newId, now));
    EmptyLobbyIsOk(w);
    FirstOfferStands(w, company, terms, newId, now);
    LobbyStep(g, sent);
    steps := SubscriberCanStay(NextLobby(g, sent), NewOffer(newId, company, terms), now);
    Prepended(g, sent, steps, 0);
    steps := [sent] + steps;
  }

  lemma FirstOfferStands(w: World, company: UserId, terms: OfferTerms, newId: Id, now: Moment)
    requires Init(w) && company.role.Company? && newId !in w.issued
    ensures var next := Next(w, OfferAction(company, terms, newId, now));
      next.store.Live? && NewOffer(newId, company, terms) in next.store.db.offers && IsParticipant(next.store, company)
  {
    var db := w.store.db;
    var k := SubmitMeans(db, company, terms, newId, now);
    var after := SubmitOfferTx(db, company, terms, newId, now).value.db;
    assert after.offers[k] == NewOffer(newId, company, terms);
  }

  // ------------------------------------------------------------- class

  predicate EvictedBy(evictions: seq<Eviction>, user: UserId, orderId: Id) {
    exists i | 0 <= i < |evictions| :: Targets(evictions[i], user, orderId)
  }

  /** The sockets of the namespace and who of them is in the order's room. */
  class OrderRoomMembers {
    const orderId: Id
    var sockets: map<SocketId, UserId>
    var room: set<SocketId>

    constructor (orderId: Id)
      ensures this.orderId == orderId && sockets == map[] && room == {}
    {
      this.orderId, sockets, room := orderId, map[], {};
    }

    /** Exactly the sockets some eviction targets leave, whatever the order of the list. */
    method Evict(evictions: seq<Eviction>)
      modifies this`room
      ensures forall s :: s in room <==>
        s in old(room) && !(s in sockets && EvictedBy(evictions, sockets[s], orderId))
    {
      for i := 0 to |evictions|
        invariant forall s :: s in room <==>
          s in old(room) && !(s in sockets && EvictedBy(evictions[..i], sockets[s], orderId))
      {
        ghost var before := room;
        room := Remaining(room, sockets, evictions[i], orderId);
        forall s | s in sockets
          ensures EvictedBy(evictions[..i + 1], sockets[s], orderId) <==>
            EvictedBy(evictions[..i], sockets[s], orderId) || Targets(evictions[i], sockets[s], orderId)
        {
          OneMoreEviction(evictions, i, sockets[s], orderId);
        }
      }
      assert evictions[..|evictions|] == evictions;
    }
  }

  lemma OneMoreEviction(evictions: seq<Eviction>, i: nat, user: UserId, orderId: Id)
    requires i < |evictions|
    ensures EvictedBy(evictions[..i + 1], user, orderId) <==>
      EvictedBy(evictions[..i], user, orderId) || Targets(evictions[i], user, orderId)
  {
    var shorter, longer := evictions[..i], evictions[..i + 1];
    assert forall k :: 0 <= k < i ==> longer[k] == shorter[k];
    assert longer[i] == evictions[i];
  }
}
