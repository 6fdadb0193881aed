/** From a committed transition to the messages and evictions of the order's room: who is told
    what, and who has to leave. */
module RealtimeEvents {
  import opened Collections
  import opened SharedRules
  import opened OrderStateMachine
  import opened OrderRecords
  import opened OrderTransitions
  import opened TransitionMeaning
  import opened OrderWorkflow

  datatype Room = OrderRoom(orderId: Id) | UserRoom(user: UserId) | CompanyFeed

  datatype SocketEvent =
    | OfferCreated
    | OfferUpdated
    | OfferStatusChanged
    | OrderStatusChanged
    | NotificationCreated

  datatype Payload =
    | OrderPayload(orderId: Id)
    | OfferPayload(orderId: Id, offerId: Id)
    | NotificationPayload(notification: NotificationRow)

  datatype Message = Message(rooms: seq<Room>, event: SocketEvent, payload: Payload)

  /** Everyone in room `members` leaves `room`. */
  datatype Eviction = Eviction(members: Room, room: Room)

  datatype Broadcast = Broadcast(evictions: seq<Eviction>, messages: seq<Message>)

  // ------------------------------------------------------- what is sent

  function OfferEventMessages(applied: AppliedTransition, offerEvent: Option<SocketEvent>): seq<Message> {
    var order := applied.db.order;
    if offerEvent.None? then []
    else [Message([UserRoom(order.clientId), UserRoom(applied.companyId)], offerEvent.value,
                  OfferPayload(order.id, applied.offerId))]
  }

  function StatusMessages(applied: AppliedTransition): seq<Message> {
    var order := applied.db.order;
    var rooms := [OrderRoom(order.id), UserRoom(order.clientId)];
    if applied.fromStatus == applied.nextStatus then []
    else if AcceptsOffers(applied.fromStatus) == AcceptsOffers(applied.nextStatus) then
      [Message(rooms, OrderStatusChanged, OrderPayload(order.id))]
    else [Message(rooms + [CompanyFeed], OrderStatusChanged, OrderPayload(order.id))]
  }

  function UpdateMessage(order: OrderRow, u: OfferStatusUpdate): Message {
    Message([UserRoom(order.clientId), UserRoom(u.companyId)], OfferStatusChanged, OfferPayload(order.id, u.offerId))
  }

  function UpdateMessages(order: OrderRow, updates: seq<OfferStatusUpdate>): (r: seq<Message>)
    ensures |r| == |updates| && forall i :: 0 <= i < |r| ==> r[i] == UpdateMessage(order, updates[i])
  {
    seq(|updates|, i requires 0 <= i < |updates| => UpdateMessage(order, updates[i]))
  }

  function NotificationMessages(notes: seq<NotificationRow>): (r: seq<Message>)
    ensures |r| == |notes|
    ensures forall i :: 0 <= i < |r| ==>
      r[i] == Message([UserRoom(notes[i].userId)], NotificationCreated, NotificationPayload(notes[i]))
  {
    seq(|notes|, i requires 0 <= i < |notes| =>
      Message([UserRoom(notes[i].userId)], NotificationCreated, NotificationPayload(notes[i])))
  }

  function Inactive(): OfferStatusUpdate -> bool {
    (u: OfferStatusUpdate) => !IsActiveOffer(u.status)
  }

  function Evictions(orderId: Id, updates: seq<OfferStatusUpdate>): (r: seq<Eviction>)
    ensures |r| == |Filter(updates, Inactive())|
    ensures forall i :: 0 <= i < |r| ==>
      r[i] == Eviction(UserRoom(Filter(updates, Inactive())[i].companyId), OrderRoom(orderId))
  {
    var left := Filter(updates, Inactive());
    seq(|left|, i requires 0 <= i < |left| => Eviction(UserRoom(left[i].companyId), OrderRoom(orderId)))
  }

  function BroadcastOf(applied: AppliedTransition, offerEvent: Option<SocketEvent>): Broadcast {
    Broadcast(Evictions(applied.db.order.id, applied.offerUpdates),
              OfferEventMessages(applied, offerEvent) + StatusMessages(applied) +
              UpdateMessages(applied.db.order, applied.offerUpdates) + NotificationMessages(applied.notifications))
  }

  method TransitionBroadcast(applied: AppliedTransition, offerEvent: Option<SocketEvent>) returns (b: Broadcast)
    ensures b == BroadcastOf(applied, offerEvent)
  {
    var order := applied.db.order;
    var messages: seq<Message> := [];
    if offerEvent.Some? {
      messages := messages + [Message([UserRoom(order.clientId), UserRoom(applied.companyId)], offerEvent.value,
                                      OfferPayload(order.id, applied.offerId))];
    }
    if applied.fromStatus != applied.nextStatus {
      var rooms := [OrderRoom(order.id), UserRoom(order.clientId)];
      if AcceptsOffers(applied.fromStatus) != AcceptsOffers(applied.nextStatus) {
        rooms := rooms + [CompanyFeed];
      }
      assert StatusMessages(applied) == [Message(rooms, OrderStatusChanged, OrderPayload(order.id))];
      messages := messages + [Message(rooms, OrderStatusChanged, OrderPayload(order.id))];
    }
    ghost var head := OfferEventMessages(applied, offerEvent) + StatusMessages(applied);
    var updates := applied.offerUpdates;
    for i := 0 to |updates|
      invariant messages == head + UpdateMessages(order, updates[..i])
    {
      messages := messages + [UpdateMessage(order, updates[i])];
      assert UpdateMessages(order, updates[..i + 1]) == UpdateMessages(order, updates[..i]) + [UpdateMessage(order, updates[i])];
    }
    assert updates[..|updates|] == updates;
    messages := messages + NotificationMessages(applied.notifications);
    b := Broadcast(Evictions(order.id, updates), messages);
  }

  /** Deletion dissolves the room: whoever is in it leaves it. */
  function OrderDeletedBroadcast(orderId: Id, notes: seq<NotificationRow>): Broadcast {
    Broadcast([Eviction(OrderRoom(orderId), OrderRoom(orderId))],
              [Message([CompanyFeed], OrderStatusChanged, OrderPayload(orderId))] + NotificationMessages(notes))
  }

  // ------------------------------------------- updates and rows agree

  /** The update is the new status of the row, under the row's company. */
  ghost predicate UpdateOf(u: OfferStatusUpdate, before: OfferRow, after: OfferRow) {
    u.offerId == before.id && u.companyId == before.companyId && u.status == after.status
  }

  ghost predicate SameRows(before: seq<OfferRow>, after: seq<OfferRow>) {
    |after| == |before| &&
    forall j :: 0 <= j < |before| ==> after[j].id == before[j].id && after[j].companyId == before[j].companyId
  }

  ghost predicate EveryUpdateIsARow(updates: seq<OfferStatusUpdate>, before: seq<OfferRow>, after: seq<OfferRow>)
    requires |before| == |after|
  {
    forall i :: 0 <= i < |updates| ==>
      exists j :: 0 <= j < |before| && UpdateOf(updates[i], before[j], after[j]) && FromActive(before[j], after[j])
  }

  predicate FromActive(before: OfferRow, after: OfferRow) {
    IsActiveOffer(before.status) && after.status != before.status
  }

  ghost predicate EveryChangeIsReported(updates: seq<OfferStatusUpdate>, before: seq<OfferRow>, after: seq<OfferRow>)
    requires |before| == |after|
  {
    forall j :: 0 <= j < |before| && after[j].status != before[j].status ==>
      exists i :: 0 <= i < |updates| && UpdateOf(updates[i], before[j], after[j])
  }

  ghost predicate ReportsChanges(updates: seq<OfferStatusUpdate>, before: seq<OfferRow>, after: seq<OfferRow>) {
    SameRows(before, after) && EveryUpdateIsARow(updates, before, after) && EveryChangeIsReported(updates, before, after)
  }

  /** The updates a transition reports are exactly the status changes of its rows. */
  lemma UpdatesReportRows(db: Db, command: TransitionCommand, now: Moment)
    requires UniqueOffers(db.offers) && NoDuplicateUnread(db.notes) && Transact(db, command, now).Ok?
    requires !command.SubmitOffer?
    ensures var a := Transact(db, command, now).value;
      ReportsChanges(a.offerUpdates, db.offers, a.db.offers)
  {
    TransitionMeans(db, command, now);
    UpdatesReport(db, command, ResolveOffer(db, command).value, now, Transact(db, command, now).value);
  }

  lemma UpdatesReport(db: Db, command: TransitionCommand, offer: OfferRow, now: Moment, a: AppliedTransition)
    requires UniqueOffers(db.offers) && offer in db.offers && !command.SubmitOffer?
    requires Allowed(db, command, offer, now) && Moved(db, command, offer, now, a.db)
    requires var context := OrderStateContext(db.order.clientId, db.order.status);
      a.offerUpdates == UpdatesOf(Handle(context, BuildEvent(db, command, offer, now)).1)
    ensures ReportsChanges(a.offerUpdates, db.offers, a.db.offers)
  {
    RowsUpdated(db, command, offer, now, a.db.offers);
    StatusesAssigned(db, command, offer, now, a.db.offers);
    ChangesAreReported(db.offers, a.db.offers, a.offerUpdates);
  }

  lemma RowsUpdated(db: Db, command: TransitionCommand, offer: OfferRow, now: Moment, after: seq<OfferRow>)
    requires offer in db.offers && !command.SubmitOffer? && Allowed(db, command, offer, now) && |after| == |db.offers|
    requires forall j :: 0 <= j < |db.offers| ==> after[j] == OfferAfter(db.offers[j], command, offer.id)
    ensures var context := OrderStateContext(db.order.clientId, db.order.status);
      SameRows(db.offers, after) &&
      EveryUpdateIsARow(UpdatesOf(Handle(context, BuildEvent(db, command, offer, now)).1), db.offers, after)
  {
    if command.AcceptOffer? {
      AcceptedUpdates(db, command, offer, now, after);
    } else {
      SingleUpdate(db, command, offer, now, after);
    }
  }

  lemma StatusesAssigned(db: Db, command: TransitionCommand, offer: OfferRow, now: Moment, after: seq<OfferRow>)
    requires UniqueOffers(db.offers) && offer in db.offers && |after| == |db.offers|
    requires forall j :: 0 <= j < |db.offers| ==> after[j] == OfferAfter(db.offers[j], command, offer.id)
    ensures var context := OrderStateContext(db.order.clientId, db.order.status);
      var updates := UpdatesOf(Handle(context, BuildEvent(db, command, offer, now)).1);
      forall j :: 0 <= j < |db.offers| ==> after[j] == Updated(db.offers[j], StatusFor(updates, db.offers[j].id))
  {
    var context := OrderStateContext(db.order.clientId, db.order.status);
    var updates := UpdatesOf(Handle(context, BuildEvent(db, command, offer, now)).1);
    forall j | 0 <= j < |db.offers| ensures after[j] == Updated(db.offers[j], StatusFor(updates, db.offers[j].id)) {
      NewStatusOf(db, command, offer, now, db.offers[j]);
    }
  }

  lemma ChangesAreReported(before: seq<OfferRow>, after: seq<OfferRow>, updates: seq<OfferStatusUpdate>)
    requires UniqueOffers(before) && SameRows(before, after) && EveryUpdateIsARow(updates, before, after)
    requires forall j :: 0 <= j < |before| ==> after[j] == Updated(before[j], StatusFor(updates, before[j].id))
    ensures EveryChangeIsReported(updates, before, after)
  {
    forall j | 0 <= j < |before| && after[j].status != before[j].status
      ensures exists i :: 0 <= i < |updates| && UpdateOf(updates[i], before[j], after[j])
    {
      var i :| 0 <= i < |updates| && updates[i].offerId == before[j].id;
      var m :| 0 <= m < |before| && UpdateOf(updates[i], before[m], after[m]) && FromActive(before[m], after[m]);
      assert m == j;
    }
  }

  lemma AcceptedUpdates(db: Db, command: TransitionCommand, offer: OfferRow, now: Moment, after: seq<OfferRow>)
    requires offer in db.offers && command.AcceptOffer? && offer.status.Sent? && |after| == |db.offers|
    requires forall j :: 0 <= j < |db.offers| ==> after[j] == OfferAfter(db.offers[j], command, offer.id)
    ensures EveryUpdateIsARow(UpdatesOf(AcceptedEffects(BuildEvent(db, command, offer, now))), db.offers, after)
  {
    var event := BuildEvent(db, command, offer, now);
    var updates := UpdatesOf(AcceptedEffects(event));
    AcceptedShape(event, db.order);
    var rivals := Filter(db.offers, Rivals(offer.id));
    forall i | 0 <= i < |updates|
      ensures exists j :: 0 <= j < |db.offers| && UpdateOf(updates[i], db.offers[j], after[j]) &&
                          FromActive(db.offers[j], after[j])
    {
      var about := if i == 0 then offer else rivals[i - 1];
      assert i > 0 ==> rivals[i - 1] in rivals;
      var j :| 0 <= j < |db.offers| && db.offers[j] == about;
      assert UpdateOf(updates[i], db.offers[j], after[j]);
    }
  }

  lemma SingleUpdate(db: Db, command: TransitionCommand, offer: OfferRow, now: Moment, after: seq<OfferRow>)
    requires offer in db.offers && !command.AcceptOffer? && !command.SubmitOffer? && |after| == |db.offers|
    requires Allowed(db, command, offer, now)
    requires forall j :: 0 <= j < |db.offers| ==> after[j] == OfferAfter(db.offers[j], command, offer.id)
    ensures var context := OrderStateContext(db.order.clientId, db.order.status);
      EveryUpdateIsARow(UpdatesOf(Handle(context, BuildEvent(db, command, offer, now)).1), db.offers, after)
  {
    SingleShape(OrderStateContext(db.order.clientId, db.order.status), BuildEvent(db, command, offer, now), db.order);
    var k :| 0 <= k < |db.offers| && db.offers[k] == offer;
    assert after[k] == OfferAfter(offer, command, offer.id);
    assert UpdateOf(OfferStatusUpdate(offer.id, offer.companyId, TargetStatus(command)), db.offers[k], after[k]);
  }

  // ------------------------------------------------------------ privacy

  /** What is sent about one offer goes to the client and to that offer's company alone; what
      goes to the order's room or the feed names only the order. */
  ghost predicate Private(m: Message, db: Db) {
    match m.payload
    case OrderPayload(orderId) => orderId == db.order.id
    case OfferPayload(orderId, offerId) =>
      orderId == db.order.id &&
      exists j :: 0 <= j < |db.offers| && db.offers[j].id == offerId &&
        m.rooms == [UserRoom(db.order.clientId), UserRoom(db.offers[j].companyId)]
    case NotificationPayload(n) => m.rooms == [UserRoom(n.userId)]
  }

  /** Sending an offer reports that one offer, back in status sent. */
  lemma SubmissionReportsItself(db: Db, command: TransitionCommand, now: Moment)
    requires command.SubmitOffer? && Transact(db, command, now).Ok?
    ensures var a := Transact(db, command, now).value;
      a.offerUpdates == [OfferStatusUpdate(a.offerId, a.companyId, Sent)] &&
      exists j :: 0 <= j < |db.offers| && db.offers[j].id == a.offerId && db.offers[j].companyId == a.companyId
  {
    var offer := ResolveOffer(db, command).value;
    SingleShape(OrderStateContext(db.order.clientId, db.order.status), BuildEvent(db, command, offer, now), db.order);
    var k :| 0 <= k < |db.offers| && db.offers[k] == offer;
  }

  ghost predicate ReportsOffers(updates: seq<OfferStatusUpdate>, offers: seq<OfferRow>) {
    forall i :: 0 <= i < |updates| ==>
      exists j :: 0 <= j < |offers| && offers[j].id == updates[i].offerId && offers[j].companyId == updates[i].companyId
  }

  ghost predicate AllPrivate(messages: seq<Message>, db: Db) {
    forall m :: m in messages ==> Private(m, db)
  }

  /** What a transition reports about offers, it reports about rows of this order. */
  lemma OffersReported(db: Db, command: TransitionCommand, now: Moment)
    requires UniqueOffers(db.offers) && NoDuplicateUnread(db.notes) && Transact(db, command, now).Ok?
    ensures ReportsOffers(Transact(db, command, now).value.offerUpdates, db.offers)
  {
    if command.SubmitOffer? {
      SubmissionReportsItself(db, command, now);
    } else {
      UpdatesReportRows(db, command, now);
    }
  }

  lemma OffersStayPrivate(db: Db, command: TransitionCommand, now: Moment, offerEvent: Option<SocketEvent>)
    requires UniqueOffers(db.offers) && NoDuplicateUnread(db.notes) && Transact(db, command, now).Ok?
    ensures AllPrivate(BroadcastOf(Transact(db, command, now).value, offerEvent).messages, db)
  {
    TransitionMeans(db, command, now);
    OffersReported(db, command, now);
    var k :| 0 <= k < |db.offers| && db.offers[k] == ResolveOffer(db, command).value;
    MessagesArePrivate(db, Transact(db, command, now).value, offerEvent, k);
  }

  lemma MessagesArePrivate(db: Db, a: AppliedTransition, offerEvent: Option<SocketEvent>, k: nat)
    requires a.db.order.id == db.order.id && a.db.order.clientId == db.order.clientId
    requires ReportsOffers(a.offerUpdates, db.offers)
    requires k < |db.offers| && db.offers[k].id == a.offerId && db.offers[k].companyId == a.companyId
    ensures AllPrivate(BroadcastOf(a, offerEvent).messages, db)
  {
    forall m | m in BroadcastOf(a, offerEvent).messages ensures Private(m, db) {
      if m in UpdateMessages(a.db.order, a.offerUpdates) {
        var i :| 0 <= i < |a.offerUpdates| && m == UpdateMessage(a.db.order, a.offerUpdates[i]);
        var j :| 0 <= j < |db.offers| && db.offers[j].id == a.offerUpdates[i].offerId &&
                 db.offers[j].companyId == a.offerUpdates[i].companyId;
      }
    }
  }

  /** Somebody in the room is told of the event with that payload. */
  ghost predicate Heard(messages: seq<Message>, room: Room, event: SocketEvent, payload: Payload) {
    exists i :: 0 <= i < |messages| && room in messages[i].rooms && messages[i].event == event && messages[i].payload == payload
  }

  lemma HeardIn(messages: seq<Message>, m: Message, room: Room)
    requires m in messages && room in m.rooms
    ensures Heard(messages, room, m.event, m.payload)
  {
    var i :| 0 <= i < |messages| && messages[i] == m;
  }

  /** A change of the order's status is told to the order's room and to the client. */
  lemma StatusIsTold(applied: AppliedTransition, offerEvent: Option<SocketEvent>)
    requires applied.fromStatus != applied.nextStatus
    ensures var order, messages := applied.db.order, BroadcastOf(applied, offerEvent).messages;
      Heard(messages, OrderRoom(order.id), OrderStatusChanged, OrderPayload(order.id)) &&
      Heard(messages, UserRoom(order.clientId), OrderStatusChanged, OrderPayload(order.id))
  {
    var m := StatusMessages(applied)[0];
    assert m in BroadcastOf(applied, offerEvent).messages;
    assert m.rooms[0] == OrderRoom(applied.db.order.id) && m.rooms[1] == UserRoom(applied.db.order.clientId);
    HeardIn(BroadcastOf(applied, offerEvent).messages, m, OrderRoom(applied.db.order.id));
    HeardIn(BroadcastOf(applied, offerEvent).messages, m, UserRoom(applied.db.order.clientId));
  }

  /** Every new status of an offer is told to the client and to that offer's company. */
  lemma UpdatesAreTold(applied: AppliedTransition, offerEvent: Option<SocketEvent>, i: nat)
    requires i < |applied.offerUpdates|
    ensures var order, u, messages := applied.db.order, applied.offerUpdates[i], BroadcastOf(applied, offerEvent).messages;
      Heard(messages, UserRoom(order.clientId), OfferStatusChanged, OfferPayload(order.id, u.offerId)) &&
      Heard(messages, UserRoom(u.companyId), OfferStatusChanged, OfferPayload(order.id, u.offerId))
  {
    var messages, told := BroadcastOf(applied, offerEvent).messages, UpdateMessages(applied.db.order, applied.offerUpdates);
    var m := told[i];
    assert m in told && m in messages;
    assert m.rooms[0] == UserRoom(applied.db.order.clientId) && m.rooms[1] == UserRoom(applied.offerUpdates[i].companyId);
    HeardIn(messages, m, UserRoom(applied.db.order.clientId));
    HeardIn(messages, m, UserRoom(applied.offerUpdates[i].companyId));
  }

  /** A sending is told to the client and to the company that sent, as created or as updated. */
  lemma SendingIsTold(applied: AppliedTransition, event: SocketEvent)
    ensures var order, messages := applied.db.order, BroadcastOf(applied, Some(event)).messages;
      Heard(messages, UserRoom(order.clientId), event, OfferPayload(order.id, applied.offerId)) &&
      Heard(messages, UserRoom(applied.companyId), event, OfferPayload(order.id, applied.offerId))
  {
    var messages, m := BroadcastOf(applied, Some(event)).messages, OfferEventMessages(applied, Some(event))[0];
    assert m in messages;
    assert m.rooms[0] == UserRoom(applied.db.order.clientId) && m.rooms[1] == UserRoom(applied.companyId);
    HeardIn(messages, m, UserRoom(applied.db.order.clientId));
    HeardIn(messages, m, UserRoom(applied.companyId));
  }

  /** Every notification reaches its addressee. */
  lemma NoticesAreTold(applied: AppliedTransition, offerEvent: Option<SocketEvent>, i: nat)
    requires i < |applied.notifications|
    ensures var n := applied.notifications[i];
      Heard(BroadcastOf(applied, offerEvent).messages, UserRoom(n.userId), NotificationCreated, NotificationPayload(n))
  {
    var messages, told := BroadcastOf(applied, offerEvent).messages, NotificationMessages(applied.notifications);
    assert told[i] in told && told[i] in messages && told[i].rooms[0] == UserRoom(applied.notifications[i].userId);
    HeardIn(messages, told[i], UserRoom(applied.notifications[i].userId));
  }

  /** Deletion dissolves the room, tells the feed and every addressee. */
  lemma DeletionIsTold(orderId: Id, notes: seq<NotificationRow>)
    ensures var b := OrderDeletedBroadcast(orderId, notes);
      (exists e :: e in b.evictions && e.members == OrderRoom(orderId) && e.room == OrderRoom(orderId)) &&
      Heard(b.messages, CompanyFeed, OrderStatusChanged, OrderPayload(orderId)) &&
      forall i :: 0 <= i < |notes| ==>
        Heard(b.messages, UserRoom(notes[i].userId), NotificationCreated, NotificationPayload(notes[i]))
  {
    var b, told := OrderDeletedBroadcast(orderId, notes), NotificationMessages(notes);
    assert Eviction(OrderRoom(orderId), OrderRoom(orderId)) in b.evictions;
    assert b.messages[0].rooms[0] == CompanyFeed;
    HeardIn(b.messages, b.messages[0], CompanyFeed);
    forall i | 0 <= i < |notes|
      ensures Heard(b.messages, UserRoom(notes[i].userId), NotificationCreated, NotificationPayload(notes[i]))
    {
      assert told[i] in told && told[i] in b.messages && told[i].rooms[0] == UserRoom(notes[i].userId);
      HeardIn(b.messages, told[i], UserRoom(notes[i].userId));
    }
  }

  /** The feed hears of a transition exactly when the order enters or leaves it. */
  lemma FeedIsTold(applied: AppliedTransition, offerEvent: Option<SocketEvent>)
    ensures (exists m :: m in BroadcastOf(applied, offerEvent).messages && CompanyFeed in m.rooms) <==>
      AcceptsOffers(applied.fromStatus) != AcceptsOffers(applied.nextStatus)
  {
    var messages := BroadcastOf(applied, offerEvent).messages;
    if AcceptsOffers(applied.fromStatus) != AcceptsOffers(applied.nextStatus) {
      var m := StatusMessages(applied)[0];
      assert m in messages && m.rooms[2] == CompanyFeed;
    } else {
      forall m | m in messages ensures CompanyFeed !in m.rooms {
        if m in UpdateMessages(applied.db.order, applied.offerUpdates) {
        } else if m in NotificationMessages(applied.notifications) {
        } else if m in StatusMessages(applied) {
        }
      }
    }
  }

  // ---------------------------------------------------------- evictions

  predicate IsParticipant(store: Store, user: UserId) {
    store.Live? &&
    (store.db.order.clientId == user ||
     exists i | 0 <= i < |store.db.offers| ::
       store.db.offers[i].companyId == user && IsActiveOffer(store.db.offers[i].status))
  }

  ghost predicate HoldsActive(offers: seq<OfferRow>, company: UserId) {
    exists j :: 0 <= j < |offers| && offers[j].companyId == company && IsActiveOffer(offers[j].status)
  }

  /** The companies a transition makes inactive are exactly its eviction list. */
  lemma EvictionsAreExact(db: Db, command: TransitionCommand, now: Moment, company: UserId)
    requires UniqueOffers(db.offers) && NoDuplicateUnread(db.notes) && Transact(db, command, now).Ok?
    requires !command.SubmitOffer?
    ensures var a := Transact(db, command, now).value;
      Eviction(UserRoom(company), OrderRoom(db.order.id)) in Evictions(a.db.order.id, a.offerUpdates) <==>
        HoldsActive(db.offers, company) && !HoldsActive(a.db.offers, company)
  {
    TransitionMeans(db, command, now);
    UpdatesReportRows(db, command, now);
    var a := Transact(db, command, now).value;
    EvictedAreInactive(db.order.id, db.offers, a.db.offers, a.offerUpdates, company);
  }

  lemma EvictedAreInactive(orderId: Id, before: seq<OfferRow>, after: seq<OfferRow>,
                           updates: seq<OfferStatusUpdate>, company: UserId)
    requires UniqueOffers(before) && ReportsChanges(updates, before, after)
    ensures Eviction(UserRoom(company), OrderRoom(orderId)) in Evictions(orderId, updates) <==>
      HoldsActive(before, company) && !HoldsActive(after, company)
  {
    EvictionMeans(orderId, updates, company);
    if i :| Evicts(updates, i, company) {
      EvictedWasActive(before, after, updates, i, company);
    }
    if HoldsActive(before, company) && !HoldsActive(after, company) {
      LeaverIsEvicted(before, after, updates, company);
    }
  }

  lemma EvictedWasActive(before: seq<OfferRow>, after: seq<OfferRow>, updates: seq<OfferStatusUpdate>,
                         i: int, company: UserId)
    requires UniqueOffers(before) && ReportsChanges(updates, before, after) && Evicts(updates, i, company)
    ensures HoldsActive(before, company) && !HoldsActive(after, company)
  {
    var j :| 0 <= j < |before| && UpdateOf(updates[i], before[j], after[j]) && FromActive(before[j], after[j]);
    OnlyRowOfCompany(before, after, j, company);
  }

  lemma LeaverIsEvicted(before: seq<OfferRow>, after: seq<OfferRow>, updates: seq<OfferStatusUpdate>, company: UserId)
    requires UniqueOffers(before) && ReportsChanges(updates, before, after)
    requires HoldsActive(before, company) && !HoldsActive(after, company)
    ensures exists i :: Evicts(updates, i, company)
  {
    var j :| 0 <= j < |before| && before[j].companyId == company && IsActiveOffer(before[j].status);
    OnlyRowOfCompany(before, after, j, company);
    var i :| 0 <= i < |updates| && UpdateOf(updates[i], before[j], after[j]);
    assert Evicts(updates, i, company);
  }

  ghost predicate Evicts(updates: seq<OfferStatusUpdate>, i: int, company: UserId) {
    0 <= i < |updates| && updates[i].companyId == company && !IsActiveOffer(updates[i].status)
  }

  lemma EvictionMeans(orderId: Id, updates: seq<OfferStatusUpdate>, company: UserId)
    ensures Eviction(UserRoom(company), OrderRoom(orderId)) in Evictions(orderId, updates) <==>
      exists i :: Evicts(updates, i, company)
  {
    var left := Filter(updates, Inactive());
    if Eviction(UserRoom(company), OrderRoom(orderId)) in Evictions(orderId, updates) {
      var k :| 0 <= k < |left| && left[k].companyId == company;
      assert left[k] in left;
      var i :| 0 <= i < |updates| && updates[i] == left[k];
      assert Evicts(updates, i, company);
    }
    if exists i :: Evicts(updates, i, company) {
      var i :| Evicts(updates, i, company);
      assert updates[i] in left;
      var k :| 0 <= k < |left| && left[k] == updates[i];
      assert Evictions(orderId, updates)[k].members == UserRoom(company);
    }
  }

  /** A company has one row, before and after. */
  lemma OnlyRowOfCompany(before: seq<OfferRow>, after: seq<OfferRow>, j: nat, company: UserId)
    requires UniqueOffers(before) && SameRows(before, after) && j < |before| && before[j].companyId == company
    ensures HoldsActive(before, company) <==> IsActiveOffer(before[j].status)
    ensures HoldsActive(after, company) <==> IsActiveOffer(after[j].status)
  {
    forall k | 0 <= k < |before| && before[k].companyId == company ensures k == j {}
  }
}
