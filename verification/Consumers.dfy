/**
 * Live sockets: their subscriptions, the broker groups, events in flight, and the room tables that decide
 * who may see what. A run interleaves database calls, publishes, handlers and arbitrarily late deliveries.
 */
module Live {
  import opened Wrappers
  import opened UserPair
  import ChatTables
  import RoomTables
  import SocialTables

  type RoomId = nat
  /** A dialog is named by its canonical pair. */
  type DialogId = (UserId, UserId)
  type Channel = string

  datatype Group = UserGroup(user: UserId) | RoomGroup(room: RoomId) | DialogGroup(dialog: DialogId) | PresenceGroup

  /** `chat_type` and `chat_id` of a serialized message. */
  datatype MessageBody = RoomBody(room: RoomId) | DialogBody(dialog: DialogId)

  /** What the gate looks at in a payload: its keys `room_id` and `message`. */
  datatype Payload = Payload(roomId: Option<RoomId>, message: Option<MessageBody>)

  datatype Frame = Frame(eventType: string, payload: Payload)

  datatype Event = BroadcastEvent(frame: Frame) | ForceRoomUnsubscribe(room: RoomId)

  /** What the services and the consumer publish, one constructor for each publisher. */
  datatype Published =
    | RoomMessageCreated(room: RoomId)
    | RoomMessageUpdated(room: RoomId)
    | RoomMessageDeleted(room: RoomId)
    | RoomReadUpdated(room: RoomId)
    | RoomMembershipUpdated(room: RoomId)
    | RoomInvitationCreated(room: RoomId, invited: UserId)
    | DialogMessageCreated(dialog: DialogId)
    | DialogMessageUpdated(dialog: DialogId)
    | DialogMessageDeleted(dialog: DialogId)
    | DialogReadUpdated(dialog: DialogId)
    | DialogSummaryUpdated(recipient: UserId)
    | FriendRequestCreated(recipient: UserId)
    | FriendRequestUpdated(recipient: UserId)
    | PresenceUpdated

  function EventTypeOf(p: Published): (eventType: string) {
    match p
    case RoomMessageCreated(_) => "room.message.created"
    case RoomMessageUpdated(_) => "room.message.updated"
    case RoomMessageDeleted(_) => "room.message.deleted"
    case RoomReadUpdated(_) => "room.read.updated"
    case RoomMembershipUpdated(_) => "room.membership.updated"
    case RoomInvitationCreated(_, _) => "room.invitation.created"
    case DialogMessageCreated(_) => "dialog.message.created"
    case DialogMessageUpdated(_) => "dialog.message.updated"
    case DialogMessageDeleted(_) => "dialog.message.deleted"
    case DialogReadUpdated(_) => "dialog.read.updated"
    case DialogSummaryUpdated(_) => "dialog.summary.updated"
    case FriendRequestCreated(_) => "friend_request.created"
    case FriendRequestUpdated(_) => "friend_request.updated"
    case PresenceUpdated => "presence.updated"
  }

  /** The payload its publisher builds. An invitation keeps its room id one level further down. */
  function PayloadOf(p: Published): (payload: Payload) {
    match p
    case RoomMessageCreated(room) => Payload(None, Some(RoomBody(room)))
    case RoomMessageUpdated(room) => Payload(None, Some(RoomBody(room)))
    case RoomMessageDeleted(room) => Payload(Some(room), None)
    case RoomReadUpdated(room) => Payload(Some(room), None)
    case RoomMembershipUpdated(room) => Payload(Some(room), None)
    case DialogMessageCreated(dialog) => Payload(None, Some(DialogBody(dialog)))
    case DialogMessageUpdated(dialog) => Payload(None, Some(DialogBody(dialog)))
    case _ => Payload(None, None)
  }

  function GroupOf(p: Published): (group: Group) {
    match p
    case RoomMessageCreated(room) => RoomGroup(room)
    case RoomMessageUpdated(room) => RoomGroup(room)
    case RoomMessageDeleted(room) => RoomGroup(room)
    case RoomReadUpdated(room) => RoomGroup(room)
    case RoomMembershipUpdated(room) => RoomGroup(room)
    case RoomInvitationCreated(_, invited) => UserGroup(invited)
    case DialogMessageCreated(dialog) => DialogGroup(dialog)
    case DialogMessageUpdated(dialog) => DialogGroup(dialog)
    case DialogMessageDeleted(dialog) => DialogGroup(dialog)
    case DialogReadUpdated(dialog) => DialogGroup(dialog)
    case DialogSummaryUpdated(recipient) => UserGroup(recipient)
    case FriendRequestCreated(recipient) => UserGroup(recipient)
    case FriendRequestUpdated(recipient) => UserGroup(recipient)
    case PresenceUpdated => PresenceGroup
  }

  function FrameOf(p: Published): (frame: Frame) {
    Frame(EventTypeOf(p), PayloadOf(p))
  }

  /** The room of a message, read or membership event. */
  function RoomOf(p: Published): (room: Option<RoomId>) {
    match p
    case RoomMessageCreated(room) => Some(room)
    case RoomMessageUpdated(room) => Some(room)
    case RoomMessageDeleted(room) => Some(room)
    case RoomReadUpdated(room) => Some(room)
    case RoomMembershipUpdated(room) => Some(room)
    case _ => None
  }

  /** A message, read or membership event of the room. */
  predicate IsRoomEvent(p: Published, room: RoomId) {
    RoomOf(p) == Some(room)
  }

  datatype Reply = Ack | NotFound | Forbidden

  type Groups = set<(Group, Channel)>

  /** One socket with the broker groups it acts on. */
  datatype Socket = Socket(user: UserId, isOpen: bool, rooms: set<RoomId>, dialogs: set<DialogId>)

  function RoomIdFromEvent(payload: Payload): (r: Option<RoomId>) {
    if payload.roomId.Some? then payload.roomId
    else if payload.message.Some? && payload.message.value.RoomBody? then Some(payload.message.value.room)
    else None
  }

  /** The room on which the gate checks a frame, if it does. */
  function GatedRoom(frame: Frame): (r: Option<RoomId>) {
    if "room." <= frame.eventType then RoomIdFromEvent(frame.payload) else None
  }

  /** Which event types begin with the gate's prefix. */
  lemma RoomPrefix(p: Published)
    ensures "room." <= EventTypeOf(p) <==> p.RoomInvitationCreated? || RoomOf(p).Some?
  {
    var eventType := EventTypeOf(p);
    if RoomOf(p).Some? || p.RoomInvitationCreated? {
      assert eventType[..5] == "room.";
    } else {
      assert eventType[0] != 'r';
    }
  }

  /** Of everything that is published the gate recognises exactly the events of a room, and reads their room. */
  lemma GateRecognisesRoomEvents(p: Published)
    ensures GatedRoom(FrameOf(p)) == RoomOf(p)
    ensures "room." <= EventTypeOf(p) && GatedRoom(FrameOf(p)) == None <==> p.RoomInvitationCreated?
  {
    RoomPrefix(p);
  }

  /** Events of a room go to the room's group. */
  lemma RoomEventsGoToTheRoom(p: Published, room: RoomId)
    requires IsRoomEvent(p, room)
    ensures GroupOf(p) == RoomGroup(room)
  {
  }

  function LiveAccess(db: RoomTables.Tables, room: RoomId, user: UserId): (r: Reply)
    ensures r == Ack <==> RoomTables.HasAccess(db, room, user)
  {
    if room !in db.rooms then NotFound
    else if db.rooms[room].visibility == RoomTables.Private && !RoomTables.IsMember(db, room, user) then NotFound
    else if !RoomTables.IsMember(db, room, user) || RoomTables.IsBanned(db, room, user) then Forbidden
    else Ack
  }

  /** A handler's effect on its socket, the broker groups and the frames sent to the client. */
  datatype Effect = Effect(socket: Socket, groups: Groups, sent: seq<Frame>)

  function OnConnect(user: UserId, ch: Channel, groups: Groups): (e: Effect) {
    Effect(Socket(user, true, {}, {}), groups + {(UserGroup(user), ch), (PresenceGroup, ch)}, [])
  }

  function OnDisconnect(s: Socket, ch: Channel, groups: Groups): (e: Effect) {
    Effect(
      s.(isOpen := false),
      groups - (set r | r in s.rooms :: (RoomGroup(r), ch)) - (set d | d in s.dialogs :: (DialogGroup(d), ch))
        - {(UserGroup(s.user), ch), (PresenceGroup, ch)},
      [])
  }

  function OnSubscribe(db: RoomTables.Tables, s: Socket, ch: Channel, groups: Groups, room: RoomId): (e: Effect) {
    if LiveAccess(db, room, s.user) != Ack then Effect(s, groups, [])
    else Effect(s.(rooms := s.rooms + {room}), groups + {(RoomGroup(room), ch)}, [])
  }

  function OnUnsubscribe(s: Socket, ch: Channel, groups: Groups, room: RoomId): (e: Effect) {
    Effect(s.(rooms := s.rooms - {room}), groups - {(RoomGroup(room), ch)}, [])
  }

  function OnSubscribeDialog(
    db: SocialTables.Tables, s: Socket, ch: Channel, groups: Groups, dialog: DialogId): (e: Effect)
  {
    if !SocialTables.IsParticipant(db, dialog, s.user) then Effect(s, groups, [])
    else Effect(s.(dialogs := s.dialogs + {dialog}), groups + {(DialogGroup(dialog), ch)}, [])
  }

  function OnUnsubscribeDialog(s: Socket, ch: Channel, groups: Groups, dialog: DialogId): (e: Effect) {
    Effect(s.(dialogs := s.dialogs - {dialog}), groups - {(DialogGroup(dialog), ch)}, [])
  }

  function OnBroadcast(db: RoomTables.Tables, s: Socket, ch: Channel, groups: Groups, frame: Frame): (e: Effect) {
    var room := GatedRoom(frame);
    if room.Some? && LiveAccess(db, room.value, s.user) != Ack then
      if room.value in s.rooms
      then Effect(s.(rooms := s.rooms - {room.value}), groups - {(RoomGroup(room.value), ch)}, [])
      else Effect(s, groups, [])
    else Effect(s, groups, [frame])
  }

  function OnForceUnsubscribe(s: Socket, ch: Channel, groups: Groups, room: RoomId): (e: Effect) {
    if room !in s.rooms then Effect(s, groups, [])
    else Effect(s.(rooms := s.rooms - {room}), groups - {(RoomGroup(room), ch)}, [])
  }

  function OnEvent(db: RoomTables.Tables, s: Socket, ch: Channel, groups: Groups, event: Event): (e: Effect) {
    match event
    case BroadcastEvent(frame) => OnBroadcast(db, s, ch, groups, frame)
    case ForceRoomUnsubscribe(room) => OnForceUnsubscribe(s, ch, groups, room)
  }

  datatype World = World(
    db: ChatTables.World,
    sockets: map<Channel, Socket>,
    groups: Groups,
    inFlight: multiset<(Channel, Event)>,
    sent: seq<(Channel, Frame)>)

  datatype Action =
    | Connect(ch: Channel, user: UserId)
    | Disconnect(ch: Channel)
    | Subscribe(ch: Channel, room: RoomId)
    | Unsubscribe(ch: Channel, room: RoomId)
    | SubscribeDialog(ch: Channel, dialog: DialogId)
    | UnsubscribeDialog(ch: Channel, dialog: DialogId)
    | Database(call: ChatTables.Action)
    | Publish(published: Published)
    | ForceUnsubscribe(user: UserId, room: RoomId)
    | Deliver(ch: Channel, event: Event)

  predicate IsOpen(w: World, ch: Channel) {
    ch in w.sockets && w.sockets[ch].isOpen
  }

  function Tagged(ch: Channel, frames: seq<Frame>): (r: seq<(Channel, Frame)>)
    ensures |r| == |frames| && forall i | 0 <= i < |r| :: r[i] == (ch, frames[i])
  {
    seq(|frames|, i requires 0 <= i < |frames| => (ch, frames[i]))
  }

  function Performed(w: World, ch: Channel, e: Effect): (r: World) {
    w.(sockets := w.sockets[ch := e.socket], groups := e.groups, sent := w.sent + Tagged(ch, e.sent))
  }

  /** What the handler of an action on an open socket does. */
  function HandlerOf(w: World, a: Action): (e: Effect)
    requires a.Disconnect? || a.Subscribe? || a.Unsubscribe? || a.SubscribeDialog? || a.UnsubscribeDialog?
    requires a.ch in w.sockets
  {
    match a
    case Disconnect(ch) => OnDisconnect(w.sockets[ch], ch, w.groups)
    case Subscribe(ch, room) => OnSubscribe(w.db.rooms, w.sockets[ch], ch, w.groups, room)
    case Unsubscribe(ch, room) => OnUnsubscribe(w.sockets[ch], ch, w.groups, room)
    case SubscribeDialog(ch, dialog) => OnSubscribeDialog(w.db.social, w.sockets[ch], ch, w.groups, dialog)
    case UnsubscribeDialog(ch, dialog) => OnUnsubscribeDialog(w.sockets[ch], ch, w.groups, dialog)
  }

  /** One copy for every channel that is in the group now. */
  function SendToGroup(w: World, group: Group, event: Event): (r: World) {
    w.(inFlight := w.inFlight + multiset(set g | g in w.groups && g.0 == group :: (g.1, event)))
  }

  /** An action that is not possible in `w` changes nothing. */
  function Step(w: World, a: Action): (r: World) {
    match a
    case Connect(ch, user) => if ch in w.sockets then w else Performed(w, ch, OnConnect(user, ch, w.groups))
    case Database(call) => w.(db := ChatTables.Step(w.db, call))
    case Publish(p) => SendToGroup(w, GroupOf(p), BroadcastEvent(FrameOf(p)))
    case ForceUnsubscribe(user, room) => SendToGroup(w, UserGroup(user), ForceRoomUnsubscribe(room))
    case Deliver(ch, event) =>
      if (ch, event) !in w.inFlight then w
      else
        var taken := w.(inFlight := w.inFlight - multiset{(ch, event)});
        if !IsOpen(w, ch) then taken else Performed(taken, ch, OnEvent(w.db.rooms, w.sockets[ch], ch, w.groups, event))
    case _ => if !IsOpen(w, a.ch) then w else Performed(w, a.ch, HandlerOf(w, a))
  }

  function Start(users: set<UserId>): (w: World) {
    World(ChatTables.Start(users), map[], {}, multiset{}, [])
  }

  function Run(users: set<UserId>, actions: seq<Action>): (w: World) {
    if actions == [] then Start(users) else Step(Run(users, actions[..|actions| - 1]), actions[|actions| - 1])
  }

  /** The broker knows of a socket exactly the groups it holds itself; a closed socket is in none. */
  ghost predicate InStep(s: Socket, ch: Channel, groups: Groups) {
    && (forall r :: (RoomGroup(r), ch) in groups <==> s.isOpen && r in s.rooms)
    && (forall d :: (DialogGroup(d), ch) in groups <==> s.isOpen && d in s.dialogs)
    && (forall u: UserId :: (UserGroup(u), ch) in groups <==> s.isOpen && u == s.user)
    && ((PresenceGroup, ch) in groups <==> s.isOpen)
  }

  /** A handler touches the group memberships of its own channel only. */
  ghost predicate OnlyOwnChannel(before: Groups, after: Groups, ch: Channel) {
    forall g, c: Channel | c != ch :: (g, c) in after <==> (g, c) in before
  }

  ghost predicate Inv(w: World) {
    && RoomTables.Inv(w.db.rooms)
    && (forall ch | ch in w.sockets :: InStep(w.sockets[ch], ch, w.groups))
    && (forall g | g in w.groups :: g.1 in w.sockets)
  }

  /** What a handler may do: keep its own socket in step and leave the other channels alone. */
  ghost predicate KeepsStep(ch: Channel, groups: Groups, e: Effect) {
    InStep(e.socket, ch, e.groups) && OnlyOwnChannel(groups, e.groups, ch)
  }

  lemma EffectKeepsInv(w: World, ch: Channel, e: Effect)
    requires Inv(w) && KeepsStep(ch, w.groups, e)
    ensures Inv(Performed(w, ch, e))
  {
    var next := Performed(w, ch, e);
    forall c | c in next.sockets ensures InStep(next.sockets[c], c, next.groups) {
      if c != ch {
        assert InStep(w.sockets[c], c, w.groups);
      }
    }
    forall g | g in next.groups ensures g.1 in next.sockets {
      assert g == (g.0, g.1);
    }
  }

  lemma RoomHandlersKeepStep(db: RoomTables.Tables, s: Socket, ch: Channel, groups: Groups, room: RoomId)
    requires InStep(s, ch, groups) && s.isOpen
    ensures KeepsStep(ch, groups, OnSubscribe(db, s, ch, groups, room))
    ensures KeepsStep(ch, groups, OnUnsubscribe(s, ch, groups, room))
  {
  }

  lemma DialogHandlersKeepStep(db: SocialTables.Tables, s: Socket, ch: Channel, groups: Groups, dialog: DialogId)
    requires InStep(s, ch, groups) && s.isOpen
    ensures KeepsStep(ch, groups, OnSubscribeDialog(db, s, ch, groups, dialog))
    ensures KeepsStep(ch, groups, OnUnsubscribeDialog(s, ch, groups, dialog))
  {
  }

  lemma EventsKeepStep(db: RoomTables.Tables, s: Socket, ch: Channel, groups: Groups, event: Event)
    requires InStep(s, ch, groups) && s.isOpen
    ensures KeepsStep(ch, groups, OnEvent(db, s, ch, groups, event))
  {
  }

  /** Leaving exactly the groups it subscribed to takes a socket out of every group. */
  lemma DisconnectLeavesAllGroups(s: Socket, ch: Channel, groups: Groups)
    requires InStep(s, ch, groups) && s.isOpen
    ensures var e := OnDisconnect(s, ch, groups);
      KeepsStep(ch, groups, e) && forall g :: (g, ch) !in e.groups
  {
    var e := OnDisconnect(s, ch, groups);
    forall g ensures (g, ch) !in e.groups {
      match g
      case UserGroup(_) =>
      case RoomGroup(_) =>
      case DialogGroup(_) =>
      case PresenceGroup =>
    }
  }

  lemma ConnectKeepsInv(w: World, ch: Channel, user: UserId)
    requires Inv(w) && ch !in w.sockets
    ensures Inv(Performed(w, ch, OnConnect(user, ch, w.groups)))
  {
    assert forall g :: (g, ch) !in w.groups;
    EffectKeepsInv(w, ch, OnConnect(user, ch, w.groups));
  }

  /** The room tables change by room calls only. */
  lemma RoomsAfter(w: ChatTables.World, call: ChatTables.Action)
    ensures ChatTables.Step(w, call).rooms == if call.RoomCall? then RoomTables.Step(w.rooms, call.roomOp) else w.rooms
  {
  }

  lemma DatabaseKeepsInv(w: World, call: ChatTables.Action)
    requires Inv(w)
    ensures Inv(w.(db := ChatTables.Step(w.db, call)))
  {
    RoomsAfter(w.db, call);
    if call.RoomCall? {
      RoomTables.StepKeepsInv(w.db.rooms, call.roomOp);
    }
  }

  lemma DeliveryKeepsInv(w: World, ch: Channel, event: Event)
    requires Inv(w) && IsOpen(w, ch)
    ensures var taken := w.(inFlight := w.inFlight - multiset{(ch, event)});
      Inv(Performed(taken, ch, OnEvent(w.db.rooms, w.sockets[ch], ch, w.groups, event)))
  {
    var taken := w.(inFlight := w.inFlight - multiset{(ch, event)});
    EventsKeepStep(w.db.rooms, w.sockets[ch], ch, w.groups, event);
    EffectKeepsInv(taken, ch, OnEvent(w.db.rooms, w.sockets[ch], ch, w.groups, event));
  }

  lemma HandlersKeepStep(w: World, a: Action)
    requires Inv(w)
    requires a.Disconnect? || a.Subscribe? || a.Unsubscribe? || a.SubscribeDialog? || a.UnsubscribeDialog?
    requires IsOpen(w, a.ch)
    ensures KeepsStep(a.ch, w.groups, HandlerOf(w, a))
  {
    match a
    case Disconnect(ch) => DisconnectLeavesAllGroups(w.sockets[ch], ch, w.groups);
    case Subscribe(ch, room) => RoomHandlersKeepStep(w.db.rooms, w.sockets[ch], ch, w.groups, room);
    case Unsubscribe(ch, room) => RoomHandlersKeepStep(w.db.rooms, w.sockets[ch], ch, w.groups, room);
    case SubscribeDialog(ch, dialog) => DialogHandlersKeepStep(w.db.social, w.sockets[ch], ch, w.groups, dialog);
    case UnsubscribeDialog(ch, dialog) => DialogHandlersKeepStep(w.db.social, w.sockets[ch], ch, w.groups, dialog);
  }

  lemma StepKeepsInv(w: World, a: Action)
    requires Inv(w)
    ensures Inv(Step(w, a))
  {
    match a
    case Connect(ch, user) =>
      if ch !in w.sockets { ConnectKeepsInv(w, ch, user); }
    case Database(call) => DatabaseKeepsInv(w, call);
    case Publish(_) =>
    case ForceUnsubscribe(_, _) =>
    case Deliver(ch, event) =>
      if (ch, event) in w.inFlight && IsOpen(w, ch) { DeliveryKeepsInv(w, ch, event); }
    case _ =>
      if IsOpen(w, a.ch) {
        HandlersKeepStep(w, a);
        EffectKeepsInv(w, a.ch, HandlerOf(w, a));
      }
  }

  lemma {:induction false} RunKeepsInv(users: set<UserId>, actions: seq<Action>)
    ensures Inv(Run(users, actions))
  {
    if actions != [] {
      RunKeepsInv(users, actions[..|actions| - 1]);
      StepKeepsInv(Run(users, actions[..|actions| - 1]), actions[|actions| - 1]);
    }
  }

  /**
   * In every run, between handlers, the broker's room groups of an open socket are its subscriptions, and a
   * socket that disconnected is in no group at all.
   */
  lemma GroupsAreSubscriptions(users: set<UserId>, actions: seq<Action>, ch: Channel, room: RoomId)
    requires ch in Run(users, actions).sockets
    ensures var w := Run(users, actions);
      && (w.sockets[ch].isOpen ==> ((RoomGroup(room), ch) in w.groups <==> room in w.sockets[ch].rooms))
      && (!w.sockets[ch].isOpen ==> forall g :: (g, ch) !in w.groups)
  {
    RunKeepsInv(users, actions);
    var w := Run(users, actions);
    if !w.sockets[ch].isOpen {
      assert InStep(w.sockets[ch], ch, w.groups);
      forall g ensures (g, ch) !in w.groups {
        match g
        case UserGroup(_) =>
        case RoomGroup(_) =>
        case DialogGroup(_) =>
        case PresenceGroup =>
      }
    }
  }

  /** The frames one action sends. */
  ghost function SentBy(w: World, a: Action): (r: seq<(Channel, Frame)>)
    ensures Step(w, a).sent == w.sent + r
  {
    if a.Deliver? && (a.ch, a.event) in w.inFlight && IsOpen(w, a.ch)
    then Tagged(a.ch, OnEvent(w.db.rooms, w.sockets[a.ch], a.ch, w.groups, a.event).sent) else []
  }

  /** A frame is sent by delivering it to an open socket whose user the gate lets through. */
  lemma SentIsDelivered(w: World, a: Action, ch: Channel, frame: Frame)
    ensures (ch, frame) in SentBy(w, a) <==>
      && a == Deliver(ch, BroadcastEvent(frame)) && (ch, BroadcastEvent(frame)) in w.inFlight && IsOpen(w, ch)
      && (GatedRoom(frame).Some? ==> RoomTables.HasAccess(w.db.rooms, GatedRoom(frame).value, w.sockets[ch].user))
  {
    var sent := SentBy(w, a);
    if a == Deliver(ch, BroadcastEvent(frame)) {
      assert sent == [] || sent[0] == (ch, frame);
    }
  }

  /** However stale an event, it is sent on exactly when it is no room's event, or the user has access now. */
  lemma DeliveredIffAllowed(w: World, ch: Channel, p: Published)
    requires (ch, BroadcastEvent(FrameOf(p))) in w.inFlight && IsOpen(w, ch)
    ensures (ch, FrameOf(p)) in SentBy(w, Deliver(ch, BroadcastEvent(FrameOf(p)))) <==>
      (RoomOf(p).Some? ==> RoomTables.HasAccess(w.db.rooms, RoomOf(p).value, w.sockets[ch].user))
  {
    SentIsDelivered(w, Deliver(ch, BroadcastEvent(FrameOf(p))), ch, FrameOf(p));
    GateRecognisesRoomEvents(p);
  }

  /** No action sends an event of a room to a user without access. */
  lemma RoomEventsNeedAccess(w: World, a: Action, ch: Channel, p: Published, room: RoomId)
    requires (ch, FrameOf(p)) in SentBy(w, a) && IsRoomEvent(p, room)
    ensures IsOpen(w, ch) && RoomTables.HasAccess(w.db.rooms, room, w.sockets[ch].user)
  {
    SentIsDelivered(w, a, ch, FrameOf(p));
    GateRecognisesRoomEvents(p);
  }

  /** At step `i` the frame was published to a group the channel was in. */
  ghost predicate WasPublishedAt(users: set<UserId>, actions: seq<Action>, i: nat, ch: Channel, frame: Frame)
    requires i < |actions|
  {
    && actions[i].Publish? && frame == FrameOf(actions[i].published)
    && (GroupOf(actions[i].published), ch) in Run(users, actions[..i]).groups
  }

  lemma NewInFlight(w: World, a: Action, ch: Channel, frame: Frame)
    requires (ch, BroadcastEvent(frame)) in Step(w, a).inFlight && (ch, BroadcastEvent(frame)) !in w.inFlight
    ensures a.Publish? && frame == FrameOf(a.published) && (GroupOf(a.published), ch) in w.groups
  {
    var item := (ch, BroadcastEvent(frame));
    if a.Publish? {
      SendReaches(w, GroupOf(a.published), BroadcastEvent(FrameOf(a.published)), item);
    }
  }

  lemma SendReaches(w: World, group: Group, event: Event, item: (Channel, Event))
    ensures SendToGroup(w, group, event).inFlight[item]
         == w.inFlight[item] + if item.1 == event && (group, item.0) in w.groups then 1 else 0
  {
    var reached := set g | g in w.groups && g.0 == group :: (g.1, event);
    if (group, item.0) in w.groups && item.1 == event {
      var g := (group, item.0);
      assert (g.1, event) in reached;
    }
    assert item in reached <==> item.1 == event && (group, item.0) in w.groups;
  }

  /** In every run whatever is in flight to a channel was published, to a group the channel was in. */
  lemma {:induction false} InFlightWasPublished(users: set<UserId>, actions: seq<Action>, ch: Channel, frame: Frame)
    requires (ch, BroadcastEvent(frame)) in Run(users, actions).inFlight
    ensures exists i :: 0 <= i < |actions| && WasPublishedAt(users, actions, i, ch, frame)
    decreases |actions|
  {
    var n := |actions| - 1;
    var before := actions[..n];
    if (ch, BroadcastEvent(frame)) in Run(users, before).inFlight {
      InFlightWasPublished(users, before, ch, frame);
      var i :| 0 <= i < n && WasPublishedAt(users, before, i, ch, frame);
      assert before[..i] == actions[..i];
      assert WasPublishedAt(users, actions, i, ch, frame);
    } else {
      NewInFlight(Run(users, before), actions[n], ch, frame);
      assert WasPublishedAt(users, actions, n, ch, frame);
    }
  }

  /** A channel is in a room's group exactly as an open socket that subscribed. */
  lemma GroupMembersSubscribed(w: World, ch: Channel, room: RoomId)
    requires Inv(w)
    ensures (RoomGroup(room), ch) in w.groups <==> IsOpen(w, ch) && room in w.sockets[ch].rooms
  {
    if ch in w.sockets {
      assert InStep(w.sockets[ch], ch, w.groups);
    }
  }

  /** Publishing an event of a room adds one copy for an open subscribed socket, and none for any other. */
  lemma PublishAddsOne(w: World, p: Published, room: RoomId, ch: Channel)
    requires Inv(w) && IsRoomEvent(p, room)
    ensures var item := (ch, BroadcastEvent(FrameOf(p)));
      SendToGroup(w, GroupOf(p), BroadcastEvent(FrameOf(p))).inFlight[item]
        == w.inFlight[item] + if IsOpen(w, ch) && room in w.sockets[ch].rooms then 1 else 0
  {
    RoomEventsGoToTheRoom(p, room);
    SendReaches(w, RoomGroup(room), BroadcastEvent(FrameOf(p)), (ch, BroadcastEvent(FrameOf(p))));
    GroupMembersSubscribed(w, ch, room);
  }

  /** In every run an event published to a room is put in flight, once, to the open sockets subscribed to it. */
  lemma PublishReachesSubscribers(users: set<UserId>, actions: seq<Action>, p: Published, room: RoomId, ch: Channel)
    requires IsRoomEvent(p, room)
    ensures var w := Run(users, actions);
      var item := (ch, BroadcastEvent(FrameOf(p)));
      Step(w, Publish(p)).inFlight[item]
        == w.inFlight[item] + if IsOpen(w, ch) && room in w.sockets[ch].rooms then 1 else 0
  {
    RunKeepsInv(users, actions);
    PublishAddsOne(Run(users, actions), p, room, ch);
  }

  /** A service call that lets `user` into `room`. */
  predicate AdmitsAt(w: World, a: Action, room: RoomId, user: UserId) {
    && a.Database? && a.call.RoomCall?
    && RoomTables.Admits(w.db.rooms, a.call.roomOp, room, user) && RoomTables.Apply(w.db.rooms, a.call.roomOp).Ok?
  }

  /** A service call that takes the access of `user` to `room` away. */
  predicate ExpelsAt(w: World, a: Action, room: RoomId, user: UserId) {
    && a.Database? && a.call.RoomCall?
    && RoomTables.Expels(a.call.roomOp, room, user) && RoomTables.Apply(w.db.rooms, a.call.roomOp).Ok?
  }

  /** The room tables after an action. */
  lemma RoomsAfterStep(w: World, a: Action)
    ensures Step(w, a).db.rooms
         == if a.Database? && a.call.RoomCall? then RoomTables.Step(w.db.rooms, a.call.roomOp) else w.db.rooms
  {
    if a.Database? {
      RoomsAfter(w.db, a.call);
    }
  }

  lemma ExclusionStep(w: World, a: Action, room: RoomId, user: UserId)
    requires RoomTables.Inv(w.db.rooms)
    requires !RoomTables.HasAccess(w.db.rooms, room, user) && !AdmitsAt(w, a, room, user)
    ensures !RoomTables.HasAccess(Step(w, a).db.rooms, room, user)
  {
    RoomsAfterStep(w, a);
    if a.Database? && a.call.RoomCall? && RoomTables.HasAccess(RoomTables.Step(w.db.rooms, a.call.roomOp), room, user) {
      RoomTables.AccessIsGainedByAdmission(w.db.rooms, a.call.roomOp, room, user);
    }
  }

  lemma ExpulsionStep(w: World, a: Action, room: RoomId, user: UserId)
    requires RoomTables.Inv(w.db.rooms) && ExpelsAt(w, a, room, user)
    ensures !RoomTables.HasAccess(Step(w, a).db.rooms, room, user)
  {
    RoomsAfterStep(w, a);
    RoomTables.ExpulsionRevokesAccess(w.db.rooms, a.call.roomOp, room, user);
  }

  /** The world before step `k` of a run. */
  ghost function At(users: set<UserId>, actions: seq<Action>, k: nat): (w: World)
    requires k <= |actions|
  {
    Run(users, actions[..k])
  }

  lemma RunStep(users: set<UserId>, actions: seq<Action>, k: nat)
    requires k < |actions|
    ensures At(users, actions, k + 1) == Step(At(users, actions, k), actions[k])
    ensures RoomTables.Inv(At(users, actions, k).db.rooms)
  {
    assert actions[..k + 1][..k] == actions[..k];
    RunKeepsInv(users, actions[..k]);
  }

  /** Without being admitted, nobody gains access, whatever else happens. */
  lemma {:induction false} ExclusionLasts(
    users: set<UserId>, actions: seq<Action>, first: nat, last: nat, room: RoomId, user: UserId)
    requires first <= last <= |actions|
    requires !RoomTables.HasAccess(At(users, actions, first).db.rooms, room, user)
    requires forall k | first <= k < last :: !AdmitsAt(At(users, actions, k), actions[k], room, user)
    ensures !RoomTables.HasAccess(At(users, actions, last).db.rooms, room, user)
    decreases last
  {
    if last > first {
      ExclusionLasts(users, actions, first, last - 1, room, user);
      RunStep(users, actions, last - 1);
      ExclusionStep(At(users, actions, last - 1), actions[last - 1], room, user);
    }
  }

  /** The action sends none of the user's sockets an event of the room. */
  ghost predicate IsSilent(w: World, a: Action, room: RoomId, user: UserId) {
    forall ch, p | IsRoomEvent(p, room) && (ch, FrameOf(p)) in SentBy(w, a) ::
      IsOpen(w, ch) && w.sockets[ch].user != user
  }

  lemma SilentWithoutAccess(w: World, a: Action, room: RoomId, user: UserId)
    requires !RoomTables.HasAccess(w.db.rooms, room, user)
    ensures IsSilent(w, a, room, user)
  {
    forall ch, p | IsRoomEvent(p, room) && (ch, FrameOf(p)) in SentBy(w, a)
      ensures IsOpen(w, ch) && w.sockets[ch].user != user
    {
      RoomEventsNeedAccess(w, a, ch, p, room);
    }
  }

  /**
   * Once a user has left a room, been banned from it, or the room was deleted, no later step sends any of
   * the user's sockets a message, read or membership event of that room, until the user is admitted again:
   * whatever was published before, however late it arrives, and whatever the sockets are subscribed to.
   */
  lemma SilenceAfterExpulsion(users: set<UserId>, actions: seq<Action>, i: nat, j: nat, room: RoomId, user: UserId)
    requires i < j < |actions|
    ensures
      && ExpelsAt(At(users, actions, i), actions[i], room, user)
      && (forall k | i < k < j :: !AdmitsAt(At(users, actions, k), actions[k], room, user))
      ==> IsSilent(At(users, actions, j), actions[j], room, user)
  {
    if
      && ExpelsAt(At(users, actions, i), actions[i], room, user)
      && (forall k | i < k < j :: !AdmitsAt(At(users, actions, k), actions[k], room, user))
    {
      RunStep(users, actions, i);
      ExpulsionStep(At(users, actions, i), actions[i], room, user);
      ExclusionLasts(users, actions, i + 1, j, room, user);
      SilentWithoutAccess(At(users, actions, j), actions[j], room, user);
    }
  }
}

/** The consumer behind one socket, and the channel layer it shares with the others. */
module Consumer {
  import opened Wrappers
  import opened UserPair
  import opened Live
  import RoomTables
  import RoomService
  import SocialService
  import SocialTables

  class ChannelLayer {
    var groups: Groups

    constructor ()
      ensures groups == {}
    {
      groups := {};
    }

    method GroupAdd(group: Group, ch: Channel)
      modifies this
      ensures groups == old(groups) + {(group, ch)}
    {
      groups := groups + {(group, ch)};
    }

    method GroupDiscard(group: Group, ch: Channel)
      modifies this
      ensures groups == old(groups) - {(group, ch)}
    {
      groups := groups - {(group, ch)};
    }
  }

  class ChatConsumer {
    const channelName: Channel
    const user: UserId
    const layer: ChannelLayer
    const rooms: RoomService.RoomStore
    const social: SocialService.SocialStore
    var roomSubscriptions: set<RoomId>
    var dialogSubscriptions: set<DialogId>
    var isOpen: bool
    /** Broadcast frames sent to the client; acks and errors are the replies of the handlers. */
    var sent: seq<Frame>

    constructor (
      channelName: Channel, user: UserId, layer: ChannelLayer, rooms: RoomService.RoomStore,
      social: SocialService.SocialStore)
      ensures this.channelName == channelName && this.user == user && this.layer == layer
      ensures this.rooms == rooms && this.social == social
      ensures !isOpen && sent == []
    {
      this.channelName, this.user, this.layer, this.rooms, this.social := channelName, user, layer, rooms, social;
      roomSubscriptions, dialogSubscriptions, isOpen, sent := {}, {}, false, [];
    }

    function State(): (s: Socket)
      reads this
    {
      Socket(user, isOpen, roomSubscriptions, dialogSubscriptions)
    }

    /** The socket and the groups are what the effect `e` says, and its frames were sent. */
    ghost predicate Has(e: Effect, before: seq<Frame>)
      reads this, layer
    {
      State() == e.socket && layer.groups == e.groups && sent == before + e.sent
    }

    /** Between handlers the broker groups of this channel are the subscriptions. */
    ghost predicate Valid()
      reads this, layer
    {
      InStep(State(), channelName, layer.groups)
    }

    method Connect()
      requires Valid() && !isOpen
      modifies this, layer
      ensures Valid() && Has(OnConnect(user, channelName, old(layer.groups)), old(sent))
      ensures OnlyOwnChannel(old(layer.groups), layer.groups, channelName)
    {
      roomSubscriptions, dialogSubscriptions, isOpen := {}, {}, true;
      layer.GroupAdd(UserGroup(user), channelName);
      layer.GroupAdd(PresenceGroup, channelName);
      assert layer.groups == OnConnect(user, channelName, old(layer.groups)).groups;
    }

    method Disconnect()
      requires Valid() && isOpen
      modifies this, layer
      ensures Valid() && Has(OnDisconnect(old(State()), channelName, old(layer.groups)), old(sent))
      ensures OnlyOwnChannel(old(layer.groups), layer.groups, channelName)
      ensures forall g :: (g, channelName) !in layer.groups
    {
      ghost var before := layer.groups;
      DisconnectLeavesAllGroups(State(), channelName, before);
      var pending := roomSubscriptions;
      while pending != {}
        invariant pending <= roomSubscriptions
        invariant layer.groups == before - set r | r in roomSubscriptions - pending :: (RoomGroup(r), channelName)
        modifies layer
        decreases pending
      {
        var room :| room in pending;
        layer.GroupDiscard(RoomGroup(room), channelName);
        assert roomSubscriptions - (pending - {room}) == (roomSubscriptions - pending) + {room};
        pending := pending - {room};
      }
      assert roomSubscriptions - pending == roomSubscriptions;
      ghost var middle := layer.groups;
      var rest := dialogSubscriptions;
      while rest != {}
        invariant rest <= dialogSubscriptions
        invariant layer.groups == middle - set d | d in dialogSubscriptions - rest :: (DialogGroup(d), channelName)
        modifies layer
        decreases rest
      {
        var dialog :| dialog in rest;
        layer.GroupDiscard(DialogGroup(dialog), channelName);
        assert dialogSubscriptions - (rest - {dialog}) == (dialogSubscriptions - rest) + {dialog};
        rest := rest - {dialog};
      }
      assert dialogSubscriptions - rest == dialogSubscriptions;
      layer.GroupDiscard(UserGroup(user), channelName);
      layer.GroupDiscard(PresenceGroup, channelName);
      assert layer.groups == OnDisconnect(old(State()), channelName, before).groups;
      isOpen := false;
    }

    /** `_get_room_for_live_access`. */
    method GetRoomForLiveAccess(room: RoomId) returns (reply: Reply)
      ensures reply == LiveAccess(rooms.Contents(), room, user)
    {
      if room !in rooms.rooms {
        return NotFound;
      }
      var isMember := (room, user) in rooms.members;
      if rooms.rooms[room].visibility == RoomTables.Private && !isMember {
        return NotFound;
      }
      if !isMember || rooms.ActiveBan(room, user) {
        return Forbidden;
      }
      reply := Ack;
    }

    method HandleRoomSubscribe(room: RoomId) returns (reply: Reply)
      requires Valid() && isOpen
      modifies this, layer
      ensures Valid()
      ensures Has(OnSubscribe(rooms.Contents(), old(State()), channelName, old(layer.groups), room), old(sent))
      ensures reply == Ack <==> RoomTables.HasAccess(rooms.Contents(), room, user)
    {
      RoomHandlersKeepStep(rooms.Contents(), State(), channelName, layer.groups, room);
      reply := GetRoomForLiveAccess(room);
      if reply != Ack {
        return;
      }
      layer.GroupAdd(RoomGroup(room), channelName);
      roomSubscriptions := roomSubscriptions + {room};
    }

    method HandleRoomUnsubscribe(room: RoomId) returns (reply: Reply)
      requires Valid() && isOpen
      modifies this, layer
      ensures Valid() && Has(OnUnsubscribe(old(State()), channelName, old(layer.groups), room), old(sent))
      ensures reply == Ack
    {
      RoomHandlersKeepStep(rooms.Contents(), State(), channelName, layer.groups, room);
      layer.GroupDiscard(RoomGroup(room), channelName);
      roomSubscriptions := roomSubscriptions - {room};
      reply := Ack;
    }

    /** `get_dialog_for_user`, then the subscription. */
    method HandleDialogSubscribe(dialog: DialogId) returns (reply: Reply)
      requires Valid() && isOpen
      modifies this, layer
      ensures Valid()
      ensures Has(OnSubscribeDialog(social.Contents(), old(State()), channelName, old(layer.groups), dialog), old(sent))
      ensures reply == if SocialTables.IsParticipant(social.Contents(), dialog, user) then Ack else NotFound
    {
      DialogHandlersKeepStep(social.Contents(), State(), channelName, layer.groups, dialog);
      if dialog !in social.dialogs || (dialog.0 != user && dialog.1 != user) {
        return NotFound;
      }
      layer.GroupAdd(DialogGroup(dialog), channelName);
      dialogSubscriptions := dialogSubscriptions + {dialog};
      reply := Ack;
    }

    method HandleDialogUnsubscribe(dialog: DialogId) returns (reply: Reply)
      requires Valid() && isOpen
      modifies this, layer
      ensures Valid() && Has(OnUnsubscribeDialog(old(State()), channelName, old(layer.groups), dialog), old(sent))
      ensures reply == Ack
    {
      DialogHandlersKeepStep(social.Contents(), State(), channelName, layer.groups, dialog);
      layer.GroupDiscard(DialogGroup(dialog), channelName);
      dialogSubscriptions := dialogSubscriptions - {dialog};
      reply := Ack;
    }

    /** Sends the frame on, unless it is about a room the user may no longer see: then it unsubscribes. */
    method OnBroadcastEvent(frame: Frame)
      requires Valid() && isOpen
      modifies this, layer
      ensures Valid()
      ensures Has(OnBroadcast(rooms.Contents(), old(State()), channelName, old(layer.groups), frame), old(sent))
    {
      EventsKeepStep(rooms.Contents(), State(), channelName, layer.groups, BroadcastEvent(frame));
      if "room." <= frame.eventType {
        var room := RoomIdFromEvent(frame.payload);
        if room.Some? {
          var access := GetRoomForLiveAccess(room.value);
          if access != Ack {
            if room.value in roomSubscriptions {
              layer.GroupDiscard(RoomGroup(room.value), channelName);
              roomSubscriptions := roomSubscriptions - {room.value};
            }
            return;
          }
        }
      }
      sent := sent + [frame];
    }

    method OnMembershipForceRoomUnsubscribe(room: RoomId)
      requires Valid() && isOpen
      modifies this, layer
      ensures Valid() && Has(OnForceUnsubscribe(old(State()), channelName, old(layer.groups), room), old(sent))
    {
      EventsKeepStep(rooms.Contents(), State(), channelName, layer.groups, ForceRoomUnsubscribe(room));
      if room !in roomSubscriptions {
        return;
      }
      layer.GroupDiscard(RoomGroup(room), channelName);
      roomSubscriptions := roomSubscriptions - {room};
    }
  }
}
