/** The social, room and message tables together: one world, and one step for every service call. */
module ChatTables {
  import opened Wrappers
  import opened UserPair
  import opened MessageTables
  import RoomTables
  import SocialTables

  datatype World = World(social: SocialTables.Tables, rooms: RoomTables.Tables, messages: MessageTables.Tables)

  datatype Action =
    | SocialCall(op: SocialTables.Op)
    | RoomCall(roomOp: RoomTables.Op)
    | SendMessage(c: Container, sender: UserId, text: Option<string>, replyTo: Option<MessageId>,
                  ids: seq<AttachmentId>, id: MessageId)
    | ReviseMessage(c: Container, id: MessageId, actor: UserId, text: Option<string>)
    | RemoveMessage(c: Container, id: MessageId, actor: UserId)
    | UploadAttachment(user: UserId, attachment: AttachmentId, key: Key, size: nat, isImage: bool)
    | DiscardAttachment(attachment: AttachmentId, user: UserId)

  function FromSocial(e: SocialTables.Error): (r: Error) {
    if e == SocialTables.NotFound then NotFound else Forbidden
  }

  /** `require_room_message_access`. */
  function RoomDenial(w: World, room: RoomId, user: UserId): (d: Option<Error>) {
    if RoomTables.HasAccess(w.rooms, room, user) then None else Some(NotFound)
  }

  /** The checks of `create_dialog_message` before the content. */
  function DialogDenial(w: World, pair: (UserId, UserId), user: UserId): (d: Option<Error>) {
    if !SocialTables.IsParticipant(w.social, pair, user) then Some(NotFound)
    else if pair.0 == pair.1 then Some(Forbidden)
    else match SocialTables.SendGuard(w.social, pair, user) case Ok(_) => None case Err(e) => Some(FromSocial(e))
  }

  /** Why the sender may not post, if so. */
  function SendDenial(w: World, c: Container, sender: UserId): (d: Option<Error>) {
    match c case InRoom(room) => RoomDenial(w, room, sender) case InDialog(pair) => DialogDenial(w, pair, sender)
  }

  /** Why the actor may not touch messages that are there, if so. */
  function ChangeDenial(w: World, c: Container, actor: UserId): (d: Option<Error>) {
    match c
    case InRoom(room) => RoomDenial(w, room, actor)
    case InDialog(pair) => if SocialTables.IsParticipant(w.social, pair, actor) then None else Some(NotFound)
  }

  predicate IsStaffOf(w: World, c: Container, user: UserId) {
    c.InRoom? && RoomTables.IsStaff(w.rooms, c.room, user)
  }

  /** What the call does to the message tables, if it touches them. */
  function MessageCall(w: World, a: Action): (call: Option<Op>) {
    match a
    case SocialCall(_) => None
    case RoomCall(op) =>
      if op.OpDelete? && RoomTables.Apply(w.rooms, op).Ok? then Some(RemoveRoom(op.room)) else None
    case SendMessage(c, sender, text, replyTo, ids, id) =>
      Some(Post(c, sender, SendDenial(w, c, sender), text, replyTo, ids, id))
    case ReviseMessage(c, id, actor, text) => Some(Edit(c, id, actor, ChangeDenial(w, c, actor), text))
    case RemoveMessage(c, id, actor) => Some(Remove(c, id, actor, ChangeDenial(w, c, actor), IsStaffOf(w, c, actor)))
    case UploadAttachment(user, id, key, size, isImage) => Some(Upload(user, id, key, size, isImage))
    case DiscardAttachment(id, user) => Some(Discard(id, user))
  }

  function MessagesAfter(t: Tables, call: Option<Op>): (next: Tables) {
    match call case None => t case Some(op) => Apply(t, op).next
  }

  function Step(w: World, a: Action): (next: World) {
    World(
      if a.SocialCall? then SocialTables.Step(w.social, a.op) else w.social,
      if a.RoomCall? then RoomTables.Step(w.rooms, a.roomOp) else w.rooms,
      MessagesAfter(w.messages, MessageCall(w, a)))
  }

  /** The error of a call on messages or attachments. */
  function ErrorOf(w: World, a: Action): (error: Option<Error>) {
    match MessageCall(w, a) case None => None case Some(op) => Apply(w.messages, op).error
  }

  function Start(users: set<UserId>): (w: World) {
    World(SocialTables.Start(users), RoomTables.EMPTY, EMPTY)
  }

  function Run(users: set<UserId>, actions: seq<Action>): (w: World) {
    if actions == [] then Start(users) else Step(Run(users, actions[..|actions| - 1]), actions[|actions| - 1])
  }

  lemma RunSnoc(users: set<UserId>, actions: seq<Action>, a: Action)
    ensures Run(users, actions + [a]) == Step(Run(users, actions), a)
  {
    assert (actions + [a])[..|actions|] == actions;
  }

  function SocialCalls(actions: seq<Action>): (ops: seq<SocialTables.Op>) {
    if actions == [] then []
    else
      var last := actions[|actions| - 1];
      SocialCalls(actions[..|actions| - 1]) + if last.SocialCall? then [last.op] else []
  }

  function RoomCalls(actions: seq<Action>): (ops: seq<RoomTables.Op>) {
    if actions == [] then []
    else
      var last := actions[|actions| - 1];
      RoomCalls(actions[..|actions| - 1]) + if last.RoomCall? then [last.roomOp] else []
  }

  /** The calls on the message tables, with the access decisions of the moment of each. */
  function MessageCalls(users: set<UserId>, actions: seq<Action>): (ops: seq<Op>) {
    if actions == [] then []
    else
      var before := actions[..|actions| - 1];
      var call := MessageCall(Run(users, before), actions[|actions| - 1]);
      MessageCalls(users, before) + if call.Some? then [call.value] else []
  }

  /** Each part of a run is a run of its own calls, so what holds of these runs holds here. */
  lemma {:induction false} PartsAreRuns(users: set<UserId>, actions: seq<Action>)
    ensures Run(users, actions).social == SocialTables.Run(users, SocialCalls(actions))
    ensures Run(users, actions).rooms == RoomTables.Run(RoomCalls(actions))
    ensures Run(users, actions).messages == MessageTables.Run(MessageCalls(users, actions))
  {
    if actions != [] {
      var before, last := actions[..|actions| - 1], actions[|actions| - 1];
      PartsAreRuns(users, before);
      if last.SocialCall? {
        SocialTables.RunSnoc(users, SocialCalls(before), last.op);
      } else {
        assert SocialCalls(actions) == SocialCalls(before);
      }
      if last.RoomCall? {
        RoomTables.RunSnoc(RoomCalls(before), last.roomOp);
      } else {
        assert RoomCalls(actions) == RoomCalls(before);
      }
      MessagePartIsRun(users, actions);
    }
  }

  lemma MessagePartIsRun(users: set<UserId>, actions: seq<Action>)
    requires actions != []
    requires var before := actions[..|actions| - 1];
      Run(users, before).messages == MessageTables.Run(MessageCalls(users, before))
    ensures Run(users, actions).messages == MessageTables.Run(MessageCalls(users, actions))
  {
    var before := actions[..|actions| - 1];
    var call := MessageCall(Run(users, before), actions[|actions| - 1]);
    if call.Some? {
      MessageTables.RunSnoc(MessageCalls(users, before), call.value);
    } else {
      assert MessageCalls(users, actions) == MessageCalls(users, before);
    }
  }

  ghost predicate PartsInv(w: World) {
    SocialTables.Inv(w.social) && RoomTables.Inv(w.rooms) && MessageTables.Inv(w.messages)
  }

  lemma RunKeepsParts(users: set<UserId>, actions: seq<Action>)
    ensures PartsInv(Run(users, actions))
  {
    PartsAreRuns(users, actions);
    SocialTables.RunKeepsInv(users, SocialCalls(actions));
    RoomTables.RunKeepsInv(RoomCalls(actions));
    MessageTables.RunKeepsInv(MessageCalls(users, actions));
  }

  /** A member of the room without a ban; one of two friends neither of whom bans the other. */
  predicate MayPost(w: World, c: Container, user: UserId) {
    match c
    case InRoom(room) => RoomTables.HasAccess(w.rooms, room, user)
    case InDialog(pair) => SocialTables.IsParticipant(w.social, pair, user) && SocialTables.MayTalk(w.social, pair)
  }

  lemma DenialIsExact(w: World, c: Container, sender: UserId)
    requires SocialTables.Inv(w.social)
    ensures SendDenial(w, c, sender) == None <==> MayPost(w, c, sender)
  {
    if c.InDialog? && SocialTables.IsParticipant(w.social, c.pair, sender) {
      assert c.pair.0 < c.pair.1;
    }
  }

  /** In every run a message gets in exactly when its sender may post and its content, target and attachments pass. */
  lemma SendingSucceedsIff(
    users: set<UserId>, actions: seq<Action>, c: Container, sender: UserId, text: Option<string>,
    replyTo: Option<MessageId>, ids: seq<AttachmentId>, id: MessageId)
    ensures var w := Run(users, actions);
      ErrorOf(w, SendMessage(c, sender, text, replyTo, ids, id)) == None <==>
        && MayPost(w, c, sender)
        && ValidateContent(text, ids != []).Ok?
        && IsReplyTarget(w.messages, c, replyTo)
        && CanLock(w.messages, sender, ids)
        && MessageKey(SideOf(c), id) !in w.messages.messages
  {
    RunKeepsParts(users, actions);
    DenialIsExact(Run(users, actions), c, sender);
  }

  /** At step `i` of the run the stored message was sent, by somebody who might post then. */
  ghost predicate WasSentAt(users: set<UserId>, actions: seq<Action>, i: nat, k: MessageKey, m: Message)
    requires i < |actions|
  {
    var a := actions[i];
    && a.SendMessage? && a.c == m.container && a.sender == m.sender
    && MessageKey(SideOf(a.c), a.id) == k
    && MayPost(Run(users, actions[..i]), m.container, m.sender)
  }

  /** A message that was not there before was sent by this action. */
  lemma NewMessagesAreSent(w: World, a: Action, k: MessageKey)
    requires k !in w.messages.messages && k in Step(w, a).messages.messages
    ensures a.SendMessage? && SendDenial(w, a.c, a.sender) == None && MessageKey(SideOf(a.c), a.id) == k
    ensures var m := Step(w, a).messages.messages[k]; m.container == a.c && m.sender == a.sender
  {
    var call := MessageCall(w, a);
    NewMessagesArePosted(w.messages, call.value, k);
  }

  /** A message that stays keeps its author and place. */
  lemma OriginsStay(w: World, a: Action, k: MessageKey)
    requires MessageTables.Inv(w.messages)
    requires k in w.messages.messages && k in Step(w, a).messages.messages
    ensures var m, n := w.messages.messages[k], Step(w, a).messages.messages[k];
      m.container == n.container && m.sender == n.sender
  {
    var call := MessageCall(w, a);
    if call.Some? {
      OnlyAuthorsEdit(w.messages, call.value, k);
    }
  }

  lemma WasSentBefore(
    users: set<UserId>, actions: seq<Action>, a: Action, i: nat, k: MessageKey, m: Message, n: Message)
    requires i < |actions| && WasSentAt(users, actions, i, k, m) && m.container == n.container && m.sender == n.sender
    ensures WasSentAt(users, actions + [a], i, k, n)
  {
    assert (actions + [a])[..i] == actions[..i];
  }

  lemma WasSentNow(users: set<UserId>, actions: seq<Action>, a: Action, k: MessageKey, m: Message)
    requires k !in Run(users, actions).messages.messages
    requires k in Step(Run(users, actions), a).messages.messages
    requires m == Step(Run(users, actions), a).messages.messages[k]
    ensures WasSentAt(users, actions + [a], |actions|, k, m)
  {
    var w := Run(users, actions);
    RunKeepsParts(users, actions);
    NewMessagesAreSent(w, a, k);
    DenialIsExact(w, a.c, a.sender);
    assert (actions + [a])[..|actions|] == actions;
  }

  /**
   * In every run, every stored message was sent at some step by its author: in a dialog while the two were
   * friends and neither banned the other, in a room while the author was a member without a ban.
   */
  lemma {:induction false} MessagesWereAllowed(users: set<UserId>, actions: seq<Action>, k: MessageKey)
    requires k in Run(users, actions).messages.messages
    ensures exists i ::
      0 <= i < |actions| && WasSentAt(users, actions, i, k, Run(users, actions).messages.messages[k])
    decreases |actions|
  {
    var n := |actions| - 1;
    var before, last, m := actions[..n], actions[n], Run(users, actions).messages.messages[k];
    var w := Run(users, before);
    assert actions == before + [last];
    if k in w.messages.messages {
      MessagesWereAllowed(users, before, k);
      RunKeepsParts(users, before);
      OriginsStay(w, last, k);
      var i :| 0 <= i < n && WasSentAt(users, before, i, k, w.messages.messages[k]);
      WasSentBefore(users, before, last, i, k, w.messages.messages[k], m);
    } else {
      WasSentNow(users, before, last, k, m);
    }
  }

  predicate ChatExists(w: World, c: Container) {
    match c case InRoom(room) => room in w.rooms.rooms case InDialog(pair) => pair in w.social.dialogs
  }

  ghost predicate ChatsExist(w: World) {
    forall k | k in w.messages.messages :: ChatExists(w, w.messages.messages[k].container)
  }

  /** A chat stays, unless it is a room that its owner deletes. */
  lemma ChatsStay(w: World, a: Action, c: Container)
    requires SocialTables.Inv(w.social) && ChatExists(w, c)
    ensures ChatExists(Step(w, a), c) <==>
      !(c.InRoom? && a.RoomCall? && a.roomOp.OpDelete? && a.roomOp.room == c.room
        && RoomTables.Apply(w.rooms, a.roomOp).Ok?)
  {
    match c
    case InRoom(room) =>
      if a.RoomCall? { RoomTables.RoomsStay(w.rooms, a.roomOp, room); }
    case InDialog(pair) =>
      if a.SocialCall? { SocialTables.DialogsOpenAmongFriends(w.social, a.op, pair); }
  }

  lemma DeletedRoomIsEmpty(t: Tables, room: RoomId, k: MessageKey)
    ensures k in Apply(t, RemoveRoom(room)).next.messages ==>
      && k in t.messages
      && Apply(t, RemoveRoom(room)).next.messages[k].container == t.messages[k].container != InRoom(room)
  {
  }

  lemma StepKeepsChats(w: World, a: Action)
    requires PartsInv(w) && ChatsExist(w)
    ensures ChatsExist(Step(w, a))
  {
    var next := Step(w, a);
    forall k | k in next.messages.messages ensures ChatExists(next, next.messages.messages[k].container) {
      if k in w.messages.messages {
        OriginsStay(w, a, k);
        ChatsStay(w, a, w.messages.messages[k].container);
        if a.RoomCall? && a.roomOp.OpDelete? {
          DeletedRoomIsEmpty(w.messages, a.roomOp.room, k);
        }
      } else {
        NewMessagesAreSent(w, a, k);
        assert ChatExists(w, a.c);
        ChatsStay(w, a, a.c);
      }
    }
  }

  /** In every run, the room or dialog of every stored message exists. */
  lemma {:induction false} MessagesHaveChats(users: set<UserId>, actions: seq<Action>)
    ensures ChatsExist(Run(users, actions))
  {
    if actions != [] {
      var before := actions[..|actions| - 1];
      RunKeepsParts(users, before);
      MessagesHaveChats(users, before);
      StepKeepsChats(Run(users, before), actions[|actions| - 1]);
    }
  }

  /** Who may download an attachment, and the branches that answer when the rows disagree. */
  datatype Decision = Granted | Denied | BindingMissing

  function AttachmentDecision(w: World, id: AttachmentId, user: UserId): (d: Decision)
    requires id in w.messages.attachments
  {
    var t, a := w.messages, w.messages.attachments[id];
    if a.deletedAt != None then Denied
    else
      match a.binding
      case Unbound => if a.uploader == user then Granted else Denied
      case RoomMessage =>
        var j := JoinKey(RoomSide, id);
        if j !in t.joins || MessageKey(RoomSide, t.joins[j]) !in t.messages then BindingMissing
        else
          var c := t.messages[MessageKey(RoomSide, t.joins[j])].container;
          if c.InRoom? && RoomTables.IsMember(w.rooms, c.room, user) && !RoomTables.IsBanned(w.rooms, c.room, user)
          then Granted else Denied
      case DialogMessage =>
        var j := JoinKey(DialogSide, id);
        if j !in t.joins || MessageKey(DialogSide, t.joins[j]) !in t.messages then BindingMissing
        else
          var c := t.messages[MessageKey(DialogSide, t.joins[j])].container;
          if c.InDialog? && (c.pair.0 == user || c.pair.1 == user) then Granted else Denied
  }

  /** A message of this room or dialog carries the attachment. */
  ghost predicate CarriedBy(t: Tables, id: AttachmentId, c: Container) {
    var j := JoinKey(SideOf(c), id);
    j in t.joins && MessageKey(SideOf(c), t.joins[j]) in t.messages
    && t.messages[MessageKey(SideOf(c), t.joins[j])].container == c
  }

  /** Whom a carried attachment opens to: members of an existing room, or the two of an existing dialog. */
  ghost predicate OpensThrough(w: World, c: Container, user: UserId) {
    match c
    case InRoom(room) => room in w.rooms.rooms && RoomTables.IsMember(w.rooms, room, user)
    case InDialog(pair) => SocialTables.IsParticipant(w.social, pair, user)
  }

  /**
   * In every run the missing-binding branches are dead, and an attachment opens to exactly these users:
   * its uploader while it is unbound, and those who can see the room or dialog that carries it.
   */
  lemma AccessFollowsBinding(users: set<UserId>, actions: seq<Action>, id: AttachmentId, user: UserId)
    requires id in Run(users, actions).messages.attachments
    ensures var w := Run(users, actions);
      && AttachmentDecision(w, id, user) != BindingMissing
      && (AttachmentDecision(w, id, user) == Granted <==>
            || (w.messages.attachments[id].binding == Unbound && w.messages.attachments[id].uploader == user)
            || exists c :: CarriedBy(w.messages, id, c) && OpensThrough(w, c, user))
  {
    PartsAreRuns(users, actions);
    BindingsMatchJoins(MessageCalls(users, actions), id);
    RunKeepsParts(users, actions);
    MessagesHaveChats(users, actions);
    var w := Run(users, actions);
    var t := w.messages;
    match t.attachments[id].binding
    case Unbound =>
    case RoomMessage => CarrierDecides(w, id, RoomSide, user);
    case DialogMessage => CarrierDecides(w, id, DialogSide, user);
  }

  lemma OneCarrier(t: Tables, id: AttachmentId, side: Side, c: Container)
    requires MessageTables.Inv(t) && id in t.attachments && t.attachments[id].binding == BindingOf(side)
    ensures var j := JoinKey(side, id);
      && j in t.joins && MessageKey(side, t.joins[j]) in t.messages
      && (CarriedBy(t, id, c) <==> c == t.messages[MessageKey(side, t.joins[j])].container)
  {
    var j := JoinKey(side, id);
    assert j in t.joins;
    assert SideOf(t.messages[MessageKey(side, t.joins[j])].container) == side;
    if CarriedBy(t, id, c) {
      assert t.attachments[id].binding == BindingOf(SideOf(c));
    }
  }

  lemma CarrierDecides(w: World, id: AttachmentId, side: Side, user: UserId)
    requires PartsInv(w) && ChatsExist(w)
    requires id in w.messages.attachments && w.messages.attachments[id].binding == BindingOf(side)
    ensures AttachmentDecision(w, id, user) != BindingMissing
    ensures AttachmentDecision(w, id, user) == Granted <==>
      exists c :: CarriedBy(w.messages, id, c) && OpensThrough(w, c, user)
  {
    forall c ensures var j := JoinKey(side, id);
      && j in w.messages.joins && MessageKey(side, w.messages.joins[j]) in w.messages.messages
      && (CarriedBy(w.messages, id, c) <==> c == w.messages.messages[MessageKey(side, w.messages.joins[j])].container)
    {
      OneCarrier(w.messages, id, side, c);
    }
    var carrier := w.messages.messages[MessageKey(side, w.messages.joins[JoinKey(side, id)])].container;
    assert CarriedBy(w.messages, id, carrier) && ChatExists(w, carrier);
    DecisionAtCarrier(w, id, side, carrier, user);
  }

  lemma DecisionAtCarrier(w: World, id: AttachmentId, side: Side, carrier: Container, user: UserId)
    requires RoomTables.Inv(w.rooms) && ChatExists(w, carrier)
    requires id in w.messages.attachments && w.messages.attachments[id].binding == BindingOf(side)
    requires w.messages.attachments[id].deletedAt == None
    requires CarriedBy(w.messages, id, carrier) && SideOf(carrier) == side
    ensures AttachmentDecision(w, id, user) != BindingMissing
    ensures AttachmentDecision(w, id, user) == Granted <==> OpensThrough(w, carrier, user)
  {
  }
}

/** The message and attachment service over the room and social stores. */
module MessageService {
  import opened Wrappers
  import opened UserPair
  import opened MessageTables
  import opened ChatTables
  import RoomTables
  import RoomService
  import SocialTables
  import SocialService

  class ChatStore {
    const rooms: RoomService.RoomStore
    const social: SocialService.SocialStore
    var messages: map<MessageKey, Message>
    var attachments: map<AttachmentId, Attachment>
    var joins: map<JoinKey, MessageId>
    var blobs: set<Key>
    var nextSerial: nat
    /** The calls made so far, on this store and on the two below it. */
    ghost var actions: seq<Action>

    constructor (rooms: RoomService.RoomStore, social: SocialService.SocialStore)
      requires rooms.Contents() == RoomTables.EMPTY && social.Contents() == SocialTables.Start(social.users)
      ensures Valid() && actions == [] && this.rooms == rooms && this.social == social
    {
      this.rooms, this.social := rooms, social;
      messages, attachments, joins, blobs, nextSerial := map[], map[], map[], {}, 0;
      actions := [];
    }

    ghost function Messages(): (t: Tables)
      reads this
    {
      Tables(messages, attachments, joins, blobs, nextSerial)
    }

    ghost function Contents(): (w: World)
      reads this, rooms, social
    {
      World(social.Contents(), rooms.Contents(), Messages())
    }

    /** All three stores hold what the run of calls so far makes of them, so every property of runs is theirs. */
    ghost predicate Valid()
      reads this, rooms, social
    {
      Contents() == ChatTables.Run(social.users, actions)
    }

    /** The call was made: it did what its action does to the world, and failed as the action does. */
    ghost predicate Did(before: World, earlier: seq<Action>, a: Action, error: Option<Error>)
      reads this, rooms, social
    {
      Valid() && actions == earlier + [a] && Contents() == Step(before, a) && error == ErrorOf(before, a)
    }

    ghost method Record(a: Action)
      modifies this`actions
      ensures actions == old(actions) + [a]
      ensures ChatTables.Run(social.users, actions) == Step(ChatTables.Run(social.users, old(actions)), a)
    {
      ChatTables.RunSnoc(social.users, actions, a);
      actions := actions + [a];
    }

    /** Takes up a call that was made on the room store; deleting a room has to go through this store. */
    ghost method TakeUpRoomCall(op: RoomTables.Op)
      requires var before := ChatTables.Run(social.users, actions);
        && Contents() == before.(rooms := RoomTables.Step(before.rooms, op))
        && (op.OpDelete? ==> RoomTables.Apply(before.rooms, op).Err?)
      modifies this`actions
      ensures Valid() && actions == old(actions) + [RoomCall(op)]
    {
      Record(RoomCall(op));
    }

    /** Takes up a call that was made on the social store. */
    ghost method TakeUpSocialCall(op: SocialTables.Op)
      requires var before := ChatTables.Run(social.users, actions);
        Contents() == before.(social := SocialTables.Step(before.social, op))
      modifies this`actions
      ensures Valid() && actions == old(actions) + [SocialCall(op)]
    {
      Record(SocialCall(op));
    }

    predicate IsParticipantOf(pair: (UserId, UserId), user: UserId)
      reads social
    {
      pair in social.dialogs && (pair.0 == user || pair.1 == user)
    }

    /** The checks of `create_dialog_message` before the content. */
    function DialogSendDenial(pair: (UserId, UserId), user: UserId): (d: Option<Error>)
      reads this, rooms, social
      ensures d == DialogDenial(Contents(), pair, user)
    {
      if !IsParticipantOf(pair, user) then Some(NotFound)
      else if social.dialogs[pair].isFrozen then Some(Forbidden)
      else
        var other := if pair.0 == user then pair.1 else pair.0;
        if user == other || SocialTables.PairOf(user, other) !in social.friendships
          || social.ActiveBanEitherWay(user, other)
        then Some(Forbidden) else None
    }

    /** Why the sender may not post, if so. */
    function Denial(c: Container, sender: UserId): (d: Option<Error>)
      reads this, rooms, social
      ensures d == SendDenial(Contents(), c, sender)
    {
      match c
      case InRoom(room) => if rooms.MayAccess(room, sender) then None else Some(NotFound)
      case InDialog(pair) => DialogSendDenial(pair, sender)
    }

    /** Why the actor may not edit or delete, if so. */
    function AccessDenial(c: Container, actor: UserId): (d: Option<Error>)
      reads this, rooms, social
      ensures d == ChangeDenial(Contents(), c, actor)
    {
      match c
      case InRoom(room) => if rooms.MayAccess(room, actor) then None else Some(NotFound)
      case InDialog(pair) => if IsParticipantOf(pair, actor) then None else Some(NotFound)
    }

    /** Every id must name an own, unbound, undeleted attachment, and no id may repeat. */
    method LockOwnedUnboundAttachments(user: UserId, ids: seq<AttachmentId>) returns (ok: bool)
      ensures ok <==> CanLock(Messages(), user, ids)
    {
      var seen: set<AttachmentId> := {};
      var i := 0;
      while i < |ids|
        invariant 0 <= i <= |ids|
        invariant seen == set k | k in ids[..i]
        invariant forall x, y | 0 <= x < y < i :: ids[x] != ids[y]
        invariant forall x | 0 <= x < i :: IsAvailable(Messages(), user, ids[x])
      {
        if ids[i] in seen {
          var x :| 0 <= x < i && ids[x] == ids[i];
          return false;
        }
        if ids[i] !in attachments || attachments[ids[i]].deletedAt != None {
          assert !IsAvailable(Messages(), user, ids[i]);
          return false;
        }
        if attachments[ids[i]].uploader != user || attachments[ids[i]].binding != Unbound {
          assert !IsAvailable(Messages(), user, ids[i]);
          return false;
        }
        seen := seen + {ids[i]};
        assert ids[..i + 1] == ids[..i] + [ids[i]];
        i := i + 1;
      }
      ok := true;
    }

    /** Creates the join rows one by one and marks the attachments. */
    method BindAttachments(side: Side, id: MessageId, ids: seq<AttachmentId>)
      requires forall a | a in ids :: a in attachments
      modifies this`joins, this`attachments
      ensures Messages() == Bind(old(Messages()), side, id, ids)
    {
      ghost var before := Messages();
      assert ids[..0] == [];
      BindNone(before, side, id);
      var i := 0;
      while i < |ids|
        invariant 0 <= i <= |ids|
        invariant Messages() == Bind(before, side, id, ids[..i])
      {
        var a := ids[i];
        assert ids[..i + 1] == ids[..i] + [a];
        assert a in ids;
        BindOneMore(before, side, id, ids[..i], a);
        joins := joins[JoinKey(side, a) := id];
        attachments := attachments[a := attachments[a].(binding := BindingOf(side))];
        i := i + 1;
      }
      assert ids[..i] == ids;
    }

    method CheckMessage(
      c: Container, sender: UserId, text: Option<string>, replyTo: Option<MessageId>, ids: seq<AttachmentId>,
      id: MessageId)
      returns (refusal: Option<Error>)
      ensures refusal == PostRefusal(Messages(), c, sender, text, replyTo, ids, id)
    {
      if ValidateContent(text, ids != []).Err? {
        return Some(Validation);
      }
      if replyTo.Some? {
        var target := MessageKey(SideOf(c), replyTo.value);
        if target !in messages || messages[target].container != c {
          return Some(Validation);
        }
      }
      var locked := LockOwnedUnboundAttachments(sender, ids);
      if !locked {
        return Some(Validation);
      }
      refusal := if MessageKey(SideOf(c), id) in messages then Some(Integrity) else None;
    }

    /** The part of message creation after the access checks. */
    method InsertMessage(
      c: Container, sender: UserId, text: Option<string>, replyTo: Option<MessageId>, ids: seq<AttachmentId>,
      id: MessageId)
      returns (error: Option<Error>)
      requires SendDenial(Contents(), c, sender) == None
      modifies this`messages, this`attachments, this`joins, this`nextSerial
      ensures Outcome(Messages(), error) == Apply(old(Messages()), Post(c, sender, None, text, replyTo, ids, id))
    {
      error := CheckMessage(c, sender, text, replyTo, ids, id);
      if error.None? {
        assert forall a | a in ids :: IsAvailable(Messages(), sender, a);
        messages := messages[MessageKey(SideOf(c), id) := Message(c, sender, text, replyTo, false, nextSerial)];
        nextSerial := nextSerial + 1;
        assert Messages() == Insert(old(Messages()), c, sender, text, replyTo, id);
        BindAttachments(SideOf(c), id, ids);
      }
    }

    method PostMessage(
      c: Container, sender: UserId, text: Option<string>, replyTo: Option<MessageId>, ids: seq<AttachmentId>,
      id: MessageId)
      returns (error: Option<Error>)
      requires Valid()
      modifies this
      ensures Did(old(Contents()), old(actions), SendMessage(c, sender, text, replyTo, ids, id), error)
    {
      Record(SendMessage(c, sender, text, replyTo, ids, id));
      error := Denial(c, sender);
      if error.None? {
        error := InsertMessage(c, sender, text, replyTo, ids, id);
      }
    }

    method CreateRoomMessage(
      room: RoomId, sender: UserId, text: Option<string>, replyTo: Option<MessageId>, ids: seq<AttachmentId>,
      id: MessageId)
      returns (error: Option<Error>)
      requires Valid()
      modifies this
      ensures Did(old(Contents()), old(actions), SendMessage(InRoom(room), sender, text, replyTo, ids, id), error)
      ensures error == None ==> RoomTables.HasAccess(rooms.Contents(), room, sender)
    {
      error := PostMessage(InRoom(room), sender, text, replyTo, ids, id);
    }

    /** A message enters a dialog only while the pair are friends and neither bans the other. */
    method CreateDialogMessage(
      pair: (UserId, UserId), sender: UserId, text: Option<string>, replyTo: Option<MessageId>,
      ids: seq<AttachmentId>, id: MessageId)
      returns (error: Option<Error>)
      requires Valid()
      modifies this
      ensures Did(old(Contents()), old(actions), SendMessage(InDialog(pair), sender, text, replyTo, ids, id), error)
      ensures error == None ==>
        pair in social.dialogs && SocialTables.MayTalk(social.Contents(), pair) && sender in {pair.0, pair.1}
    {
      SendingSucceedsIff(social.users, actions, InDialog(pair), sender, text, replyTo, ids, id);
      error := PostMessage(InDialog(pair), sender, text, replyTo, ids, id);
    }

    /** The part of an edit after the access checks. */
    method ChangeText(c: Container, id: MessageId, actor: UserId, text: Option<string>) returns (error: Option<Error>)
      requires ChangeDenial(Contents(), c, actor) == None
      modifies this`messages
      ensures Outcome(Messages(), error) == Apply(old(Messages()), Edit(c, id, actor, None, text))
    {
      var k := MessageKey(SideOf(c), id);
      if k !in messages || messages[k].container != c {
        return Some(NotFound);
      }
      if messages[k].sender != actor {
        return Some(Forbidden);
      }
      var bound := exists j | j in joins :: j.side == k.side && joins[j] == k.id;
      if ValidateContent(text, bound).Err? {
        return Some(Validation);
      }
      messages := messages[k := messages[k].(text := text, isEdited := true)];
      error := None;
    }

    method UpdateMessage(
      c: Container, id: MessageId, actor: UserId, text: Option<string>) returns (error: Option<Error>)
      requires Valid()
      modifies this
      ensures Did(old(Contents()), old(actions), ReviseMessage(c, id, actor, text), error)
    {
      Record(ReviseMessage(c, id, actor, text));
      error := AccessDenial(c, actor);
      if error.None? {
        error := ChangeText(c, id, actor, text);
      }
    }

    method UpdateRoomMessage(
      room: RoomId, id: MessageId, actor: UserId, text: Option<string>) returns (error: Option<Error>)
      requires Valid()
      modifies this
      ensures Did(old(Contents()), old(actions), ReviseMessage(InRoom(room), id, actor, text), error)
    {
      error := UpdateMessage(InRoom(room), id, actor, text);
    }

    method UpdateDialogMessage(pair: (UserId, UserId), id: MessageId, actor: UserId, text: Option<string>)
      returns (error: Option<Error>)
      requires Valid()
      modifies this
      ensures Did(old(Contents()), old(actions), ReviseMessage(InDialog(pair), id, actor, text), error)
    {
      error := UpdateMessage(InDialog(pair), id, actor, text);
    }

    /** Deletes the attachments of the messages, then the messages; the database cascades do the rest. */
    method DropMessages(gone: set<MessageKey>)
      modifies this`messages, this`attachments, this`joins, this`blobs
      ensures Messages() == RemoveMessages(old(Messages()), gone)
    {
      var doomed := set j | j in joins && MessageKey(j.side, joins[j]) in gone :: j.attachment;
      DropIsRemove(Messages(), gone, doomed);
      blobs := blobs - set a | a in attachments && a in doomed :: attachments[a].storageKey;
      attachments := map a | a in attachments && a !in doomed :: attachments[a];
      joins := map j | j in joins && j.attachment !in doomed :: joins[j];
      messages := map k | k in messages && k !in gone ::
        if messages[k].replyTo.Some? && MessageKey(k.side, messages[k].replyTo.value) in gone
        then messages[k].(replyTo := None) else messages[k];
    }

    lemma DropIsRemove(t: Tables, gone: set<MessageKey>, doomed: set<AttachmentId>)
      requires doomed == set j | j in t.joins && MessageKey(j.side, t.joins[j]) in gone :: j.attachment
      ensures var next := RemoveMessages(t, gone);
        && next.blobs == t.blobs - (set a | a in t.attachments && a in doomed :: t.attachments[a].storageKey)
        && next.attachments == (map a | a in t.attachments && a !in doomed :: t.attachments[a])
        && next.joins == (map j | j in t.joins && j.attachment !in doomed :: t.joins[j])
    {
      forall a ensures a in doomed <==> IsGone(t, gone, a) {
        JoinedToGone(t, gone, a);
      }
    }

    /** The part of a deletion after the access checks. */
    method TakeMessage(c: Container, id: MessageId, actor: UserId, isStaff: bool) returns (error: Option<Error>)
      requires ChangeDenial(Contents(), c, actor) == None && isStaff == IsStaffOf(Contents(), c, actor)
      modifies this`messages, this`attachments, this`joins, this`blobs
      ensures Outcome(Messages(), error) == Apply(old(Messages()), Remove(c, id, actor, None, isStaff))
    {
      var k := MessageKey(SideOf(c), id);
      if k !in messages || messages[k].container != c {
        return Some(NotFound);
      }
      if messages[k].sender != actor && !(c.InRoom? && isStaff) {
        return Some(Forbidden);
      }
      DropMessages({k});
      error := None;
    }

    function IsRoomStaff(c: Container, user: UserId): (r: bool)
      reads this, rooms, social
      ensures r == IsStaffOf(Contents(), c, user)
    {
      c.InRoom? && (rooms.RoleOf(c.room, user) == Some(RoomTables.Owner)
        || rooms.RoleOf(c.room, user) == Some(RoomTables.Admin))
    }

    method DeleteMessage(c: Container, id: MessageId, actor: UserId) returns (error: Option<Error>)
      requires Valid()
      modifies this
      ensures Did(old(Contents()), old(actions), RemoveMessage(c, id, actor), error)
    {
      Record(RemoveMessage(c, id, actor));
      error := AccessDenial(c, actor);
      if error.None? {
        error := TakeMessage(c, id, actor, IsRoomStaff(c, actor));
      }
    }

    method DeleteRoomMessage(room: RoomId, id: MessageId, actor: UserId) returns (error: Option<Error>)
      requires Valid()
      modifies this
      ensures Did(old(Contents()), old(actions), RemoveMessage(InRoom(room), id, actor), error)
    {
      error := DeleteMessage(InRoom(room), id, actor);
    }

    method DeleteDialogMessage(pair: (UserId, UserId), id: MessageId, actor: UserId) returns (error: Option<Error>)
      requires Valid()
      modifies this
      ensures Did(old(Contents()), old(actions), RemoveMessage(InDialog(pair), id, actor), error)
    {
      error := DeleteMessage(InDialog(pair), id, actor);
    }

    /** The blob first, then the row; without the row the blob is deleted again. */
    method StoreAttachment(
      user: UserId, id: AttachmentId, key: Key, size: nat, isImage: bool) returns (error: Option<Error>)
      modifies this`attachments, this`blobs
      ensures Outcome(Messages(), error) == Apply(old(Messages()), Upload(user, id, key, size, isImage))
    {
      if size == 0 || size > SizeLimit(isImage) {
        return Some(Validation);
      }
      ghost var before := blobs;
      blobs := blobs + {key};
      if id in attachments || exists a | a in attachments :: attachments[a].storageKey == key {
        blobs := blobs - {key};
        assert blobs == before - {key};
        return Some(Integrity);
      }
      attachments := attachments[id := Attachment(user, key, size, Unbound, None)];
      error := None;
    }

    method CreateAttachment(
      user: UserId, id: AttachmentId, key: Key, size: nat, isImage: bool) returns (error: Option<Error>)
      requires Valid()
      modifies this
      ensures Did(old(Contents()), old(actions), UploadAttachment(user, id, key, size, isImage), error)
    {
      Record(UploadAttachment(user, id, key, size, isImage));
      error := StoreAttachment(user, id, key, size, isImage);
    }

    method DropUnbound(id: AttachmentId, actor: UserId) returns (error: Option<Error>)
      modifies this`attachments, this`joins, this`blobs
      ensures Outcome(Messages(), error) == Apply(old(Messages()), Discard(id, actor))
    {
      if id !in attachments || attachments[id].uploader != actor {
        return Some(NotFound);
      }
      if attachments[id].binding != Unbound {
        return Some(Conflict);
      }
      blobs := blobs - {attachments[id].storageKey};
      attachments := attachments - {id};
      joins := joins - {JoinKey(RoomSide, id), JoinKey(DialogSide, id)};
      error := None;
    }

    method DeleteUnboundAttachment(id: AttachmentId, actor: UserId) returns (error: Option<Error>)
      requires Valid()
      modifies this
      ensures Did(old(Contents()), old(actions), DiscardAttachment(id, actor), error)
    {
      Record(DiscardAttachment(id, actor));
      error := DropUnbound(id, actor);
    }

    /** Deleting a room takes its messages, their attachments and blobs, and the room's own rows. */
    method DeleteRoom(room: RoomId, actor: UserId) returns (r: Result<(), RoomTables.Error>)
      requires Valid() && rooms.Valid()
      modifies this, rooms
      ensures Valid() && rooms.Valid() && actions == old(actions) + [RoomCall(RoomTables.OpDelete(room, actor))]
      ensures Contents() == Step(old(Contents()), RoomCall(RoomTables.OpDelete(room, actor)))
      ensures match RoomTables.Apply(old(rooms.Contents()), RoomTables.OpDelete(room, actor))
        case Ok(_) => r.Ok? case Err(e) => r == Err(e)
    {
      Record(RoomCall(RoomTables.OpDelete(room, actor)));
      r := rooms.DeleteRoomRows(room, actor);
      if r.Ok? {
        DropMessages(set k | k in messages && messages[k].container == InRoom(room));
      }
    }

    /** `require_attachment_access`. */
    method RequireAttachmentAccess(id: AttachmentId, user: UserId) returns (granted: bool)
      requires id in attachments
      ensures granted <==> AttachmentDecision(Contents(), id, user) == Granted
    {
      var a := attachments[id];
      if a.deletedAt != None {
        return false;
      }
      match a.binding
      case Unbound => granted := a.uploader == user;
      case RoomMessage =>
        var j := JoinKey(RoomSide, id);
        if j !in joins || MessageKey(RoomSide, joins[j]) !in messages {
          return false;
        }
        var c := messages[MessageKey(RoomSide, joins[j])].container;
        granted := c.InRoom? && rooms.RoleOf(c.room, user).Some? && !rooms.ActiveBan(c.room, user);
      case DialogMessage =>
        var j := JoinKey(DialogSide, id);
        if j !in joins || MessageKey(DialogSide, joins[j]) !in messages {
          return false;
        }
        var c := messages[MessageKey(DialogSide, joins[j])].container;
        granted := c.InDialog? && (c.pair.0 == user || c.pair.1 == user);
    }
  }
}
