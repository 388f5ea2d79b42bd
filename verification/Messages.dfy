/**
 * Messages of rooms and dialogs, their attachments, the join rows that bind them, reply pointers and the
 * stored blobs, as tables. Rooms and dialogs keep separate tables of the same shape; a `Side` tells which.
 */
module MessageTables {
  import opened Wrappers
  import opened UserPair
  import Text

  type Time = int
  type RoomId = nat
  type MessageId = nat
  type AttachmentId = nat
  type Key = string

  datatype Side = RoomSide | DialogSide

  datatype Container = InRoom(room: RoomId) | InDialog(pair: (UserId, UserId))

  datatype MessageKey = MessageKey(side: Side, id: MessageId)

  /** `serial` is the place of the row in the order of insertion. */
  datatype Message = Message(
    container: Container, sender: UserId, text: Option<string>, replyTo: Option<MessageId>, isEdited: bool, serial: nat)

  datatype Binding = Unbound | RoomMessage | DialogMessage

  datatype Attachment = Attachment(
    uploader: UserId, storageKey: Key, size: nat, binding: Binding, deletedAt: Option<Time>)

  /** The row of the join table of `side` for one attachment; the table has at most one per attachment. */
  datatype JoinKey = JoinKey(side: Side, attachment: AttachmentId)

  datatype Error = NotFound | Forbidden | Validation | Conflict | Integrity

  datatype Tables = Tables(
    messages: map<MessageKey, Message>,
    attachments: map<AttachmentId, Attachment>,
    joins: map<JoinKey, MessageId>,
    blobs: set<Key>,
    nextSerial: nat)

  const MESSAGE_TEXT_LIMIT_BYTES: nat := 3 * 1024
  const MAX_FILE_SIZE_BYTES: nat := 20 * 1024 * 1024
  const MAX_IMAGE_SIZE_BYTES: nat := 3 * 1024 * 1024

  function SizeLimit(isImage: bool): (limit: nat) {
    if isImage then MAX_IMAGE_SIZE_BYTES else MAX_FILE_SIZE_BYTES
  }

  function SideOf(c: Container): (s: Side) {
    if c.InRoom? then RoomSide else DialogSide
  }

  function BindingOf(side: Side): (b: Binding) {
    match side case RoomSide => RoomMessage case DialogSide => DialogMessage
  }

  function Utf8Length(text: string): (n: nat) {
    if text == "" then 0
    else
      var c := text[0] as int;
      (if c < 0x80 then 1 else if c < 0x800 then 2 else if c < 0x1_0000 then 3 else 4) + Utf8Length(text[1..])
  }

  function ValidateContent(text: Option<string>, hasAttachments: bool): (r: Result<Option<string>, Error>)
  {
    if text.Some? && Utf8Length(text.value) > MESSAGE_TEXT_LIMIT_BYTES then Err(Validation)
    else if text.None? && !hasAttachments then Err(Validation)
    else if text.Some? && Text.Strip(text.value) == "" && !hasAttachments then Err(Validation)
    else Ok(text)
  }

  /** The text shows something: at least one of its characters is not white space. */
  predicate HasVisibleText(text: Option<string>) {
    text.Some? && exists i :: 0 <= i < |text.value| && !Text.IsSpace(text.value[i])
  }

  lemma {:induction false} StripLeftKeepsVisible(s: string)
    ensures Text.StripLeft(s) != "" <==> exists i :: 0 <= i < |s| && !Text.IsSpace(s[i])
  {
    if s != "" && Text.IsSpace(s[0]) {
      StripLeftKeepsVisible(s[1..]);
      if i :| 0 <= i < |s| && !Text.IsSpace(s[i]) {
        assert s[1..][i - 1] == s[i];
      }
      if i :| 0 <= i < |s[1..]| && !Text.IsSpace(s[1..][i]) {
        assert s[i + 1] == s[1..][i];
      }
    }
  }

  lemma {:induction false} StripRightKeepsVisible(s: string)
    requires s != "" && !Text.IsSpace(s[0])
    ensures Text.StripRight(s) != ""
  {
    if Text.IsSpace(s[|s| - 1]) {
      StripRightKeepsVisible(s[..|s| - 1]);
    }
  }

  /** Validation lets exactly the contents through that are short enough and show something. */
  lemma ContentIsValidIffVisible(text: Option<string>, hasAttachments: bool)
    ensures ValidateContent(text, hasAttachments).Ok? <==>
      && (text.Some? ==> Utf8Length(text.value) <= MESSAGE_TEXT_LIMIT_BYTES)
      && (HasVisibleText(text) || hasAttachments)
  {
    if text.Some? {
      StripLeftKeepsVisible(text.value);
      var left := Text.StripLeft(text.value);
      if left != "" {
        StripRightKeepsVisible(left);
      }
    }
  }

  predicate IsDistinct(ids: seq<AttachmentId>) {
    forall i, j | 0 <= i < j < |ids| :: ids[i] != ids[j]
  }

  predicate IsAvailable(t: Tables, user: UserId, id: AttachmentId) {
    && id in t.attachments && t.attachments[id].deletedAt == None
    && t.attachments[id].uploader == user && t.attachments[id].binding == Unbound
  }

  predicate CanLock(t: Tables, user: UserId, ids: seq<AttachmentId>) {
    IsDistinct(ids) && forall id | id in ids :: IsAvailable(t, user, id)
  }

  predicate IsReplyTarget(t: Tables, c: Container, replyTo: Option<MessageId>) {
    replyTo == None || (MessageKey(SideOf(c), replyTo.value) in t.messages
                        && t.messages[MessageKey(SideOf(c), replyTo.value)].container == c)
  }

  predicate HasBinding(t: Tables, k: MessageKey) {
    exists j | j in t.joins :: j.side == k.side && t.joins[j] == k.id
  }

  function JoinKeys(side: Side, ids: seq<AttachmentId>): (keys: set<JoinKey>)
    ensures forall j :: j in keys <==> j.side == side && j.attachment in ids
  {
    var keys := set a | a in ids :: JoinKey(side, a);
    assert forall j :: j in keys <==> j.side == side && j.attachment in ids by {
      forall j ensures j in keys <==> j.side == side && j.attachment in ids {
        if j.side == side && j.attachment in ids {
          assert j == JoinKey(side, j.attachment);
        }
      }
    }
    keys
  }

  function Bind(t: Tables, side: Side, id: MessageId, ids: seq<AttachmentId>): (r: Tables) {
    t.(joins := t.joins + map j | j in JoinKeys(side, ids) :: id,
       attachments := map a | a in t.attachments ::
         if a in ids then t.attachments[a].(binding := BindingOf(side)) else t.attachments[a])
  }

  lemma BindNone(t: Tables, side: Side, id: MessageId)
    ensures Bind(t, side, id, []) == t
  {
    assert Bind(t, side, id, []).joins == t.joins;
    assert Bind(t, side, id, []).attachments == t.attachments;
  }

  /** Binding one attachment more adds its join row and changes its binding. */
  lemma BindOneMore(t: Tables, side: Side, id: MessageId, ids: seq<AttachmentId>, a: AttachmentId)
    requires a in t.attachments
    ensures var some, more := Bind(t, side, id, ids), Bind(t, side, id, ids + [a]);
      && a in some.attachments
      && more == some.(joins := some.joins[JoinKey(side, a) := id],
                       attachments := some.attachments[a := some.attachments[a].(binding := BindingOf(side))])
  {
    var some, more := Bind(t, side, id, ids), Bind(t, side, id, ids + [a]);
    assert forall x :: x in ids + [a] <==> x in ids || x == a;
    OneMoreJoin(t, side, id, ids, a);
    assert more.attachments == some.attachments[a := some.attachments[a].(binding := BindingOf(side))];
  }

  lemma OneMoreKey(joins: map<JoinKey, MessageId>, keys: set<JoinKey>, k: JoinKey, id: MessageId)
    ensures joins + (map j | j in keys + {k} :: id) == (joins + map j | j in keys :: id)[k := id]
  {
  }

  lemma OneMoreJoin(t: Tables, side: Side, id: MessageId, ids: seq<AttachmentId>, a: AttachmentId)
    ensures Bind(t, side, id, ids + [a]).joins == Bind(t, side, id, ids).joins[JoinKey(side, a) := id]
  {
    assert JoinKeys(side, ids + [a]) == JoinKeys(side, ids) + {JoinKey(side, a)};
    OneMoreKey(t.joins, JoinKeys(side, ids), JoinKey(side, a), id);
  }

  /** Why a message is refused for itself, if so: its content, its reply target, its attachments, its id. */
  function PostRefusal(
    t: Tables, c: Container, sender: UserId, text: Option<string>, replyTo: Option<MessageId>,
    ids: seq<AttachmentId>, id: MessageId): (refusal: Option<Error>)
  {
    if ValidateContent(text, ids != []).Err? then Some(Validation)
    else if !IsReplyTarget(t, c, replyTo) then Some(Validation)
    else if !CanLock(t, sender, ids) then Some(Validation)
    else if MessageKey(SideOf(c), id) in t.messages then Some(Integrity)
    else None
  }

  /** `denied` is the error of the access check, if it failed. */
  function CreateMessage(
    t: Tables, c: Container, sender: UserId, denied: Option<Error>, text: Option<string>,
    replyTo: Option<MessageId>, ids: seq<AttachmentId>, id: MessageId): (r: Result<Tables, Error>)
  {
    if denied.Some? then Err(denied.value)
    else
      match PostRefusal(t, c, sender, text, replyTo, ids, id)
      case Some(error) => Err(error)
      case None => Ok(Bind(Insert(t, c, sender, text, replyTo, id), SideOf(c), id, ids))
  }

  function Insert(
    t: Tables, c: Container, sender: UserId, text: Option<string>, replyTo: Option<MessageId>, id: MessageId)
      : (r: Tables)
  {
    t.(messages := t.messages[MessageKey(SideOf(c), id) := Message(c, sender, text, replyTo, false, t.nextSerial)],
       nextSerial := t.nextSerial + 1)
  }

  predicate IsIn(t: Tables, c: Container, id: MessageId) {
    MessageKey(SideOf(c), id) in t.messages && t.messages[MessageKey(SideOf(c), id)].container == c
  }

  function EditMessage(
    t: Tables, c: Container, id: MessageId, actor: UserId, denied: Option<Error>, text: Option<string>)
      : (r: Result<Tables, Error>)
  {
    var k := MessageKey(SideOf(c), id);
    if denied.Some? then Err(denied.value)
    else if !IsIn(t, c, id) then Err(NotFound)
    else if t.messages[k].sender != actor then Err(Forbidden)
    else if ValidateContent(text, HasBinding(t, k)).Err? then Err(Validation)
    else Ok(t.(messages := t.messages[k := t.messages[k].(text := text, isEdited := true)]))
  }

  predicate IsGone(t: Tables, gone: set<MessageKey>, a: AttachmentId) {
    || (JoinKey(RoomSide, a) in t.joins && MessageKey(RoomSide, t.joins[JoinKey(RoomSide, a)]) in gone)
    || (JoinKey(DialogSide, a) in t.joins && MessageKey(DialogSide, t.joins[JoinKey(DialogSide, a)]) in gone)
  }

  lemma JoinedToGone(t: Tables, gone: set<MessageKey>, a: AttachmentId)
    ensures IsGone(t, gone, a) <==>
      exists j | j in t.joins :: MessageKey(j.side, t.joins[j]) in gone && j.attachment == a
  {
    if IsGone(t, gone, a) {
      assert JoinKey(RoomSide, a).attachment == a && JoinKey(DialogSide, a).attachment == a;
    }
    if j :| j in t.joins && MessageKey(j.side, t.joins[j]) in gone && j.attachment == a {
      match j.side
      case RoomSide => assert j == JoinKey(RoomSide, a);
      case DialogSide => assert j == JoinKey(DialogSide, a);
    }
  }

  /** Deletes messages with their attachments, join rows and blobs; replies to them point nowhere. */
  function RemoveMessages(t: Tables, gone: set<MessageKey>): (r: Tables) {
    Tables(
      map k | k in t.messages && k !in gone ::
        if t.messages[k].replyTo.Some? && MessageKey(k.side, t.messages[k].replyTo.value) in gone
        then t.messages[k].(replyTo := None) else t.messages[k],
      map a | a in t.attachments && !IsGone(t, gone, a) :: t.attachments[a],
      map j | j in t.joins && !IsGone(t, gone, j.attachment) && MessageKey(j.side, t.joins[j]) !in gone :: t.joins[j],
      t.blobs - (set a | a in t.attachments && IsGone(t, gone, a) :: t.attachments[a].storageKey),
      t.nextSerial)
  }

  function DeleteMessage(
    t: Tables, c: Container, id: MessageId, actor: UserId, denied: Option<Error>, isStaff: bool)
      : (r: Result<Tables, Error>)
  {
    var k := MessageKey(SideOf(c), id);
    if denied.Some? then Err(denied.value)
    else if !IsIn(t, c, id) then Err(NotFound)
    else if t.messages[k].sender != actor && !(c.InRoom? && isStaff) then Err(Forbidden)
    else Ok(RemoveMessages(t, {k}))
  }

  function RoomMessages(t: Tables, room: RoomId): (r: set<MessageKey>) {
    set k | k in t.messages && t.messages[k].container == InRoom(room)
  }

  predicate KeyTaken(t: Tables, key: Key) {
    exists a | a in t.attachments :: t.attachments[a].storageKey == key
  }

  datatype Op =
    | Post(c: Container, sender: UserId, denied: Option<Error>, text: Option<string>, replyTo: Option<MessageId>,
           ids: seq<AttachmentId>, id: MessageId)
    | Edit(c: Container, id: MessageId, actor: UserId, denied: Option<Error>, text: Option<string>)
    | Remove(c: Container, id: MessageId, actor: UserId, denied: Option<Error>, isStaff: bool)
    | Upload(uploader: UserId, attachment: AttachmentId, key: Key, size: nat, isImage: bool)
    | Discard(attachment: AttachmentId, actor: UserId)
    | RemoveRoom(room: RoomId)

  /** A failed call keeps the rows; only a failed upload still touches the blobs. */
  datatype Outcome = Outcome(next: Tables, error: Option<Error>)

  function Transaction(t: Tables, r: Result<Tables, Error>): (o: Outcome) {
    match r case Ok(next) => Outcome(next, None) case Err(e) => Outcome(t, Some(e))
  }

  /** The blob is stored first; when the row cannot be created the blob under its key is deleted again. */
  function CreateAttachment(
    t: Tables, user: UserId, id: AttachmentId, key: Key, size: nat, isImage: bool): (o: Outcome)
  {
    if size == 0 || size > SizeLimit(isImage) then Outcome(t, Some(Validation))
    else if id in t.attachments || KeyTaken(t, key) then Outcome(t.(blobs := t.blobs - {key}), Some(Integrity))
    else
      Outcome(
        t.(attachments := t.attachments[id := Attachment(user, key, size, Unbound, None)], blobs := t.blobs + {key}),
        None)
  }

  function DeleteUnboundAttachment(t: Tables, id: AttachmentId, actor: UserId): (r: Result<Tables, Error>) {
    if id !in t.attachments || t.attachments[id].uploader != actor then Err(NotFound)
    else if t.attachments[id].binding != Unbound then Err(Conflict)
    else
      Ok(t.(attachments := t.attachments - {id},
            joins := t.joins - {JoinKey(RoomSide, id), JoinKey(DialogSide, id)},
            blobs := t.blobs - {t.attachments[id].storageKey}))
  }

  function Apply(t: Tables, op: Op): (o: Outcome) {
    match op
    case Post(c, sender, denied, text, replyTo, ids, id) =>
      Transaction(t, CreateMessage(t, c, sender, denied, text, replyTo, ids, id))
    case Edit(c, id, actor, denied, text) => Transaction(t, EditMessage(t, c, id, actor, denied, text))
    case Remove(c, id, actor, denied, isStaff) => Transaction(t, DeleteMessage(t, c, id, actor, denied, isStaff))
    case Upload(user, id, key, size, isImage) => CreateAttachment(t, user, id, key, size, isImage)
    case Discard(id, actor) => Transaction(t, DeleteUnboundAttachment(t, id, actor))
    case RemoveRoom(room) => Outcome(RemoveMessages(t, RoomMessages(t, room)), None)
  }

  const EMPTY := Tables(map[], map[], map[], {}, 0)

  function Run(ops: seq<Op>): (t: Tables) {
    if ops == [] then EMPTY else Apply(Run(ops[..|ops| - 1]), ops[|ops| - 1]).next
  }

  lemma RunSnoc(ops: seq<Op>, op: Op)
    ensures Run(ops + [op]) == Apply(Run(ops), op).next
  {
    assert (ops + [op])[..|ops|] == ops;
  }

  /** A join row joins an existing attachment, bound to that table, to an existing message. */
  ghost predicate JoinsAreSound(t: Tables) {
    forall j | j in t.joins ::
      && j.attachment in t.attachments
      && t.attachments[j.attachment].binding == BindingOf(j.side)
      && MessageKey(j.side, t.joins[j]) in t.messages
  }

  /** A bound attachment has its join row. */
  ghost predicate BindingsAreJoined(t: Tables) {
    && (forall a | a in t.attachments && t.attachments[a].binding == RoomMessage :: JoinKey(RoomSide, a) in t.joins)
    && (forall a | a in t.attachments && t.attachments[a].binding == DialogMessage :: JoinKey(DialogSide, a) in t.joins)
    && (forall a | a in t.attachments :: t.attachments[a].deletedAt == None)
  }

  ghost predicate MessagesShowSomething(t: Tables) {
    forall k | k in t.messages :: HasVisibleText(t.messages[k].text) || HasBinding(t, k)
  }

  /** A reply names an existing, earlier message of the same room or dialog. */
  ghost predicate PointsBack(t: Tables, k: MessageKey)
    requires k in t.messages
  {
    t.messages[k].replyTo.Some? ==>
      var target := MessageKey(k.side, t.messages[k].replyTo.value);
      && target in t.messages
      && t.messages[target].container == t.messages[k].container
      && t.messages[target].serial < t.messages[k].serial
  }

  ghost predicate RepliesPointBack(t: Tables) {
    && (forall k | k in t.messages :: SideOf(t.messages[k].container) == k.side && t.messages[k].serial < t.nextSerial)
    && (forall k | k in t.messages :: PointsBack(t, k))
  }

  ghost predicate Inv(t: Tables) {
    JoinsAreSound(t) && BindingsAreJoined(t) && MessagesShowSomething(t) && RepliesPointBack(t)
  }

  lemma BindKeepsJoins(t: Tables, user: UserId, side: Side, id: MessageId, ids: seq<AttachmentId>)
    requires JoinsAreSound(t) && BindingsAreJoined(t)
    requires MessageKey(side, id) in t.messages && CanLock(t, user, ids)
    ensures JoinsAreSound(Bind(t, side, id, ids)) && BindingsAreJoined(Bind(t, side, id, ids))
  {
  }

  /** New joins take nothing from other messages. */
  lemma BindKeepsOthers(t: Tables, user: UserId, side: Side, id: MessageId, ids: seq<AttachmentId>, k: MessageKey)
    requires JoinsAreSound(t) && CanLock(t, user, ids)
    ensures HasBinding(t, k) ==> HasBinding(Bind(t, side, id, ids), k)
    ensures ids != [] ==> HasBinding(Bind(t, side, id, ids), MessageKey(side, id))
  {
    var next := Bind(t, side, id, ids);
    if HasBinding(t, k) {
      var j :| j in t.joins && j.side == k.side && t.joins[j] == k.id;
      assert t.attachments[j.attachment].binding != Unbound;
      assert j.attachment !in ids;
      assert j in next.joins && next.joins[j] == t.joins[j];
    }
    if ids != [] {
      var j := JoinKey(side, ids[0]);
      assert ids[0] in ids;
      assert j in next.joins && next.joins[j] == id;
    }
  }

  lemma PostKeepsInv(
    t: Tables, c: Container, sender: UserId, denied: Option<Error>, text: Option<string>,
    replyTo: Option<MessageId>, ids: seq<AttachmentId>, id: MessageId)
    requires Inv(t) && CreateMessage(t, c, sender, denied, text, replyTo, ids, id).Ok?
    ensures Inv(CreateMessage(t, c, sender, denied, text, replyTo, ids, id).value)
  {
    var inserted := Insert(t, c, sender, text, replyTo, id);
    InsertKeepsJoins(t, c, sender, text, replyTo, id);
    InsertKeepsReplies(t, c, sender, text, replyTo, id);
    BindKeepsJoins(inserted, sender, SideOf(c), id, ids);
    ContentIsValidIffVisible(text, ids != []);
    BoundMessageShows(t, c, sender, text, replyTo, id, ids);
    BindKeepsReplies(inserted, SideOf(c), id, ids);
  }

  lemma InsertKeepsJoins(
    t: Tables, c: Container, sender: UserId, text: Option<string>, replyTo: Option<MessageId>, id: MessageId)
    requires JoinsAreSound(t) && BindingsAreJoined(t)
    ensures JoinsAreSound(Insert(t, c, sender, text, replyTo, id))
    ensures BindingsAreJoined(Insert(t, c, sender, text, replyTo, id))
  {
  }

  lemma InsertKeepsReplies(
    t: Tables, c: Container, sender: UserId, text: Option<string>, replyTo: Option<MessageId>, id: MessageId)
    requires RepliesPointBack(t)
    requires IsReplyTarget(t, c, replyTo) && MessageKey(SideOf(c), id) !in t.messages
    ensures RepliesPointBack(Insert(t, c, sender, text, replyTo, id))
  {
    var next := Insert(t, c, sender, text, replyTo, id);
    forall k | k in next.messages ensures PointsBack(next, k) {
      if k in t.messages {
        assert PointsBack(t, k);
      }
    }
  }

  lemma BindKeepsReplies(t: Tables, side: Side, id: MessageId, ids: seq<AttachmentId>)
    requires RepliesPointBack(t)
    ensures RepliesPointBack(Bind(t, side, id, ids))
  {
  }

  lemma BoundMessageShows(
    t: Tables, c: Container, sender: UserId, text: Option<string>, replyTo: Option<MessageId>, id: MessageId,
    ids: seq<AttachmentId>)
    requires JoinsAreSound(t) && MessagesShowSomething(t)
    requires MessageKey(SideOf(c), id) !in t.messages && CanLock(t, sender, ids)
    requires HasVisibleText(text) || ids != []
    ensures MessagesShowSomething(Bind(Insert(t, c, sender, text, replyTo, id), SideOf(c), id, ids))
  {
    var inserted := Insert(t, c, sender, text, replyTo, id);
    var next := Bind(inserted, SideOf(c), id, ids);
    forall k | k in next.messages ensures HasVisibleText(next.messages[k].text) || HasBinding(next, k) {
      BindKeepsOthers(inserted, sender, SideOf(c), id, ids, k);
      if k in t.messages && HasBinding(t, k) {
        assert HasBinding(inserted, k);
      }
    }
  }

  /** The same messages and join rows show the same things. */
  lemma SameJoinsShowTheSame(t: Tables, next: Tables)
    requires MessagesShowSomething(t) && next.messages == t.messages && next.joins == t.joins
    ensures MessagesShowSomething(next)
  {
    forall k | k in next.messages ensures HasVisibleText(next.messages[k].text) || HasBinding(next, k) {
      assert HasBinding(t, k) ==> HasBinding(next, k);
    }
  }

  lemma EditKeepsVisible(t: Tables, k: MessageKey, text: Option<string>)
    requires MessagesShowSomething(t) && k in t.messages && ValidateContent(text, HasBinding(t, k)).Ok?
    ensures MessagesShowSomething(t.(messages := t.messages[k := t.messages[k].(text := text, isEdited := true)]))
  {
    ContentIsValidIffVisible(text, HasBinding(t, k));
    var next := t.(messages := t.messages[k := t.messages[k].(text := text, isEdited := true)]);
    forall x | x in next.messages ensures HasVisibleText(next.messages[x].text) || HasBinding(next, x) {
      assert HasBinding(t, x) ==> HasBinding(next, x);
    }
  }

  lemma EditKeepsPointers(t: Tables, k: MessageKey, text: Option<string>)
    requires k in t.messages && JoinsAreSound(t) && BindingsAreJoined(t) && RepliesPointBack(t)
    ensures var next := t.(messages := t.messages[k := t.messages[k].(text := text, isEdited := true)]);
      JoinsAreSound(next) && BindingsAreJoined(next) && RepliesPointBack(next)
  {
    var next := t.(messages := t.messages[k := t.messages[k].(text := text, isEdited := true)]);
    forall x | x in next.messages ensures PointsBack(next, x) {
      assert PointsBack(t, x);
    }
  }

  lemma EditKeepsInv(t: Tables, c: Container, id: MessageId, actor: UserId, denied: Option<Error>, text: Option<string>)
    requires Inv(t) && EditMessage(t, c, id, actor, denied, text).Ok?
    ensures Inv(EditMessage(t, c, id, actor, denied, text).value)
  {
    EditKeepsVisible(t, MessageKey(SideOf(c), id), text);
    EditKeepsPointers(t, MessageKey(SideOf(c), id), text);
  }

  lemma RemoveKeepsJoins(t: Tables, gone: set<MessageKey>)
    requires JoinsAreSound(t) && BindingsAreJoined(t)
    ensures JoinsAreSound(RemoveMessages(t, gone)) && BindingsAreJoined(RemoveMessages(t, gone))
  {
    var next := RemoveMessages(t, gone);
    forall j | j in t.joins && j.attachment in next.attachments ensures j in next.joins {
      assert !IsGone(t, gone, j.attachment);
    }
  }

  lemma RemoveKeepsVisible(t: Tables, gone: set<MessageKey>)
    requires Inv(t)
    ensures MessagesShowSomething(RemoveMessages(t, gone))
  {
    var next := RemoveMessages(t, gone);
    forall k | k in next.messages ensures HasVisibleText(next.messages[k].text) || HasBinding(next, k) {
      if !HasVisibleText(t.messages[k].text) {
        var j :| j in t.joins && j.side == k.side && t.joins[j] == k.id;
        OneJoinEach(t, j);
        assert !IsGone(t, gone, j.attachment);
        assert j in next.joins && next.joins[j] == k.id;
      }
    }
  }

  lemma OneJoinEach(t: Tables, j: JoinKey)
    requires JoinsAreSound(t) && j in t.joins
    ensures forall side | JoinKey(side, j.attachment) in t.joins :: side == j.side
  {
  }

  lemma RemoveKeepsReplies(t: Tables, gone: set<MessageKey>)
    requires RepliesPointBack(t)
    ensures RepliesPointBack(RemoveMessages(t, gone))
  {
  }

  lemma StepKeepsInv(t: Tables, op: Op)
    requires Inv(t)
    ensures Inv(Apply(t, op).next)
  {
    match op
    case Post(c, sender, denied, text, replyTo, ids, id) =>
      if CreateMessage(t, c, sender, denied, text, replyTo, ids, id).Ok? {
        PostKeepsInv(t, c, sender, denied, text, replyTo, ids, id);
      }
    case Edit(c, id, actor, denied, text) =>
      if EditMessage(t, c, id, actor, denied, text).Ok? {
        EditKeepsInv(t, c, id, actor, denied, text);
      }
    case Remove(c, id, actor, denied, isStaff) =>
      if DeleteMessage(t, c, id, actor, denied, isStaff).Ok? {
        RemovalKeepsInv(t, {MessageKey(SideOf(c), id)});
      }
    case Upload(user, id, key, size, isImage) => UploadKeepsInv(t, user, id, key, size, isImage);
    case Discard(id, actor) => DiscardKeepsInv(t, id, actor);
    case RemoveRoom(room) => RemovalKeepsInv(t, RoomMessages(t, room));
  }

  lemma RemovalKeepsInv(t: Tables, gone: set<MessageKey>)
    requires Inv(t)
    ensures Inv(RemoveMessages(t, gone))
  {
    RemoveKeepsJoins(t, gone);
    RemoveKeepsVisible(t, gone);
    RemoveKeepsReplies(t, gone);
  }

  lemma UploadKeepsMessages(t: Tables, user: UserId, id: AttachmentId, key: Key, size: nat, isImage: bool)
    ensures var next := CreateAttachment(t, user, id, key, size, isImage).next;
      next.messages == t.messages && next.joins == t.joins && next.nextSerial == t.nextSerial
  {
  }

  /** An upload leaves the attachments that are there alone, and adds an unbound one at most. */
  lemma UploadAddsUnbound(t: Tables, user: UserId, id: AttachmentId, key: Key, size: nat, isImage: bool)
    ensures var next := CreateAttachment(t, user, id, key, size, isImage).next;
      && (forall a | a in t.attachments :: a in next.attachments && next.attachments[a] == t.attachments[a])
      && (forall a | a in next.attachments && a !in t.attachments ::
            next.attachments[a].binding == Unbound && next.attachments[a].deletedAt == None)
  {
  }

  lemma UploadKeepsJoins(t: Tables, user: UserId, id: AttachmentId, key: Key, size: nat, isImage: bool)
    requires JoinsAreSound(t) && BindingsAreJoined(t)
    ensures var next := CreateAttachment(t, user, id, key, size, isImage).next;
      JoinsAreSound(next) && BindingsAreJoined(next)
  {
    UploadKeepsMessages(t, user, id, key, size, isImage);
    UploadAddsUnbound(t, user, id, key, size, isImage);
    AddingUnboundKeepsJoins(t, CreateAttachment(t, user, id, key, size, isImage).next);
  }

  lemma AddingUnboundKeepsJoins(t: Tables, next: Tables)
    requires JoinsAreSound(t) && BindingsAreJoined(t)
    requires next.messages == t.messages && next.joins == t.joins
    requires forall a | a in t.attachments :: a in next.attachments && next.attachments[a] == t.attachments[a]
    requires forall a | a in next.attachments && a !in t.attachments ::
      next.attachments[a].binding == Unbound && next.attachments[a].deletedAt == None
    ensures JoinsAreSound(next) && BindingsAreJoined(next)
  {
  }

  lemma UploadKeepsInv(t: Tables, user: UserId, id: AttachmentId, key: Key, size: nat, isImage: bool)
    requires Inv(t)
    ensures Inv(CreateAttachment(t, user, id, key, size, isImage).next)
  {
    var next := CreateAttachment(t, user, id, key, size, isImage).next;
    UploadKeepsJoins(t, user, id, key, size, isImage);
    UploadKeepsMessages(t, user, id, key, size, isImage);
    SameJoinsShowTheSame(t, next);
    assert forall k | k in t.messages :: PointsBack(t, k) ==> PointsBack(next, k);
  }

  lemma DiscardKeepsInv(t: Tables, id: AttachmentId, actor: UserId)
    requires Inv(t)
    ensures Inv(Transaction(t, DeleteUnboundAttachment(t, id, actor)).next)
  {
    if DeleteUnboundAttachment(t, id, actor).Ok? {
      var next := DeleteUnboundAttachment(t, id, actor).value;
      assert next.joins == t.joins;
      SameJoinsShowTheSame(t, next);
    }
  }

  lemma {:induction false} RunKeepsInv(ops: seq<Op>)
    ensures Inv(Run(ops))
  {
    if ops != [] {
      RunKeepsInv(ops[..|ops| - 1]);
      StepKeepsInv(Run(ops[..|ops| - 1]), ops[|ops| - 1]);
    }
  }

  /**
   * After any run an attachment is unbound without a join row, or bound with exactly one join row, in the
   * table its binding names, to a message that exists.
   */
  lemma BindingsMatchJoins(ops: seq<Op>, a: AttachmentId)
    requires a in Run(ops).attachments
    ensures var t := Run(ops);
      var room, dialog := JoinKey(RoomSide, a), JoinKey(DialogSide, a);
      match t.attachments[a].binding
      case Unbound => room !in t.joins && dialog !in t.joins
      case RoomMessage => room in t.joins && dialog !in t.joins && MessageKey(RoomSide, t.joins[room]) in t.messages
      case DialogMessage =>
        dialog in t.joins && room !in t.joins && MessageKey(DialogSide, t.joins[dialog]) in t.messages
  {
    RunKeepsInv(ops);
  }

  /** After any run, edits and deletions included, every message shows text or at least one attachment. */
  lemma EveryMessageShowsSomething(ops: seq<Op>, k: MessageKey)
    requires k in Run(ops).messages
    ensures var t := Run(ops);
      || HasVisibleText(t.messages[k].text)
      || exists a :: a in t.attachments && JoinKey(k.side, a) in t.joins && t.joins[JoinKey(k.side, a)] == k.id
  {
    RunKeepsInv(ops);
    var t := Run(ops);
    if !HasVisibleText(t.messages[k].text) {
      var j :| j in t.joins && j.side == k.side && t.joins[j] == k.id;
      assert j == JoinKey(k.side, j.attachment);
    }
  }

  /** The message `steps` replies back from `k`, if the chain is that long. */
  function FollowReplies(t: Tables, k: MessageKey, steps: nat): (r: Option<MessageKey>)
    ensures r.Some? ==> r.value in t.messages
    decreases steps
  {
    if k !in t.messages then None
    else if steps == 0 then Some(k)
    else if t.messages[k].replyTo.None? then None
    else FollowReplies(t, MessageKey(k.side, t.messages[k].replyTo.value), steps - 1)
  }

  lemma {:induction false} RepliesDescend(t: Tables, k: MessageKey, steps: nat)
    requires RepliesPointBack(t) && k in t.messages && FollowReplies(t, k, steps).Some?
    ensures var last := FollowReplies(t, k, steps).value;
      && last in t.messages && last.side == k.side
      && t.messages[last].container == t.messages[k].container
      && t.messages[last].serial + steps <= t.messages[k].serial
    decreases steps
  {
    if steps > 0 {
      RepliesDescend(t, MessageKey(k.side, t.messages[k].replyTo.value), steps - 1);
    }
  }

  /**
   * After any run, following replies stays within the room or dialog, never returns to where it started,
   * and comes to an end.
   */
  lemma ReplyChainsEnd(ops: seq<Op>, k: MessageKey, steps: nat)
    requires k in Run(ops).messages
    ensures var t := Run(ops);
      && (t.messages[k].replyTo.Some? ==> FollowReplies(t, k, 1).Some?)
      && (FollowReplies(t, k, steps).Some? ==>
            t.messages[FollowReplies(t, k, steps).value].container == t.messages[k].container)
      && (steps > 0 ==> FollowReplies(t, k, steps) != Some(k))
      && FollowReplies(t, k, t.messages[k].serial + 1) == None
  {
    RunKeepsInv(ops);
    var t := Run(ops);
    if FollowReplies(t, k, steps).Some? {
      RepliesDescend(t, k, steps);
    }
    if FollowReplies(t, k, t.messages[k].serial + 1).Some? {
      RepliesDescend(t, k, t.messages[k].serial + 1);
    }
    if t.messages[k].replyTo.Some? {
      assert FollowReplies(t, MessageKey(k.side, t.messages[k].replyTo.value), 0).Some?;
    }
  }

  /** A posted message carries exactly the attachments it was posted with, all of them its sender's. */
  lemma PostBindsExactly(
    t: Tables, c: Container, sender: UserId, denied: Option<Error>, text: Option<string>,
    replyTo: Option<MessageId>, ids: seq<AttachmentId>, id: MessageId, a: AttachmentId)
    requires Inv(t) && CreateMessage(t, c, sender, denied, text, replyTo, ids, id).Ok?
    ensures var next := CreateMessage(t, c, sender, denied, text, replyTo, ids, id).value;
      var j := JoinKey(SideOf(c), a);
      && (a in ids <==> j in next.joins && next.joins[j] == id)
      && (a in ids ==> t.attachments[a].uploader == sender && t.attachments[a].binding == Unbound
                       && next.attachments[a].binding == BindingOf(SideOf(c)))
      && next.messages[MessageKey(SideOf(c), id)] == Message(c, sender, text, replyTo, false, t.nextSerial)
  {
    if JoinKey(SideOf(c), a) in t.joins {
      assert MessageKey(SideOf(c), t.joins[JoinKey(SideOf(c), a)]) in t.messages;
    }
    if a in ids {
      assert IsAvailable(t, sender, a);
    }
  }

  /** Attachment and message of a join row are both there or both gone, and while they are there the row is. */
  ghost predicate StaysJoined(t: Tables, next: Tables, j: JoinKey)
    requires j in t.joins
  {
    && (j.attachment in next.attachments <==> MessageKey(j.side, t.joins[j]) in next.messages)
    && (j.attachment in next.attachments ==> j in next.joins && next.joins[j] == t.joins[j])
  }

  lemma UploadKeepsJoin(t: Tables, user: UserId, id: AttachmentId, key: Key, size: nat, isImage: bool, j: JoinKey)
    requires JoinsAreSound(t) && j in t.joins
    ensures StaysJoined(t, CreateAttachment(t, user, id, key, size, isImage).next, j)
  {
  }

  lemma EditKeepsJoin(
    t: Tables, c: Container, id: MessageId, actor: UserId, denied: Option<Error>, text: Option<string>, j: JoinKey)
    requires JoinsAreSound(t) && j in t.joins
    ensures StaysJoined(t, Transaction(t, EditMessage(t, c, id, actor, denied, text)).next, j)
  {
  }

  lemma PostKeepsJoin(
    t: Tables, c: Container, sender: UserId, denied: Option<Error>, text: Option<string>,
    replyTo: Option<MessageId>, ids: seq<AttachmentId>, id: MessageId, j: JoinKey)
    requires JoinsAreSound(t) && j in t.joins
    ensures StaysJoined(t, Transaction(t, CreateMessage(t, c, sender, denied, text, replyTo, ids, id)).next, j)
  {
    if CreateMessage(t, c, sender, denied, text, replyTo, ids, id).Ok? {
      assert t.attachments[j.attachment].binding != Unbound;
      assert forall a | a in ids :: IsAvailable(t, sender, a);
      assert j.attachment !in ids;
    }
  }

  lemma DiscardKeepsJoin(t: Tables, id: AttachmentId, actor: UserId, j: JoinKey)
    requires JoinsAreSound(t) && j in t.joins
    ensures StaysJoined(t, Transaction(t, DeleteUnboundAttachment(t, id, actor)).next, j)
  {
    assert t.attachments[j.attachment].binding != Unbound;
  }

  lemma RemovalTakesWhole(t: Tables, gone: set<MessageKey>, j: JoinKey)
    requires JoinsAreSound(t) && j in t.joins
    ensures StaysJoined(t, RemoveMessages(t, gone), j)
  {
    JoinedToGone(t, gone, j.attachment);
    OneJoinEach(t, j);
  }

  /** Once bound, an attachment stays with its message for as long as both exist. */
  lemma BindingIsForGood(t: Tables, op: Op, j: JoinKey)
    requires Inv(t) && j in t.joins
    ensures StaysJoined(t, Apply(t, op).next, j)
  {
    match op
    case Post(c, sender, denied, text, replyTo, ids, id) =>
      PostKeepsJoin(t, c, sender, denied, text, replyTo, ids, id, j);
    case Edit(c, id, actor, denied, text) => EditKeepsJoin(t, c, id, actor, denied, text, j);
    case Remove(c, id, actor, denied, isStaff) =>
      if DeleteMessage(t, c, id, actor, denied, isStaff).Ok? {
        RemovalTakesWhole(t, {MessageKey(SideOf(c), id)}, j);
      }
    case Upload(user, id, key, size, isImage) => UploadKeepsJoin(t, user, id, key, size, isImage, j);
    case Discard(id, actor) => DiscardKeepsJoin(t, id, actor, j);
    case RemoveRoom(room) => RemovalTakesWhole(t, RoomMessages(t, room), j);
  }

  /** What a call may do to a message that is there before and after it. */
  ghost predicate ChangesAsAllowed(op: Op, k: MessageKey, before: Message, after: Message) {
    && after.sender == before.sender && after.container == before.container && after.serial == before.serial
    && (after.replyTo == before.replyTo || after.replyTo == None)
    && (after.text != before.text ==>
          op.Edit? && op.id == k.id && op.actor == before.sender && op.text == after.text && after.isEdited)
  }

  lemma PostTouchesNoOther(
    t: Tables, c: Container, sender: UserId, denied: Option<Error>, text: Option<string>,
    replyTo: Option<MessageId>, ids: seq<AttachmentId>, id: MessageId, k: MessageKey)
    requires k in t.messages
    ensures var next := Transaction(t, CreateMessage(t, c, sender, denied, text, replyTo, ids, id)).next;
      k in next.messages && next.messages[k] == t.messages[k]
  {
  }

  /** The words of a message change only by an edit of its author; its author, place and order never do. */
  lemma OnlyAuthorsEdit(t: Tables, op: Op, k: MessageKey)
    requires Inv(t) && k in t.messages && k in Apply(t, op).next.messages
    ensures ChangesAsAllowed(op, k, t.messages[k], Apply(t, op).next.messages[k])
  {
    match op
    case Post(c, sender, denied, text, replyTo, ids, id) =>
      PostTouchesNoOther(t, c, sender, denied, text, replyTo, ids, id, k);
    case Upload(user, id, key, size, isImage) => UploadKeepsMessages(t, user, id, key, size, isImage);
    case _ =>
  }

  /** A message that was not there before was posted. */
  lemma NewMessagesArePosted(t: Tables, op: Op, k: MessageKey)
    requires k !in t.messages && k in Apply(t, op).next.messages
    ensures op.Post? && op.denied == None && MessageKey(SideOf(op.c), op.id) == k
    ensures Apply(t, op).next.messages[k] == Message(op.c, op.sender, op.text, op.replyTo, false, t.nextSerial)
  {
  }

  /** The call succeeds in posting or editing the message `k`. */
  predicate Writes(t: Tables, op: Op, k: MessageKey) {
    && (op.Post? || op.Edit?) && MessageKey(SideOf(op.c), op.id) == k
    && Apply(t, op).error == None
  }

  function Writer(op: Op): (user: UserId)
    requires op.Post? || op.Edit?
  {
    if op.Post? then op.sender else op.actor
  }

  lemma WritingShows(t: Tables, op: Op, k: MessageKey)
    requires Writes(t, op, k)
    ensures var next := Apply(t, op).next;
      k in next.messages && next.messages[k].text == op.text && next.messages[k].sender == Writer(op)
  {
  }

  lemma OthersWriteNothing(t: Tables, op: Op, k: MessageKey)
    requires Inv(t) && !Writes(t, op, k) && k in Apply(t, op).next.messages
    ensures k in t.messages
    ensures Apply(t, op).next.messages[k].text == t.messages[k].text
    ensures Apply(t, op).next.messages[k].sender == t.messages[k].sender
  {
    if k in t.messages {
      OnlyAuthorsEdit(t, op, k);
      EditsThatChangeSucceed(t, op, k);
    } else {
      NewMessagesArePosted(t, op, k);
      assert Writes(t, op, k);
    }
  }

  lemma EditsThatChangeSucceed(t: Tables, op: Op, k: MessageKey)
    requires RepliesPointBack(t) && k in t.messages && k in Apply(t, op).next.messages
    ensures Apply(t, op).next.messages[k].text != t.messages[k].text ==> Writes(t, op, k)
  {
  }

  ghost predicate WritesAt(ops: seq<Op>, i: nat, k: MessageKey)
    requires i < |ops|
  {
    Writes(Run(ops[..i]), ops[i], k)
  }

  /** At step `i` the message was last written, with these words, by its author. */
  ghost predicate LastWrittenAt(ops: seq<Op>, i: nat, k: MessageKey, text: Option<string>, author: UserId)
    requires i < |ops|
  {
    && WritesAt(ops, i, k) && ops[i].text == text && Writer(ops[i]) == author
    && forall j | i < j < |ops| :: !WritesAt(ops, j, k)
  }

  lemma LastWrittenBefore(ops: seq<Op>, op: Op, i: nat, k: MessageKey, text: Option<string>, author: UserId)
    requires i < |ops| && LastWrittenAt(ops, i, k, text, author) && !Writes(Run(ops), op, k)
    ensures LastWrittenAt(ops + [op], i, k, text, author)
  {
    var longer := ops + [op];
    forall j | i <= j < |ops| ensures WritesAt(longer, j, k) == WritesAt(ops, j, k) {
      assert longer[..j] == ops[..j];
    }
    assert longer[..|ops|] == ops;
    assert !WritesAt(longer, |ops|, k);
  }

  /** After any run the words of a message are those of the last successful post or edit of it, made by its author. */
  lemma {:induction false} WordsAreLastWritten(ops: seq<Op>, k: MessageKey)
    requires k in Run(ops).messages
    ensures var m := Run(ops).messages[k];
      exists i :: 0 <= i < |ops| && LastWrittenAt(ops, i, k, m.text, m.sender)
    decreases |ops|
  {
    var n := |ops| - 1;
    var before, last := ops[..n], ops[n];
    var t, m := Run(before), Run(ops).messages[k];
    assert ops == before + [last];
    if Writes(t, last, k) {
      WritingShows(t, last, k);
      assert LastWrittenAt(ops, n, k, m.text, m.sender);
    } else {
      RunKeepsInv(before);
      OthersWriteNothing(t, last, k);
      WordsAreLastWritten(before, k);
      var i :| 0 <= i < n && LastWrittenAt(before, i, k, m.text, m.sender);
      LastWrittenBefore(before, last, i, k, m.text, m.sender);
    }
  }

  ghost predicate UniqueStorageKeys(t: Tables) {
    forall a, b | a in t.attachments && b in t.attachments && a != b ::
      t.attachments[a].storageKey != t.attachments[b].storageKey
  }

  /** The stored blobs are exactly those of the attachment rows. */
  ghost predicate BlobsMatchRows(t: Tables) {
    && UniqueStorageKeys(t)
    && t.blobs == set a | a in t.attachments :: t.attachments[a].storageKey
  }

  /** An upload that draws a storage key some row already has. */
  predicate Collides(t: Tables, op: Op) {
    op.Upload? && KeyTaken(t, op.key) && 0 < op.size <= SizeLimit(op.isImage)
  }

  lemma RemovalKeepsBlobs(t: Tables, gone: set<MessageKey>)
    requires BlobsMatchRows(t)
    ensures BlobsMatchRows(RemoveMessages(t, gone))
  {
    var next := RemoveMessages(t, gone);
    forall key ensures key in next.blobs <==> key in set a | a in next.attachments :: next.attachments[a].storageKey {
      if key in next.blobs {
        var a :| a in t.attachments && t.attachments[a].storageKey == key;
        assert !IsGone(t, gone, a);
        assert a in next.attachments;
      }
    }
  }

  lemma BindKeepsBlobs(t: Tables, side: Side, id: MessageId, ids: seq<AttachmentId>)
    requires BlobsMatchRows(t)
    ensures BlobsMatchRows(Bind(t, side, id, ids))
  {
    var next := Bind(t, side, id, ids);
    assert forall a | a in t.attachments :: next.attachments[a].storageKey == t.attachments[a].storageKey;
    forall key ensures key in next.blobs <==> key in set a | a in next.attachments :: next.attachments[a].storageKey {
      if key in next.blobs {
        var a :| a in t.attachments && t.attachments[a].storageKey == key;
        assert a in next.attachments;
      }
    }
  }

  /** A step keeps blobs and rows together exactly when it is not a colliding upload. */
  lemma BlobsSurviveIffNoCollision(t: Tables, op: Op)
    requires Inv(t) && BlobsMatchRows(t)
    ensures BlobsMatchRows(Apply(t, op).next) <==> !Collides(t, op)
  {
    match op
    case Post(c, sender, denied, text, replyTo, ids, id) =>
      if CreateMessage(t, c, sender, denied, text, replyTo, ids, id).Ok? {
        BindKeepsBlobs(Insert(t, c, sender, text, replyTo, id), SideOf(c), id, ids);
      }
    case Edit(_, _, _, _, _) =>
    case Remove(c, id, _, _, _) => RemovalKeepsBlobs(t, {MessageKey(SideOf(c), id)});
    case Upload(user, id, key, size, isImage) => UploadBlobs(t, user, id, key, size, isImage);
    case Discard(id, actor) => DiscardKeepsBlobs(t, id, actor);
    case RemoveRoom(room) => RemovalKeepsBlobs(t, RoomMessages(t, room));
  }

  lemma UploadBlobs(t: Tables, user: UserId, id: AttachmentId, key: Key, size: nat, isImage: bool)
    requires BlobsMatchRows(t)
    ensures BlobsMatchRows(CreateAttachment(t, user, id, key, size, isImage).next) <==>
      !Collides(t, Upload(user, id, key, size, isImage))
  {
    var next := CreateAttachment(t, user, id, key, size, isImage).next;
    if KeyTaken(t, key) {
      var a :| a in t.attachments && t.attachments[a].storageKey == key;
      assert key in set b | b in t.attachments :: t.attachments[b].storageKey;
    } else {
      assert key !in t.blobs;
      if next.attachments != t.attachments {
        forall k
          ensures k in t.blobs + {key} <==> k in set a | a in next.attachments :: next.attachments[a].storageKey
        {
          if k in t.blobs {
            var a :| a in t.attachments && t.attachments[a].storageKey == k;
            assert a in next.attachments && next.attachments[a].storageKey == k;
          }
          assert id in next.attachments && next.attachments[id].storageKey == key;
        }
      }
    }
  }

  lemma DiscardKeepsBlobs(t: Tables, id: AttachmentId, actor: UserId)
    requires BlobsMatchRows(t)
    ensures BlobsMatchRows(Transaction(t, DeleteUnboundAttachment(t, id, actor)).next)
  {
    if DeleteUnboundAttachment(t, id, actor).Ok? {
      var next := DeleteUnboundAttachment(t, id, actor).value;
      forall key ensures key in next.blobs <==> key in set a | a in next.attachments :: next.attachments[a].storageKey {
        if key in next.blobs {
          var a :| a in t.attachments && t.attachments[a].storageKey == key;
          assert a in next.attachments;
        }
      }
    }
  }

  /** Over any run whose uploads draw fresh keys, the stored blobs are exactly those of the rows. */
  lemma {:induction false} BlobsAreThoseOfRows(ops: seq<Op>)
    requires forall i | 0 <= i < |ops| :: !Collides(Run(ops[..i]), ops[i])
    ensures BlobsMatchRows(Run(ops))
  {
    if ops != [] {
      var shorter := ops[..|ops| - 1];
      assert forall i | 0 <= i < |shorter| :: shorter[..i] == ops[..i];
      BlobsAreThoseOfRows(shorter);
      RunKeepsInv(shorter);
      BlobsSurviveIffNoCollision(Run(shorter), ops[|ops| - 1]);
    }
  }
}
