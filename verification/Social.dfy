/**
 * Friend requests, friendships, peer bans and the cached `is_frozen` flag of dialogs, as tables. Every
 * service call is one transaction: it yields the new tables, or an error and the tables it started from.
 */
module SocialTables {
  import opened Wrappers
  import opened UserPair

  type Time = int
  type Pair = (UserId, UserId)
  type RequestId = nat

  datatype Status = Pending | Accepted | Rejected

  datatype Request = Request(
    from: UserId, to: UserId, message: Option<string>, status: Status, respondedAt: Option<Time>)

  datatype Dialog = Dialog(isFrozen: bool, frozenReason: Option<string>)

  datatype PeerEvent = PeerBanCreated(source: UserId, target: UserId) | PeerBanRemoved(source: UserId, target: UserId)

  datatype Error = NotFound | Validation | Forbidden | Conflict

  /** `bans` keeps one row per ordered pair; its value is `removed_at`. */
  datatype Tables = Tables(
    users: set<UserId>,
    requests: map<RequestId, Request>,
    friendships: set<Pair>,
    bans: map<Pair, Option<Time>>,
    dialogs: map<Pair, Dialog>,
    events: seq<PeerEvent>)

  /** The one key of an unordered pair. */
  function PairOf(a: UserId, b: UserId): (p: Pair)
    requires a != b
    ensures p == if a < b then (a, b) else (b, a)
  {
    CanonicalPairIsOneKey(a, b, a, b);
    CanonicalUserPair(a, b).value
  }

  predicate Bans(t: Tables, source: UserId, target: UserId) {
    (source, target) in t.bans && t.bans[(source, target)] == None
  }

  predicate HasPeerBan(t: Tables, a: UserId, b: UserId) {
    Bans(t, a, b) || Bans(t, b, a)
  }

  predicate AreFriends(t: Tables, a: UserId, b: UserId)
    requires a != b
  {
    PairOf(a, b) in t.friendships
  }

  predicate IsPending(t: Tables, id: RequestId) {
    id in t.requests && t.requests[id].status == Pending
  }

  predicate HasPendingRequest(t: Tables, from: UserId, to: UserId) {
    exists id | id in t.requests ::
      t.requests[id].from == from && t.requests[id].to == to && t.requests[id].status == Pending
  }

  predicate IsParticipant(t: Tables, dialog: Pair, user: UserId) {
    dialog in t.dialogs && (dialog.0 == user || dialog.1 == user)
  }

  function ExistingDialog(t: Tables, p: Pair): (r: Option<Pair>) {
    if p in t.dialogs then Some(p) else None
  }

  const FRIENDSHIP_REQUIRED := "friendship_required"
  const PEER_BAN := "peer_ban"

  function FreezeDialog(t: Tables, a: UserId, b: UserId, reason: string): (r: Tables)
    requires a != b
  {
    var p := PairOf(a, b);
    if p in t.dialogs then t.(dialogs := t.dialogs[p := Dialog(true, Some(reason))]) else t
  }

  function RefreshDialog(t: Tables, a: UserId, b: UserId): (r: Tables)
    requires a != b
  {
    var p := PairOf(a, b);
    var isFriends, hasBan := AreFriends(t, a, b), HasPeerBan(t, a, b);
    if p in t.dialogs then
      var reason := if isFriends && !hasBan then None else Some(FRIENDSHIP_REQUIRED);
      t.(dialogs := t.dialogs[p := Dialog(!isFriends || hasBan, reason)])
    else t
  }

  function CreateFriendRequest(
    t: Tables, from: UserId, to: UserId, message: Option<string>, id: RequestId): (r: Result<Tables, Error>)
  {
    if to !in t.users then Err(NotFound)
    else if to == from then Err(Validation)
    else if HasPeerBan(t, from, to) then Err(Forbidden)
    else if AreFriends(t, from, to) then Err(Conflict)
    else if HasPendingRequest(t, from, to) || HasPendingRequest(t, to, from) || id in t.requests then Err(Conflict)
    else Ok(t.(requests := t.requests[id := Request(from, to, message, Pending, None)]))
  }

  function AcceptFriendRequest(t: Tables, id: RequestId, actor: UserId, now: Time): (r: Result<Tables, Error>) {
    if id !in t.requests || t.requests[id].to != actor then Err(NotFound)
    else if t.requests[id].status != Pending then Err(Conflict)
    else
      var request := t.requests[id];
      if request.from == request.to then Err(Validation)
      else
        var befriended := t.(
          friendships := t.friendships + {PairOf(request.from, request.to)},
          requests := t.requests[id := request.(status := Accepted, respondedAt := Some(now))]);
        Ok(RefreshDialog(befriended, request.from, request.to))
  }

  function RejectFriendRequest(t: Tables, id: RequestId, actor: UserId, now: Time): (r: Result<Tables, Error>) {
    if id !in t.requests || t.requests[id].to != actor then Err(NotFound)
    else if t.requests[id].status != Pending then Err(Conflict)
    else Ok(t.(requests := t.requests[id := t.requests[id].(status := Rejected, respondedAt := Some(now))]))
  }

  function RemoveFriend(t: Tables, actor: UserId, other: UserId): (r: Result<Tables, Error>) {
    if other !in t.users then Err(NotFound)
    else if actor == other then Err(Validation)
    else if !AreFriends(t, actor, other) then Err(NotFound)
    else Ok(FreezeDialog(t.(friendships := t.friendships - {PairOf(actor, other)}), actor, other, FRIENDSHIP_REQUIRED))
  }

  function CreatePeerBan(t: Tables, actor: UserId, target: UserId): (r: Result<Tables, Error>) {
    if target !in t.users then Err(NotFound)
    else if target == actor then Err(Validation)
    else if Bans(t, actor, target) then Err(Conflict)
    else
      var banned := t.(
        friendships := t.friendships - {PairOf(actor, target)},
        bans := t.bans[(actor, target) := None]);
      var frozen := FreezeDialog(banned, actor, target, PEER_BAN);
      Ok(frozen.(events := frozen.events + [PeerBanCreated(actor, target)]))
  }

  function RemovePeerBan(t: Tables, actor: UserId, target: UserId, now: Time): (r: Result<Tables, Error>) {
    if !Bans(t, actor, target) then Err(NotFound)
    else if actor == target then Err(Validation)
    else
      var lifted := t.(
        bans := t.bans[(actor, target) := Some(now)], events := t.events + [PeerBanRemoved(actor, target)]);
      Ok(RefreshDialog(lifted, actor, target))
  }

  function GetOrCreateDialog(t: Tables, current: UserId, other: UserId): (r: Result<Tables, Error>) {
    if HasPeerBan(t, current, other) then Err(Forbidden)
    else if current == other || !AreFriends(t, current, other) then Err(Forbidden)
    else
      var p := PairOf(current, other);
      Ok(if p in t.dialogs then t else t.(dialogs := t.dialogs[p := Dialog(false, None)]))
  }

  /** What `create_dialog_message` asks of the tables before it looks at the message. */
  function SendGuard(t: Tables, dialog: Pair, sender: UserId): (r: Result<(), Error>)
    requires dialog in t.dialogs && dialog.0 != dialog.1
  {
    if dialog.0 != sender && dialog.1 != sender then Err(NotFound)
    else if t.dialogs[dialog].isFrozen then Err(Forbidden)
    else
      var other := if dialog.0 == sender then dialog.1 else dialog.0;
      if !AreFriends(t, sender, other) || HasPeerBan(t, sender, other) then Err(Forbidden)
      else Ok(())
  }

  datatype Op =
    | RequestFriend(from: UserId, to: UserId, message: Option<string>, id: RequestId)
    | Accept(id: RequestId, actor: UserId, now: Time)
    | Reject(id: RequestId, actor: UserId, now: Time)
    | Unfriend(actor: UserId, other: UserId)
    | Ban(actor: UserId, target: UserId)
    | Unban(actor: UserId, target: UserId, now: Time)
    | OpenDialog(current: UserId, other: UserId)

  function Apply(t: Tables, op: Op): (r: Result<Tables, Error>) {
    match op
    case RequestFriend(from, to, message, id) => CreateFriendRequest(t, from, to, message, id)
    case Accept(id, actor, now) => AcceptFriendRequest(t, id, actor, now)
    case Reject(id, actor, now) => RejectFriendRequest(t, id, actor, now)
    case Unfriend(actor, other) => RemoveFriend(t, actor, other)
    case Ban(actor, target) => CreatePeerBan(t, actor, target)
    case Unban(actor, target, now) => RemovePeerBan(t, actor, target, now)
    case OpenDialog(current, other) => GetOrCreateDialog(t, current, other)
  }

  function Step(t: Tables, op: Op): (r: Tables) {
    match Apply(t, op) case Ok(next) => next case Err(_) => t
  }

  function Start(users: set<UserId>): (t: Tables) {
    Tables(users, map[], {}, map[], map[], [])
  }

  function Run(users: set<UserId>, ops: seq<Op>): (t: Tables) {
    if ops == [] then Start(users) else Step(Run(users, ops[..|ops| - 1]), ops[|ops| - 1])
  }

  /** Friends, and neither bans the other. */
  predicate MayTalk(t: Tables, p: Pair) {
    p in t.friendships && !HasPeerBan(t, p.0, p.1)
  }

  ghost predicate CanonicalKeys(t: Tables) {
    && (forall p | p in t.friendships :: p.0 < p.1)
    && (forall p | p in t.dialogs :: p.0 < p.1)
    && (forall p | p in t.bans :: p.0 != p.1)
    && (forall id | id in t.requests :: t.requests[id].from != t.requests[id].to)
  }

  /** The cached flag is the predicate it caches, and a reason is given exactly when it is set. */
  ghost predicate FlagsAreRight(t: Tables) {
    forall p | p in t.dialogs ::
      && (t.dialogs[p].isFrozen <==> !MayTalk(t, p))
      && (t.dialogs[p].frozenReason == None <==> !t.dialogs[p].isFrozen)
  }

  /** At most one pending request per unordered pair, and none between friends. */
  ghost predicate PendingAreExclusive(t: Tables) {
    && (forall i, j | IsPending(t, i) && IsPending(t, j) && i != j ::
          !SamePair(t.requests[i], t.requests[j]))
    && (forall i | IsPending(t, i) ::
          && (t.requests[i].from, t.requests[i].to) !in t.friendships
          && (t.requests[i].to, t.requests[i].from) !in t.friendships)
  }

  predicate SamePair(a: Request, b: Request) {
    (a.from == b.from && a.to == b.to) || (a.from == b.to && a.to == b.from)
  }

  /** Walks the events of one ordered pair: `None` if they do not alternate, else whether a ban is in force. */
  function ReplayBan(events: seq<PeerEvent>, source: UserId, target: UserId): (r: Option<bool>) {
    if events == [] then Some(false)
    else
      var before := ReplayBan(events[..|events| - 1], source, target);
      match events[|events| - 1]
      case PeerBanCreated(s, u) =>
        if (s, u) != (source, target) then before else if before == Some(false) then Some(true) else None
      case PeerBanRemoved(s, u) =>
        if (s, u) != (source, target) then before else if before == Some(true) then Some(false) else None
  }

  ghost predicate LogRebuildsBans(t: Tables) {
    forall s: UserId, u: UserId :: ReplayBan(t.events, s, u) == Some(Bans(t, s, u))
  }

  ghost predicate Inv(t: Tables) {
    CanonicalKeys(t) && FlagsAreRight(t) && PendingAreExclusive(t) && LogRebuildsBans(t)
  }

  /** The ban of `target` by `source` is now as given; no other ban changed. */
  ghost predicate BansChangeAt(t: Tables, next: Tables, source: UserId, target: UserId, inForce: bool) {
    forall s: UserId, u: UserId :: Bans(next, s, u) == (if s == source && u == target then inForce else Bans(t, s, u))
  }

  lemma FlagsStep(t: Tables, next: Tables, a: UserId, b: UserId, inForce: bool)
    requires a != b && CanonicalKeys(t) && FlagsAreRight(t)
    requires next.dialogs.Keys == t.dialogs.Keys
    requires forall q | q in t.dialogs && q != PairOf(a, b) :: next.dialogs[q] == t.dialogs[q]
    requires forall q: Pair | q != PairOf(a, b) :: q in next.friendships <==> q in t.friendships
    requires BansChangeAt(t, next, a, b, inForce)
    requires var p := PairOf(a, b); p in next.dialogs ==>
      && (next.dialogs[p].isFrozen <==> !MayTalk(next, p))
      && (next.dialogs[p].frozenReason == None <==> !next.dialogs[p].isFrozen)
    ensures FlagsAreRight(next)
  {
    forall q | q in next.dialogs && q != PairOf(a, b) ensures MayTalk(next, q) <==> MayTalk(t, q) {
      assert q.0 < q.1 && !(q.0 == a && q.1 == b) && !(q.0 == b && q.1 == a);
    }
  }

  lemma LogStep(t: Tables, next: Tables, e: PeerEvent)
    requires LogRebuildsBans(t) && next.events == t.events + [e]
    requires BansChangeAt(t, next, e.source, e.target, e.PeerBanCreated?)
    requires Bans(t, e.source, e.target) != e.PeerBanCreated?
    ensures LogRebuildsBans(next)
  {
    assert next.events[..|next.events| - 1] == t.events;
  }

  lemma RequestKeepsInv(t: Tables, from: UserId, to: UserId, message: Option<string>, id: RequestId)
    requires Inv(t) && CreateFriendRequest(t, from, to, message, id).Ok?
    ensures Inv(CreateFriendRequest(t, from, to, message, id).value)
  {
    var next := CreateFriendRequest(t, from, to, message, id).value;
    assert forall i | i != id :: IsPending(next, i) <==> IsPending(t, i);
  }

  lemma AcceptKeepsKeys(t: Tables, id: RequestId, actor: UserId, now: Time)
    requires CanonicalKeys(t) && AcceptFriendRequest(t, id, actor, now).Ok?
    ensures CanonicalKeys(AcceptFriendRequest(t, id, actor, now).value)
  {
  }

  lemma AcceptKeepsPending(t: Tables, id: RequestId, actor: UserId, now: Time)
    requires PendingAreExclusive(t) && AcceptFriendRequest(t, id, actor, now).Ok?
    ensures PendingAreExclusive(AcceptFriendRequest(t, id, actor, now).value)
  {
    var next := AcceptFriendRequest(t, id, actor, now).value;
    assert forall i :: IsPending(next, i) <==> IsPending(t, i) && i != id;
  }

  lemma AcceptKeepsFlags(t: Tables, id: RequestId, actor: UserId, now: Time)
    requires CanonicalKeys(t) && FlagsAreRight(t) && AcceptFriendRequest(t, id, actor, now).Ok?
    ensures FlagsAreRight(AcceptFriendRequest(t, id, actor, now).value)
  {
    var next, from := AcceptFriendRequest(t, id, actor, now).value, t.requests[id].from;
    assert BansChangeAt(t, next, from, actor, Bans(t, from, actor));
    FlagsStep(t, next, from, actor, Bans(t, from, actor));
  }

  lemma AcceptKeepsInv(t: Tables, id: RequestId, actor: UserId, now: Time)
    requires Inv(t) && AcceptFriendRequest(t, id, actor, now).Ok?
    ensures Inv(AcceptFriendRequest(t, id, actor, now).value)
  {
    AcceptKeepsKeys(t, id, actor, now);
    AcceptKeepsPending(t, id, actor, now);
    AcceptKeepsFlags(t, id, actor, now);
    SameBansSameLog(t, AcceptFriendRequest(t, id, actor, now).value);
  }

  lemma SameBansSameLog(t: Tables, next: Tables)
    requires LogRebuildsBans(t) && next.bans == t.bans && next.events == t.events
    ensures LogRebuildsBans(next)
  {
    assert forall s: UserId, u: UserId :: Bans(next, s, u) == Bans(t, s, u);
  }

  lemma RejectKeepsInv(t: Tables, id: RequestId, actor: UserId, now: Time)
    requires Inv(t) && RejectFriendRequest(t, id, actor, now).Ok?
    ensures Inv(RejectFriendRequest(t, id, actor, now).value)
  {
    var next := RejectFriendRequest(t, id, actor, now).value;
    assert forall i :: IsPending(next, i) <==> IsPending(t, i) && i != id;
  }

  lemma UnfriendKeepsInv(t: Tables, actor: UserId, other: UserId)
    requires Inv(t) && RemoveFriend(t, actor, other).Ok?
    ensures Inv(RemoveFriend(t, actor, other).value)
  {
    var next := RemoveFriend(t, actor, other).value;
    assert forall i :: IsPending(next, i) <==> IsPending(t, i);
    assert forall s: UserId, u: UserId :: Bans(next, s, u) == Bans(t, s, u);
  }

  lemma BanKeepsInv(t: Tables, actor: UserId, target: UserId)
    requires Inv(t) && CreatePeerBan(t, actor, target).Ok?
    ensures Inv(CreatePeerBan(t, actor, target).value)
  {
    var next := CreatePeerBan(t, actor, target).value;
    assert forall i :: IsPending(next, i) <==> IsPending(t, i);
    assert BansChangeAt(t, next, actor, target, true);
    FlagsStep(t, next, actor, target, true);
    LogStep(t, next, PeerBanCreated(actor, target));
  }

  lemma UnbanKeepsInv(t: Tables, actor: UserId, target: UserId, now: Time)
    requires Inv(t) && RemovePeerBan(t, actor, target, now).Ok?
    ensures Inv(RemovePeerBan(t, actor, target, now).value)
  {
    var next := RemovePeerBan(t, actor, target, now).value;
    assert forall i :: IsPending(next, i) <==> IsPending(t, i);
    assert BansChangeAt(t, next, actor, target, false);
    FlagsStep(t, next, actor, target, false);
    LogStep(t, next, PeerBanRemoved(actor, target));
  }

  lemma OpenKeepsInv(t: Tables, current: UserId, other: UserId)
    requires Inv(t) && GetOrCreateDialog(t, current, other).Ok?
    ensures Inv(GetOrCreateDialog(t, current, other).value)
  {
    var next := GetOrCreateDialog(t, current, other).value;
    assert forall i :: IsPending(next, i) <==> IsPending(t, i);
    assert forall s: UserId, u: UserId :: Bans(next, s, u) == Bans(t, s, u);
  }

  lemma StepKeepsInv(t: Tables, op: Op)
    requires Inv(t)
    ensures Inv(Step(t, op))
  {
    if Apply(t, op).Ok? {
      match op
      case RequestFriend(from, to, message, id) => RequestKeepsInv(t, from, to, message, id);
      case Accept(id, actor, now) => AcceptKeepsInv(t, id, actor, now);
      case Reject(id, actor, now) => RejectKeepsInv(t, id, actor, now);
      case Unfriend(actor, other) => UnfriendKeepsInv(t, actor, other);
      case Ban(actor, target) => BanKeepsInv(t, actor, target);
      case Unban(actor, target, now) => UnbanKeepsInv(t, actor, target, now);
      case OpenDialog(current, other) => OpenKeepsInv(t, current, other);
    }
  }

  lemma {:induction false} RunKeepsInv(users: set<UserId>, ops: seq<Op>)
    ensures Inv(Run(users, ops))
  {
    if ops != [] {
      RunKeepsInv(users, ops[..|ops| - 1]);
      StepKeepsInv(Run(users, ops[..|ops| - 1]), ops[|ops| - 1]);
    }
  }

  /** After any run, a dialog is frozen exactly when the two are not friends or one bans the other. */
  lemma FrozenIffMayNotTalk(users: set<UserId>, ops: seq<Op>, p: Pair)
    requires p in Run(users, ops).dialogs
    ensures var t := Run(users, ops);
      && (t.dialogs[p].isFrozen <==> p !in t.friendships || HasPeerBan(t, p.0, p.1))
      && (t.dialogs[p].frozenReason == None <==> !t.dialogs[p].isFrozen)
  {
    RunKeepsInv(users, ops);
  }

  /**
   * After any run, either check of message sending decides alone: a participant may send exactly when
   * the flag is clear, and exactly when the pair are friends without a ban.
   */
  lemma EitherSendCheckSuffices(users: set<UserId>, ops: seq<Op>, p: Pair, sender: UserId)
    requires p in Run(users, ops).dialogs
    ensures p.0 != p.1
    ensures var t := Run(users, ops);
      && (SendGuard(t, p, sender).Ok? <==> sender in {p.0, p.1} && !t.dialogs[p].isFrozen)
      && (SendGuard(t, p, sender).Ok? <==> sender in {p.0, p.1} && p in t.friendships && !HasPeerBan(t, p.0, p.1))
  {
    RunKeepsInv(users, ops);
  }

  /** An accept that passes its checks creates the friendship: it was not there before. */
  lemma AcceptAlwaysCreates(users: set<UserId>, ops: seq<Op>, id: RequestId, actor: UserId, now: Time)
    requires AcceptFriendRequest(Run(users, ops), id, actor, now).Ok?
    ensures var t := Run(users, ops);
      && t.requests[id].from != actor
      && var p := PairOf(t.requests[id].from, actor);
      && p !in t.friendships
      && AcceptFriendRequest(t, id, actor, now).value.friendships == t.friendships + {p}
  {
    RunKeepsInv(users, ops);
  }

  /** At most one pending request joins two users, in whichever direction, and none once they are friends. */
  lemma OnePendingRequestPerPair(users: set<UserId>, ops: seq<Op>, i: RequestId, j: RequestId)
    requires IsPending(Run(users, ops), i) && IsPending(Run(users, ops), j)
    ensures var t := Run(users, ops);
      && t.requests[i].from != t.requests[i].to
      && (SamePair(t.requests[i], t.requests[j]) ==> i == j)
      && !AreFriends(t, t.requests[i].from, t.requests[i].to)
  {
    RunKeepsInv(users, ops);
  }

  /** The audit log alone tells which bans are in force, and its entries for a pair alternate. */
  lemma AuditLogRebuildsPeerBans(users: set<UserId>, ops: seq<Op>, source: UserId, target: UserId)
    ensures ReplayBan(Run(users, ops).events, source, target) == Some(Bans(Run(users, ops), source, target))
  {
    RunKeepsInv(users, ops);
  }

  /** Friends need not be free of bans: a request that is pending when the ban is made can still be accepted. */
  lemma FriendsMayBeBanned()
    ensures var t := Run({1, 2}, [RequestFriend(1, 2, None, 7), Ban(1, 2), Accept(7, 2, 0)]);
      AreFriends(t, 1, 2) && HasPeerBan(t, 1, 2)
  {
    var asked, banned, accepted := RequestFriend(1, 2, None, 7), Ban(1, 2), Accept(7, 2, 0);
    RunSnoc({1, 2}, [], asked);
    RunSnoc({1, 2}, [asked], banned);
    RunSnoc({1, 2}, [asked, banned], accepted);
    assert [] + [asked] == [asked] && [asked] + [banned] == [asked, banned];
    assert [asked, banned] + [accepted] == [asked, banned, accepted];
    CrossingAccept(Start({1, 2}), asked, banned, accepted);
  }

  lemma CrossingAccept(t: Tables, asked: Op, banned: Op, accepted: Op)
    requires t == Start({1, 2})
    requires asked == RequestFriend(1, 2, None, 7) && banned == Ban(1, 2) && accepted == Accept(7, 2, 0)
    ensures var last := Step(Step(Step(t, asked), banned), accepted);
      AreFriends(last, 1, 2) && HasPeerBan(last, 1, 2)
  {
    var t1 := Step(t, asked);
    assert t1 == t.(requests := map[7 := Request(1, 2, None, Pending, None)]);
    var t2 := Step(t1, banned);
    assert t2.requests == t1.requests && Bans(t2, 1, 2);
  }

  /** A friendship begins only when the addressee accepts the pending request of the other. */
  lemma FriendshipIsAccepted(t: Tables, op: Op, a: UserId, b: UserId)
    requires Inv(t) && a != b && !AreFriends(t, a, b) && AreFriends(Step(t, op), a, b)
    ensures op.Accept? && IsPending(t, op.id) && t.requests[op.id].to == op.actor
    ensures {t.requests[op.id].from, t.requests[op.id].to} == {a, b}
  {
    var request := t.requests[op.id];
    assert PairOf(request.from, request.to) == PairOf(a, b);
    CanonicalPairIsOneKey(request.from, request.to, a, b);
  }

  /** A friendship ends only by one of the two removing or banning the other. */
  lemma FriendshipIsEnded(t: Tables, op: Op, a: UserId, b: UserId)
    requires Inv(t) && a != b && AreFriends(t, a, b) && !AreFriends(Step(t, op), a, b)
    ensures (op.Unfriend? && {op.actor, op.other} == {a, b}) || (op.Ban? && {op.actor, op.target} == {a, b})
  {
    match op
    case Unfriend(actor, other) => CanonicalPairIsOneKey(actor, other, a, b);
    case Ban(actor, target) => CanonicalPairIsOneKey(actor, target, a, b);
    case _ =>
  }

  /** The call makes `a` and `b` friends. */
  predicate Befriends(t: Tables, op: Op, a: UserId, b: UserId) {
    && op.Accept? && Apply(t, op).Ok?
    && var request := t.requests[op.id];
       (request.from == a && request.to == b) || (request.from == b && request.to == a)
  }

  /** The call ends the friendship of `a` and `b`, if there is one: one removes or bans the other. */
  predicate Parts(t: Tables, op: Op, a: UserId, b: UserId) {
    && Apply(t, op).Ok?
    && match op
       case Unfriend(actor, other) => (actor == a && other == b) || (actor == b && other == a)
       case Ban(actor, target) => (actor == a && target == b) || (actor == b && target == a)
       case _ => false
  }

  lemma BefriendingWorks(t: Tables, op: Op, a: UserId, b: UserId)
    requires Befriends(t, op, a, b) && a != b
    ensures AreFriends(Step(t, op), a, b)
  {
  }

  lemma PartingWorks(t: Tables, op: Op, a: UserId, b: UserId)
    requires Parts(t, op, a, b) && a != b
    ensures !AreFriends(Step(t, op), a, b)
  {
  }

  /** Who is friends after a call. */
  lemma FriendsAfter(t: Tables, op: Op, a: UserId, b: UserId)
    requires Inv(t) && a != b
    ensures AreFriends(Step(t, op), a, b) <==> Befriends(t, op, a, b) || (AreFriends(t, a, b) && !Parts(t, op, a, b))
  {
    if Befriends(t, op, a, b) {
      BefriendingWorks(t, op, a, b);
    } else if Parts(t, op, a, b) {
      PartingWorks(t, op, a, b);
    } else if AreFriends(Step(t, op), a, b) && !AreFriends(t, a, b) {
      FriendshipIsAccepted(t, op, a, b);
    } else if !AreFriends(Step(t, op), a, b) && AreFriends(t, a, b) {
      FriendshipIsEnded(t, op, a, b);
    }
  }

  /** At step `i` the two became friends, and no later step of the run parted them. */
  ghost predicate FriendsSince(users: set<UserId>, ops: seq<Op>, a: UserId, b: UserId, i: nat)
    requires i < |ops|
  {
    && Befriends(Run(users, ops[..i]), ops[i], a, b)
    && forall j | i < j < |ops| :: !Parts(Run(users, ops[..j]), ops[j], a, b)
  }

  lemma FriendsSinceBefore(users: set<UserId>, ops: seq<Op>, op: Op, a: UserId, b: UserId, i: nat)
    requires i < |ops|
    ensures FriendsSince(users, ops + [op], a, b, i)
       <==> FriendsSince(users, ops, a, b, i) && !Parts(Run(users, ops), op, a, b)
  {
    var longer := ops + [op];
    assert longer[..|ops|] == ops && longer[..i] == ops[..i];
    assert forall j | i < j < |ops| :: longer[..j] == ops[..j];
    assert FriendsSince(users, longer, a, b, i) ==> !Parts(Run(users, longer[..|ops|]), longer[|ops|], a, b);
  }

  /** After any run two users are friends exactly when one accepted the other's request and neither ended it since. */
  lemma {:induction false} FriendsIffAcceptedLast(users: set<UserId>, ops: seq<Op>, a: UserId, b: UserId)
    requires a != b
    ensures AreFriends(Run(users, ops), a, b) <==> exists i :: 0 <= i < |ops| && FriendsSince(users, ops, a, b, i)
    decreases |ops|
  {
    if ops != [] {
      var n := |ops| - 1;
      var before, last := ops[..n], ops[n];
      assert ops == before + [last];
      RunKeepsInv(users, before);
      FriendsIffAcceptedLast(users, before, a, b);
      FriendsAfter(Run(users, before), last, a, b);
      forall i | 0 <= i < n
        ensures FriendsSince(users, ops, a, b, i)
           <==> FriendsSince(users, before, a, b, i) && !Parts(Run(users, before), last, a, b)
      {
        FriendsSinceBefore(users, before, last, a, b, i);
      }
      assert FriendsSince(users, ops, a, b, n) <==> Befriends(Run(users, before), last, a, b);
    }
  }

  /** No two friends ban each other. */
  ghost predicate NoFriendsBanned(t: Tables) {
    forall p | p in t.friendships :: !HasPeerBan(t, p.0, p.1)
  }

  /** The accept of a request across a ban in force. */
  predicate CrossesBan(t: Tables, op: Op) {
    op.Accept? && Apply(t, op).Ok? && HasPeerBan(t, t.requests[op.id].from, t.requests[op.id].to)
  }

  lemma CrossingBreaks(t: Tables, op: Op)
    requires CrossesBan(t, op)
    ensures !NoFriendsBanned(Step(t, op))
  {
    var p := PairOf(t.requests[op.id].from, t.requests[op.id].to);
    assert p in Step(t, op).friendships && HasPeerBan(Step(t, op), p.0, p.1);
  }

  lemma BanningParts(t: Tables, actor: UserId, target: UserId, p: Pair)
    requires CanonicalKeys(t) && CreatePeerBan(t, actor, target).Ok?
    requires p in CreatePeerBan(t, actor, target).value.friendships
    ensures p in t.friendships
    ensures HasPeerBan(CreatePeerBan(t, actor, target).value, p.0, p.1) == HasPeerBan(t, p.0, p.1)
  {
    assert p.0 < p.1 && p != PairOf(actor, target);
  }

  /** Of all calls exactly an accept across a ban in force makes banned friends. */
  lemma FriendsStayUnbannedIff(t: Tables, op: Op)
    requires Inv(t) && NoFriendsBanned(t)
    ensures NoFriendsBanned(Step(t, op)) <==> !CrossesBan(t, op)
  {
    if CrossesBan(t, op) {
      CrossingBreaks(t, op);
    } else {
      forall p | p in Step(t, op).friendships ensures !HasPeerBan(Step(t, op), p.0, p.1) {
        if op.Ban? && Apply(t, op).Ok? {
          BanningParts(t, op.actor, op.target, p);
        }
      }
    }
  }

  ghost predicate NeverBannedFriends(users: set<UserId>, ops: seq<Op>) {
    forall k | 0 <= k <= |ops| :: NoFriendsBanned(Run(users, ops[..k]))
  }

  ghost predicate NeverCrossesBan(users: set<UserId>, ops: seq<Op>) {
    forall i | 0 <= i < |ops| :: !CrossesBan(Run(users, ops[..i]), ops[i])
  }

  lemma NeverBannedFriendsSnoc(users: set<UserId>, ops: seq<Op>, op: Op)
    ensures NeverBannedFriends(users, ops + [op])
       <==> NeverBannedFriends(users, ops) && NoFriendsBanned(Run(users, ops + [op]))
  {
    var longer := ops + [op];
    assert forall k | 0 <= k <= |ops| :: longer[..k] == ops[..k];
    assert longer[..|longer|] == longer;
  }

  lemma NeverCrossesBanSnoc(users: set<UserId>, ops: seq<Op>, op: Op)
    ensures NeverCrossesBan(users, ops + [op]) <==> NeverCrossesBan(users, ops) && !CrossesBan(Run(users, ops), op)
  {
    var longer := ops + [op];
    assert forall i | 0 <= i < |ops| :: longer[..i] == ops[..i] && longer[i] == ops[i];
    assert longer[..|ops|] == ops && longer[|ops|] == op;
  }

  /** Over a run no friends are ever banned exactly when no accept of it crosses a ban in force. */
  lemma {:induction false} NeverBannedFriendsIff(users: set<UserId>, ops: seq<Op>)
    ensures NeverBannedFriends(users, ops) <==> NeverCrossesBan(users, ops)
    decreases |ops|
  {
    if ops != [] {
      var before, last := ops[..|ops| - 1], ops[|ops| - 1];
      assert ops == before + [last];
      NeverBannedFriendsIff(users, before);
      NeverBannedFriendsSnoc(users, before, last);
      NeverCrossesBanSnoc(users, before, last);
      RunKeepsInv(users, before);
      assert before[..|before|] == before;
      if NeverBannedFriends(users, before) {
        FriendsStayUnbannedIff(Run(users, before), last);
      }
    }
  }

  /** Only the source of a ban makes it and lifts it. */
  lemma BansBelongToTheirSource(t: Tables, op: Op, source: UserId, target: UserId)
    requires Inv(t) && Bans(t, source, target) != Bans(Step(t, op), source, target)
    ensures op == Ban(source, target) || (op.Unban? && op.actor == source && op.target == target)
  {
  }

  /** A dialog that exists stays, and opening one needs the pair to be friends without a ban. */
  lemma DialogsOpenAmongFriends(t: Tables, op: Op, p: Pair)
    requires Inv(t)
    ensures p in t.dialogs ==> p in Step(t, op).dialogs
    ensures p !in t.dialogs && p in Step(t, op).dialogs ==>
      op.OpenDialog? && MayTalk(t, p) && {op.current, op.other} == {p.0, p.1}
  {
  }

  lemma RunSnoc(users: set<UserId>, ops: seq<Op>, op: Op)
    ensures Run(users, ops + [op]) == Step(Run(users, ops), op)
  {
    assert (ops + [op])[..|ops|] == ops;
  }

  /** It happens exactly when the accepted request crosses a ban in force. */
  lemma AcceptBefriendsBannedIffBanInForce(users: set<UserId>, ops: seq<Op>, id: RequestId, actor: UserId, now: Time)
    requires AcceptFriendRequest(Run(users, ops), id, actor, now).Ok?
    ensures var t := Run(users, ops);
      var next := AcceptFriendRequest(t, id, actor, now).value;
      && t.requests[id].from != actor
      && (MayTalk(next, PairOf(t.requests[id].from, actor)) <==> !HasPeerBan(t, t.requests[id].from, actor))
  {
    RunKeepsInv(users, ops);
  }
}

/** The social service: one method per transaction, each committing or rolling back. */
module SocialService {
  import opened Wrappers
  import opened UserPair
  import opened SocialTables

  /** The call did what the transaction `op` does to the tables, or failed and left them alone. */
  ghost predicate Transacts<T>(before: Tables, op: Op, r: Result<T, Error>, after: Tables) {
    match Apply(before, op)
    case Ok(next) => r.Ok? && after == next
    case Err(e) => r == Err(e) && after == before
  }

  class SocialStore {
    const users: set<UserId>
    var requests: map<RequestId, Request>
    var friendships: set<Pair>
    var bans: map<Pair, Option<Time>>
    var dialogs: map<Pair, Dialog>
    var events: seq<PeerEvent>
    /** The calls made so far. */
    ghost var ops: seq<Op>

    constructor (users: set<UserId>)
      ensures Valid() && ops == [] && Contents() == Start(users)
    {
      this.users, requests, friendships, bans, dialogs, events := users, map[], {}, map[], map[], [];
      ops := [];
    }

    ghost function Contents(): (t: Tables)
      reads this
    {
      Tables(users, requests, friendships, bans, dialogs, events)
    }

    /** The tables are those of the run of calls so far, so every property of runs is theirs. */
    ghost predicate Valid()
      reads this
    {
      Contents() == Run(users, ops)
    }

    ghost method Record(op: Op)
      modifies this`ops
      ensures ops == old(ops) + [op] && Run(users, ops) == Step(Run(users, old(ops)), op)
    {
      RunSnoc(users, ops, op);
      ops := ops + [op];
    }

    predicate ActiveBan(source: UserId, target: UserId)
      reads this
    {
      (source, target) in bans && bans[(source, target)] == None
    }

    predicate ActiveBanEitherWay(a: UserId, b: UserId)
      reads this
    {
      ActiveBan(a, b) || ActiveBan(b, a)
    }

    predicate PendingFrom(from: UserId, to: UserId)
      reads this
    {
      exists id | id in requests :: requests[id].from == from && requests[id].to == to && requests[id].status == Pending
    }

    method FreezeDialogForPair(a: UserId, b: UserId, reason: string) returns (dialog: Option<Pair>)
      requires a != b
      modifies this`dialogs
      ensures Contents() == FreezeDialog(old(Contents()), a, b, reason)
      ensures dialog == if PairOf(a, b) in dialogs then Some(PairOf(a, b)) else None
    {
      var p := PairOf(a, b);
      if p !in dialogs {
        return None;
      }
      dialogs := dialogs[p := Dialog(true, Some(reason))];
      dialog := Some(p);
    }

    method RefreshDialogStateForPair(a: UserId, b: UserId)
      requires a != b
      modifies this`dialogs
      ensures Contents() == RefreshDialog(old(Contents()), a, b)
    {
      var p := PairOf(a, b);
      var isFriends := p in friendships;
      var hasBan := ActiveBanEitherWay(a, b);
      if p in dialogs {
        dialogs := dialogs[p := Dialog(
          !isFriends || hasBan, if isFriends && !hasBan then None else Some(FRIENDSHIP_REQUIRED))];
      }
    }

    method CreateFriendRequest(
      from: UserId, to: UserId, message: Option<string>, id: RequestId) returns (r: Result<RequestId, Error>)
      requires Valid()
      modifies this
      ensures Valid() && ops == old(ops) + [RequestFriend(from, to, message, id)]
      ensures Transacts(old(Contents()), RequestFriend(from, to, message, id), r, Contents())
      ensures r.Ok? ==> r.value == id
    {
      Record(RequestFriend(from, to, message, id));
      if to !in users {
        return Err(NotFound);
      }
      if to == from {
        return Err(Validation);
      }
      if ActiveBanEitherWay(to, from) {
        return Err(Forbidden);
      }
      if PairOf(from, to) in friendships {
        return Err(Conflict);
      }
      if PendingFrom(from, to) || PendingFrom(to, from) {
        return Err(Conflict);
      }
      if id in requests {
        return Err(Conflict);
      }
      requests := requests[id := Request(from, to, message, Pending, None)];
      r := Ok(id);
    }

    method AcceptFriendRequest(id: RequestId, actor: UserId, now: Time) returns (r: Result<UserId, Error>)
      requires Valid()
      modifies this
      ensures Valid() && ops == old(ops) + [Accept(id, actor, now)]
      ensures Transacts(old(Contents()), Accept(id, actor, now), r, Contents())
      ensures r.Ok? ==> r.value == old(requests)[id].from
    {
      Record(Accept(id, actor, now));
      if id !in requests || requests[id].to != actor {
        return Err(NotFound);
      }
      if requests[id].status != Pending {
        return Err(Conflict);
      }
      var from, to := requests[id].from, requests[id].to;
      if from == to {
        return Err(Validation);
      }
      friendships := friendships + {PairOf(from, to)};
      requests := requests[id := requests[id].(status := Accepted, respondedAt := Some(now))];
      RefreshDialogStateForPair(from, to);
      r := Ok(from);
    }

    method RejectFriendRequest(id: RequestId, actor: UserId, now: Time) returns (r: Result<(), Error>)
      requires Valid()
      modifies this
      ensures Valid() && ops == old(ops) + [Reject(id, actor, now)]
      ensures Transacts(old(Contents()), Reject(id, actor, now), r, Contents())
    {
      Record(Reject(id, actor, now));
      if id !in requests || requests[id].to != actor {
        return Err(NotFound);
      }
      if requests[id].status != Pending {
        return Err(Conflict);
      }
      requests := requests[id := requests[id].(status := Rejected, respondedAt := Some(now))];
      r := Ok(());
    }

    method RemoveFriend(actor: UserId, other: UserId) returns (r: Result<Option<Pair>, Error>)
      requires Valid()
      modifies this
      ensures Valid() && ops == old(ops) + [Unfriend(actor, other)]
      ensures Transacts(old(Contents()), Unfriend(actor, other), r, Contents())
      ensures r.Ok? ==> actor != other && r.value == ExistingDialog(Contents(), PairOf(actor, other))
    {
      Record(Unfriend(actor, other));
      if other !in users {
        return Err(NotFound);
      }
      if actor == other {
        return Err(Validation);
      }
      var p := PairOf(actor, other);
      if p !in friendships {
        return Err(NotFound);
      }
      friendships := friendships - {p};
      var dialog := FreezeDialogForPair(actor, other, FRIENDSHIP_REQUIRED);
      r := Ok(dialog);
    }

    /** The friendship goes before the conflict is noticed; the rollback brings it back. */
    method CreatePeerBan(actor: UserId, target: UserId) returns (r: Result<(), Error>)
      requires Valid()
      modifies this
      ensures Valid() && ops == old(ops) + [Ban(actor, target)]
      ensures Transacts(old(Contents()), Ban(actor, target), r, Contents())
    {
      Record(Ban(actor, target));
      if target !in users {
        return Err(NotFound);
      }
      if target == actor {
        return Err(Validation);
      }
      var savepoint := friendships;
      friendships := friendships - {PairOf(actor, target)};
      var created := (actor, target) !in bans;
      if !created && bans[(actor, target)] == None {
        friendships := savepoint;
        return Err(Conflict);
      }
      bans := bans[(actor, target) := None];
      var _ := FreezeDialogForPair(actor, target, PEER_BAN);
      events := events + [PeerBanCreated(actor, target)];
      r := Ok(());
    }

    method RemovePeerBan(actor: UserId, target: UserId, now: Time) returns (r: Result<(), Error>)
      requires Valid()
      modifies this
      ensures Valid() && ops == old(ops) + [Unban(actor, target, now)]
      ensures Transacts(old(Contents()), Unban(actor, target, now), r, Contents())
    {
      Record(Unban(actor, target, now));
      if !ActiveBan(actor, target) {
        return Err(NotFound);
      }
      var savedBans, savedEvents := bans, events;
      bans := bans[(actor, target) := Some(now)];
      events := events + [PeerBanRemoved(actor, target)];
      if actor == target {
        bans, events := savedBans, savedEvents;
        return Err(Validation);
      }
      RefreshDialogStateForPair(actor, target);
      r := Ok(());
    }

    method GetOrCreateDialog(current: UserId, other: UserId) returns (r: Result<(Pair, bool), Error>)
      requires Valid()
      modifies this
      ensures Valid() && ops == old(ops) + [OpenDialog(current, other)]
      ensures Transacts(old(Contents()), OpenDialog(current, other), r, Contents())
      ensures r.Ok? ==>
        r.value.0 in dialogs && !dialogs[r.value.0].isFrozen && (r.value.1 <==> r.value.0 !in old(dialogs))
    {
      Record(OpenDialog(current, other));
      if ActiveBanEitherWay(current, other) {
        return Err(Forbidden);
      }
      if current == other || PairOf(current, other) !in friendships {
        return Err(Forbidden);
      }
      var p := PairOf(current, other);
      if p in dialogs {
        RunKeepsInv(users, ops);
        return Ok((p, false));
      }
      dialogs := dialogs[p := Dialog(false, None)];
      r := Ok((p, true));
    }
  }
}
