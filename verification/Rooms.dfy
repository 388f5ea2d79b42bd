/**
 * Rooms, memberships, bans, read states, invitations and the audit log, as tables. Every service call is
 * one transaction: it yields the new tables, or an error and the tables it started from.
 */
module RoomTables {
  import opened Wrappers
  import opened UserPair

  type Time = int
  type RoomId = nat
  type InvitationId = nat
  type RoomUser = (RoomId, UserId)

  datatype Visibility = Public | Private

  datatype Role = Owner | Admin | Member

  datatype Room = Room(name: string, visibility: Visibility, owner: UserId)

  datatype Ban = Ban(bannedBy: UserId, removedAt: Option<Time>)

  datatype InvitationStatus = Pending | Accepted | Rejected

  datatype Invitation = Invitation(room: RoomId, invited: UserId, invitedBy: UserId, status: InvitationStatus)

  datatype Action =
    | RoomCreated | RoomUpdated | RoomDeleted
    | MemberRemoved | MemberBanned | MemberUnbanned
    | AdminPromoted | AdminDemoted

  /** Deleting a room clears the `room` of its events. */
  datatype Event = Event(action: Action, actor: UserId, target: Option<UserId>, room: Option<RoomId>)

  datatype Error = NotFound | Forbidden | Conflict | AlreadyBanned | Validation | Integrity

  datatype Tables = Tables(
    rooms: map<RoomId, Room>,
    members: map<RoomUser, Role>,
    bans: map<RoomUser, Ban>,
    readStates: map<RoomUser, Time>,
    invitations: map<InvitationId, Invitation>,
    events: seq<Event>)

  predicate IsMember(t: Tables, room: RoomId, user: UserId) {
    (room, user) in t.members
  }

  predicate IsBanned(t: Tables, room: RoomId, user: UserId) {
    (room, user) in t.bans && t.bans[(room, user)].removedAt == None
  }

  predicate HasRole(t: Tables, room: RoomId, user: UserId, role: Role) {
    IsMember(t, room, user) && t.members[(room, user)] == role
  }

  predicate IsStaff(t: Tables, room: RoomId, user: UserId) {
    HasRole(t, room, user, Owner) || HasRole(t, room, user, Admin)
  }

  /** What live and message access ask: the room exists, the user is a member and not banned. */
  predicate HasAccess(t: Tables, room: RoomId, user: UserId) {
    room in t.rooms && IsMember(t, room, user) && !IsBanned(t, room, user)
  }

  predicate NameTaken(t: Tables, name: string, except: Option<RoomId>) {
    exists r | r in t.rooms :: t.rooms[r].name == name && except != Some(r)
  }

  predicate HasPendingInvitation(t: Tables, room: RoomId, user: UserId) {
    exists i | i in t.invitations ::
      t.invitations[i].room == room && t.invitations[i].invited == user && t.invitations[i].status == Pending
  }

  function Logged(t: Tables, action: Action, actor: UserId, target: Option<UserId>, room: RoomId): (r: Tables) {
    t.(events := t.events + [Event(action, actor, target, Some(room))])
  }

  function CreateRoom(
    t: Tables, owner: UserId, name: string, visibility: Visibility, id: RoomId): (r: Result<Tables, Error>)
  {
    if name == "" || NameTaken(t, name, None) || id in t.rooms then Err(Integrity)
    else
      Ok(Logged(t.(rooms := t.rooms[id := Room(name, visibility, owner)], members := t.members[(id, owner) := Owner]),
                RoomCreated, owner, None, id))
  }

  function UpdateRoom(
    t: Tables, room: RoomId, actor: UserId, name: Option<string>, visibility: Option<Visibility>)
      : (r: Result<Tables, Error>)
  {
    if room !in t.rooms then Err(NotFound)
    else if t.rooms[room].owner != actor then Err(Forbidden)
    else
      var old' := t.rooms[room];
      var newName := if name.Some? then name.value else old'.name;
      var newVisibility := if visibility.Some? then visibility.value else old'.visibility;
      if newName == "" || NameTaken(t, newName, Some(room)) then Err(Integrity)
      else
        var updated := t.(rooms := t.rooms[room := Room(newName, newVisibility, old'.owner)]);
        Ok(Logged(updated, RoomUpdated, actor, None, room))
  }

  function Detach(events: seq<Event>, room: RoomId): (r: seq<Event>)
    ensures |r| == |events|
  {
    if events == [] then []
    else
      var last := events[|events| - 1];
      Detach(events[..|events| - 1], room) + [if last.room == Some(room) then last.(room := None) else last]
  }

  /** The room's rows go with it; its events stay, without their room. */
  function Purge(t: Tables, room: RoomId): (r: Tables) {
    Tables(
      t.rooms - {room},
      map k | k in t.members && k.0 != room :: t.members[k],
      map k | k in t.bans && k.0 != room :: t.bans[k],
      map k | k in t.readStates && k.0 != room :: t.readStates[k],
      map i | i in t.invitations && t.invitations[i].room != room :: t.invitations[i],
      Detach(t.events, room))
  }

  function DeleteRoom(t: Tables, room: RoomId, actor: UserId): (r: Result<Tables, Error>) {
    if room !in t.rooms then Err(NotFound)
    else if t.rooms[room].owner != actor then Err(Forbidden)
    else Ok(Purge(Logged(t, RoomDeleted, actor, None, room), room))
  }

  function JoinRoom(t: Tables, room: RoomId, user: UserId): (r: Result<Tables, Error>) {
    if room !in t.rooms then Err(NotFound)
    else if t.rooms[room].visibility != Public then Err(Forbidden)
    else if IsBanned(t, room, user) then Err(Forbidden)
    else if IsMember(t, room, user) then Err(Conflict)
    else Ok(t.(members := t.members[(room, user) := Member]))
  }

  function LeaveRoom(t: Tables, room: RoomId, user: UserId): (r: Result<Tables, Error>) {
    if room !in t.rooms then Err(NotFound)
    else if !IsMember(t, room, user) then Err(Conflict)
    else if HasRole(t, room, user, Owner) || t.rooms[room].owner == user then Err(Forbidden)
    else Ok(t.(members := t.members - {(room, user)}, readStates := t.readStates - {(room, user)}))
  }

  function Invite(
    t: Tables, room: RoomId, actor: UserId, invited: UserId, id: InvitationId): (r: Result<Tables, Error>)
  {
    if room !in t.rooms then Err(NotFound)
    else if !IsStaff(t, room, actor) then Err(Forbidden)
    else if t.rooms[room].visibility != Private then Err(Conflict)
    else if invited == actor then Err(Validation)
    else if IsBanned(t, room, invited) then Err(Forbidden)
    else if IsMember(t, room, invited) then Err(Conflict)
    else if HasPendingInvitation(t, room, invited) then Err(Conflict)
    else if id in t.invitations then Err(Integrity)
    else Ok(t.(invitations := t.invitations[id := Invitation(room, invited, actor, Pending)]))
  }

  function AcceptInvitation(t: Tables, id: InvitationId, actor: UserId): (r: Result<Tables, Error>) {
    if id !in t.invitations || t.invitations[id].invited != actor then Err(NotFound)
    else if t.invitations[id].status != Pending then Err(Conflict)
    else if IsBanned(t, t.invitations[id].room, actor) then Err(Forbidden)
    else
      var room := t.invitations[id].room;
      Ok(t.(members := if IsMember(t, room, actor) then t.members else t.members[(room, actor) := Member],
            invitations := t.invitations[id := t.invitations[id].(status := Accepted)]))
  }

  function RejectInvitation(t: Tables, id: InvitationId, actor: UserId): (r: Result<Tables, Error>) {
    if id !in t.invitations || t.invitations[id].invited != actor then Err(NotFound)
    else if t.invitations[id].status != Pending then Err(Conflict)
    else Ok(t.(invitations := t.invitations[id := t.invitations[id].(status := Rejected)]))
  }

  function PromoteAdmin(t: Tables, room: RoomId, actor: UserId, target: UserId): (r: Result<Tables, Error>) {
    if room !in t.rooms then Err(NotFound)
    else if !HasRole(t, room, actor, Owner) then Err(Forbidden)
    else if !IsMember(t, room, target) then Err(NotFound)
    else if HasRole(t, room, target, Owner) then Err(Forbidden)
    else if HasRole(t, room, target, Admin) then Err(Conflict)
    else Ok(Logged(t.(members := t.members[(room, target) := Admin]), AdminPromoted, actor, Some(target), room))
  }

  function DemoteAdmin(t: Tables, room: RoomId, actor: UserId, target: UserId): (r: Result<Tables, Error>) {
    if room !in t.rooms then Err(NotFound)
    else if !IsStaff(t, room, actor) then Err(Forbidden)
    else if !IsMember(t, room, target) then Err(NotFound)
    else if HasRole(t, room, target, Owner) then Err(Forbidden)
    else if !HasRole(t, room, target, Admin) then Err(Conflict)
    else if HasRole(t, room, actor, Admin) && target == actor then Err(Forbidden)
    else Ok(Logged(t.(members := t.members[(room, target) := Member]), AdminDemoted, actor, Some(target), room))
  }

  datatype Removal = AsRemoved | AsBanned

  function ActionOf(removal: Removal): (a: Action) {
    match removal case AsRemoved => MemberRemoved case AsBanned => MemberBanned
  }

  /** The checks of `_get_room_member_for_moderation`. */
  function ModerationRefusal(t: Tables, room: RoomId, actor: UserId, target: UserId): (refusal: Option<Error>) {
    if room !in t.rooms then Some(NotFound)
    else if !IsStaff(t, room, actor) then Some(Forbidden)
    else if !IsMember(t, room, target) then Some(NotFound)
    else if HasRole(t, room, target, Owner) then Some(Forbidden)
    else if HasRole(t, room, actor, Admin) && HasRole(t, room, target, Admin) then Some(Forbidden)
    else None
  }

  function CreateRoomBan(
    t: Tables, room: RoomId, actor: UserId, target: UserId, removal: Removal): (r: Result<Tables, Error>)
  {
    if ModerationRefusal(t, room, actor, target).Some? then Err(ModerationRefusal(t, room, actor, target).value)
    else if IsBanned(t, room, target) then Err(AlreadyBanned)
    else
      var k := (room, target);
      Ok(Logged(t.(members := t.members - {k}, readStates := t.readStates - {k}, bans := t.bans[k := Ban(actor, None)]),
                ActionOf(removal), actor, Some(target), room))
  }

  function RemoveRoomBan(
    t: Tables, room: RoomId, actor: UserId, target: UserId, now: Time): (r: Result<Tables, Error>)
  {
    if room !in t.rooms then Err(NotFound)
    else if !IsStaff(t, room, actor) then Err(Forbidden)
    else if !IsBanned(t, room, target) then Err(NotFound)
    else
      var k := (room, target);
      Ok(Logged(t.(bans := t.bans[k := t.bans[k].(removedAt := Some(now))]), MemberUnbanned, actor, Some(target), room))
  }

  /** `latest` is the creation time of the room's latest message, if it has any. */
  function MarkRoomRead(
    t: Tables, room: RoomId, user: UserId, latest: Option<Time>, now: Time): (r: Result<Tables, Error>)
  {
    if !HasAccess(t, room, user) then Err(NotFound)
    else Ok(t.(readStates := t.readStates[(room, user) := if latest.Some? then latest.value else now]))
  }

  datatype Op =
    | OpCreate(owner: UserId, name: string, visibility: Visibility, id: RoomId)
    | OpUpdate(room: RoomId, actor: UserId, newName: Option<string>, newVisibility: Option<Visibility>)
    | OpDelete(room: RoomId, actor: UserId)
    | OpJoin(room: RoomId, user: UserId)
    | OpLeave(room: RoomId, user: UserId)
    | OpInvite(room: RoomId, actor: UserId, invited: UserId, invitation: InvitationId)
    | OpAccept(invitation: InvitationId, actor: UserId)
    | OpReject(invitation: InvitationId, actor: UserId)
    | OpPromote(room: RoomId, actor: UserId, target: UserId)
    | OpDemote(room: RoomId, actor: UserId, target: UserId)
    | OpBan(room: RoomId, actor: UserId, target: UserId, removal: Removal)
    | OpUnban(room: RoomId, actor: UserId, target: UserId, now: Time)
    | OpMarkRead(room: RoomId, user: UserId, latest: Option<Time>, now: Time)

  function Apply(t: Tables, op: Op): (r: Result<Tables, Error>) {
    match op
    case OpCreate(owner, name, visibility, id) => CreateRoom(t, owner, name, visibility, id)
    case OpUpdate(room, actor, name, visibility) => UpdateRoom(t, room, actor, name, visibility)
    case OpDelete(room, actor) => DeleteRoom(t, room, actor)
    case OpJoin(room, user) => JoinRoom(t, room, user)
    case OpLeave(room, user) => LeaveRoom(t, room, user)
    case OpInvite(room, actor, invited, id) => Invite(t, room, actor, invited, id)
    case OpAccept(id, actor) => AcceptInvitation(t, id, actor)
    case OpReject(id, actor) => RejectInvitation(t, id, actor)
    case OpPromote(room, actor, target) => PromoteAdmin(t, room, actor, target)
    case OpDemote(room, actor, target) => DemoteAdmin(t, room, actor, target)
    case OpBan(room, actor, target, removal) => CreateRoomBan(t, room, actor, target, removal)
    case OpUnban(room, actor, target, now) => RemoveRoomBan(t, room, actor, target, now)
    case OpMarkRead(room, user, latest, now) => MarkRoomRead(t, room, user, latest, now)
  }

  function Step(t: Tables, op: Op): (r: Tables) {
    match Apply(t, op) case Ok(next) => next case Err(_) => t
  }

  const EMPTY := Tables(map[], map[], map[], map[], map[], [])

  function Run(ops: seq<Op>): (t: Tables) {
    if ops == [] then EMPTY else Step(Run(ops[..|ops| - 1]), ops[|ops| - 1])
  }

  /** Every room has one owner-role membership, and it is the one of `owner_user`. */
  ghost predicate OwnersAgree(t: Tables) {
    && (forall r | r in t.rooms :: HasRole(t, r, t.rooms[r].owner, Owner))
    && (forall k | k in t.members :: k.0 in t.rooms && (t.members[k] == Owner ==> k.1 == t.rooms[k.0].owner))
  }

  /** No user is both a member and banned; only members have a read state. */
  ghost predicate MembershipsExclude(t: Tables) {
    && (forall k | k in t.bans :: k.0 in t.rooms && (t.bans[k].removedAt == None ==> k !in t.members))
    && (forall k | k in t.readStates :: k in t.members)
    && (forall i | i in t.invitations :: t.invitations[i].room in t.rooms)
  }

  /**
   * Walks the removed, banned and unbanned events of one room and user: `None` if they do not alternate,
   * starting with a ban, else whether a ban is in force.
   */
  function ReplayBan(events: seq<Event>, room: RoomId, user: UserId): (r: Option<bool>) {
    if events == [] then Some(false)
    else
      var before := ReplayBan(events[..|events| - 1], room, user);
      var e := events[|events| - 1];
      if e.room != Some(room) || e.target != Some(user) then before
      else
        match e.action
        case MemberRemoved => if before == Some(false) then Some(true) else None
        case MemberBanned => if before == Some(false) then Some(true) else None
        case MemberUnbanned => if before == Some(true) then Some(false) else None
        case _ => before
  }

  ghost predicate LogRebuildsBans(t: Tables) {
    && (forall i | 0 <= i < |t.events| && t.events[i].room.Some? :: t.events[i].room.value in t.rooms)
    && (forall r, u: UserId | r in t.rooms :: ReplayBan(t.events, r, u) == Some(IsBanned(t, r, u)))
  }

  ghost predicate Inv(t: Tables) {
    OwnersAgree(t) && MembershipsExclude(t) && LogRebuildsBans(t)
  }

  lemma {:induction false} ReplayUnmentioned(events: seq<Event>, room: RoomId, user: UserId)
    requires forall i | 0 <= i < |events| :: events[i].room != Some(room)
    ensures ReplayBan(events, room, user) == Some(false)
  {
    if events != [] {
      ReplayUnmentioned(events[..|events| - 1], room, user);
    }
  }

  lemma {:induction false} ReplayDetached(events: seq<Event>, gone: RoomId, room: RoomId, user: UserId)
    requires room != gone
    ensures ReplayBan(Detach(events, gone), room, user) == ReplayBan(events, room, user)
  {
    if events != [] {
      ReplayDetached(events[..|events| - 1], gone, room, user);
      var detached := Detach(events, gone);
      assert detached[..|detached| - 1] == Detach(events[..|events| - 1], gone);
    }
  }

  lemma {:induction false} DetachedAt(events: seq<Event>, gone: RoomId, i: nat)
    requires i < |events|
    ensures Detach(events, gone)[i].room == if events[i].room == Some(gone) then None else events[i].room
  {
    if i < |events| - 1 {
      DetachedAt(events[..|events| - 1], gone, i);
    }
  }

  predicate IsBanAction(a: Action) {
    a in {MemberRemoved, MemberBanned, MemberUnbanned}
  }

  ghost predicate BansChangeAt(t: Tables, next: Tables, room: RoomId, user: UserId, inForce: bool) {
    forall r, u: UserId | r in t.rooms ::
      IsBanned(next, r, u) == (if r == room && u == user then inForce else IsBanned(t, r, u))
  }

  lemma LogBanStep(t: Tables, next: Tables, e: Event)
    requires LogRebuildsBans(t) && next.rooms == t.rooms
    requires IsBanAction(e.action) && e.target.Some? && e.room.Some? && e.room.value in t.rooms
    requires next.events == t.events + [e]
    requires var inForce := e.action != MemberUnbanned;
      && BansChangeAt(t, next, e.room.value, e.target.value, inForce)
      && IsBanned(t, e.room.value, e.target.value) != inForce
    ensures LogRebuildsBans(next)
  {
    assert next.events[..|next.events| - 1] == t.events;
  }

  lemma LogOtherStep(t: Tables, next: Tables, e: Event)
    requires LogRebuildsBans(t) && next.rooms.Keys >= t.rooms.Keys
    requires !IsBanAction(e.action) && e.room.Some? && e.room.value in next.rooms
    requires next.events == t.events + [e] && next.bans == t.bans
    requires forall k | k in t.bans :: k.0 in t.rooms
    ensures LogRebuildsBans(next)
  {
    assert next.events[..|next.events| - 1] == t.events;
    forall r, u: UserId | r in next.rooms ensures ReplayBan(next.events, r, u) == Some(IsBanned(next, r, u)) {
      if r !in t.rooms {
        ReplayUnmentioned(t.events, r, u);
      }
    }
  }

  lemma CreateKeepsInv(t: Tables, owner: UserId, name: string, visibility: Visibility, id: RoomId)
    requires Inv(t) && CreateRoom(t, owner, name, visibility, id).Ok?
    ensures Inv(CreateRoom(t, owner, name, visibility, id).value)
  {
    LogOtherStep(t, CreateRoom(t, owner, name, visibility, id).value, Event(RoomCreated, owner, None, Some(id)));
  }

  lemma UpdateKeepsInv(t: Tables, room: RoomId, actor: UserId, name: Option<string>, visibility: Option<Visibility>)
    requires Inv(t) && UpdateRoom(t, room, actor, name, visibility).Ok?
    ensures Inv(UpdateRoom(t, room, actor, name, visibility).value)
  {
    LogOtherStep(t, UpdateRoom(t, room, actor, name, visibility).value, Event(RoomUpdated, actor, None, Some(room)));
  }

  lemma PurgeKeepsRows(t: Tables, room: RoomId)
    requires OwnersAgree(t) && MembershipsExclude(t)
    ensures OwnersAgree(Purge(t, room)) && MembershipsExclude(Purge(t, room))
  {
  }

  lemma PurgeKeepsLog(t: Tables, room: RoomId)
    requires LogRebuildsBans(t)
    ensures LogRebuildsBans(Purge(t, room))
  {
    var next := Purge(t, room);
    forall i | 0 <= i < |next.events| && next.events[i].room.Some? ensures next.events[i].room.value in next.rooms {
      DetachedAt(t.events, room, i);
    }
    forall r, u: UserId | r in next.rooms ensures ReplayBan(next.events, r, u) == Some(IsBanned(next, r, u)) {
      ReplayDetached(t.events, room, r, u);
    }
  }

  lemma DeleteKeepsInv(t: Tables, room: RoomId, actor: UserId)
    requires Inv(t) && DeleteRoom(t, room, actor).Ok?
    ensures Inv(DeleteRoom(t, room, actor).value)
  {
    var logged := Logged(t, RoomDeleted, actor, None, room);
    LogOtherStep(t, logged, Event(RoomDeleted, actor, None, Some(room)));
    PurgeKeepsRows(logged, room);
    PurgeKeepsLog(logged, room);
  }

  lemma PromoteKeepsInv(t: Tables, room: RoomId, actor: UserId, target: UserId)
    requires Inv(t) && PromoteAdmin(t, room, actor, target).Ok?
    ensures Inv(PromoteAdmin(t, room, actor, target).value)
  {
    LogOtherStep(t, PromoteAdmin(t, room, actor, target).value, Event(AdminPromoted, actor, Some(target), Some(room)));
  }

  lemma DemoteKeepsInv(t: Tables, room: RoomId, actor: UserId, target: UserId)
    requires Inv(t) && DemoteAdmin(t, room, actor, target).Ok?
    ensures Inv(DemoteAdmin(t, room, actor, target).value)
  {
    LogOtherStep(t, DemoteAdmin(t, room, actor, target).value, Event(AdminDemoted, actor, Some(target), Some(room)));
  }

  lemma BanKeepsRows(t: Tables, room: RoomId, actor: UserId, target: UserId, removal: Removal)
    requires OwnersAgree(t) && MembershipsExclude(t) && CreateRoomBan(t, room, actor, target, removal).Ok?
    ensures var next := CreateRoomBan(t, room, actor, target, removal).value;
      OwnersAgree(next) && MembershipsExclude(next)
  {
  }

  lemma BanKeepsLog(t: Tables, room: RoomId, actor: UserId, target: UserId, removal: Removal)
    requires LogRebuildsBans(t) && CreateRoomBan(t, room, actor, target, removal).Ok?
    ensures LogRebuildsBans(CreateRoomBan(t, room, actor, target, removal).value)
  {
    var next := CreateRoomBan(t, room, actor, target, removal).value;
    assert BansChangeAt(t, next, room, target, true);
    LogBanStep(t, next, Event(ActionOf(removal), actor, Some(target), Some(room)));
  }

  lemma BanKeepsInv(t: Tables, room: RoomId, actor: UserId, target: UserId, removal: Removal)
    requires Inv(t) && CreateRoomBan(t, room, actor, target, removal).Ok?
    ensures Inv(CreateRoomBan(t, room, actor, target, removal).value)
  {
    BanKeepsRows(t, room, actor, target, removal);
    BanKeepsLog(t, room, actor, target, removal);
  }

  lemma UnbanKeepsInv(t: Tables, room: RoomId, actor: UserId, target: UserId, now: Time)
    requires Inv(t) && RemoveRoomBan(t, room, actor, target, now).Ok?
    ensures Inv(RemoveRoomBan(t, room, actor, target, now).value)
  {
    var next := RemoveRoomBan(t, room, actor, target, now).value;
    assert BansChangeAt(t, next, room, target, false);
    LogBanStep(t, next, Event(MemberUnbanned, actor, Some(target), Some(room)));
  }

  /** Operations that touch neither rooms, bans nor the log. */
  lemma QuietKeepsLog(t: Tables, next: Tables)
    requires LogRebuildsBans(t) && next.rooms == t.rooms && next.bans == t.bans && next.events == t.events
    ensures LogRebuildsBans(next)
  {
    assert forall r, u: UserId :: IsBanned(next, r, u) == IsBanned(t, r, u);
  }

  lemma JoinKeepsInv(t: Tables, room: RoomId, user: UserId)
    requires Inv(t) && JoinRoom(t, room, user).Ok?
    ensures Inv(JoinRoom(t, room, user).value)
  {
    QuietKeepsLog(t, JoinRoom(t, room, user).value);
  }

  lemma LeaveKeepsInv(t: Tables, room: RoomId, user: UserId)
    requires Inv(t) && LeaveRoom(t, room, user).Ok?
    ensures Inv(LeaveRoom(t, room, user).value)
  {
    QuietKeepsLog(t, LeaveRoom(t, room, user).value);
  }

  lemma InviteKeepsInv(t: Tables, room: RoomId, actor: UserId, invited: UserId, id: InvitationId)
    requires Inv(t) && Invite(t, room, actor, invited, id).Ok?
    ensures Inv(Invite(t, room, actor, invited, id).value)
  {
    QuietKeepsLog(t, Invite(t, room, actor, invited, id).value);
  }

  lemma AcceptKeepsInv(t: Tables, id: InvitationId, actor: UserId)
    requires Inv(t) && AcceptInvitation(t, id, actor).Ok?
    ensures Inv(AcceptInvitation(t, id, actor).value)
  {
    QuietKeepsLog(t, AcceptInvitation(t, id, actor).value);
  }

  lemma RejectKeepsInv(t: Tables, id: InvitationId, actor: UserId)
    requires Inv(t) && RejectInvitation(t, id, actor).Ok?
    ensures Inv(RejectInvitation(t, id, actor).value)
  {
    QuietKeepsLog(t, RejectInvitation(t, id, actor).value);
  }

  lemma MarkReadKeepsInv(t: Tables, room: RoomId, user: UserId, latest: Option<Time>, now: Time)
    requires Inv(t) && MarkRoomRead(t, room, user, latest, now).Ok?
    ensures Inv(MarkRoomRead(t, room, user, latest, now).value)
  {
    QuietKeepsLog(t, MarkRoomRead(t, room, user, latest, now).value);
  }

  lemma LoggedStepKeepsInv(t: Tables, op: Op)
    requires Inv(t) && Apply(t, op).Ok?
    requires op.OpCreate? || op.OpUpdate? || op.OpDelete? || op.OpPromote? || op.OpDemote? || op.OpBan? || op.OpUnban?
    ensures Inv(Step(t, op))
  {
    match op
    case OpCreate(owner, name, visibility, id) => CreateKeepsInv(t, owner, name, visibility, id);
    case OpUpdate(room, actor, name, visibility) => UpdateKeepsInv(t, room, actor, name, visibility);
    case OpDelete(room, actor) => DeleteKeepsInv(t, room, actor);
    case OpPromote(room, actor, target) => PromoteKeepsInv(t, room, actor, target);
    case OpDemote(room, actor, target) => DemoteKeepsInv(t, room, actor, target);
    case OpBan(room, actor, target, removal) => BanKeepsInv(t, room, actor, target, removal);
    case OpUnban(room, actor, target, now) => UnbanKeepsInv(t, room, actor, target, now);
  }

  lemma QuietStepKeepsInv(t: Tables, op: Op)
    requires Inv(t) && Apply(t, op).Ok?
    requires op.OpJoin? || op.OpLeave? || op.OpInvite? || op.OpAccept? || op.OpReject? || op.OpMarkRead?
    ensures Inv(Step(t, op))
  {
    match op
    case OpJoin(room, user) => JoinKeepsInv(t, room, user);
    case OpLeave(room, user) => LeaveKeepsInv(t, room, user);
    case OpInvite(room, actor, invited, id) => InviteKeepsInv(t, room, actor, invited, id);
    case OpAccept(id, actor) => AcceptKeepsInv(t, id, actor);
    case OpReject(id, actor) => RejectKeepsInv(t, id, actor);
    case OpMarkRead(room, user, latest, now) => MarkReadKeepsInv(t, room, user, latest, now);
  }

  lemma StepKeepsInv(t: Tables, op: Op)
    requires Inv(t)
    ensures Inv(Step(t, op))
  {
    if Apply(t, op).Ok? {
      if op.OpJoin? || op.OpLeave? || op.OpInvite? || op.OpAccept? || op.OpReject? || op.OpMarkRead? {
        QuietStepKeepsInv(t, op);
      } else {
        LoggedStepKeepsInv(t, op);
      }
    }
  }

  lemma {:induction false} RunKeepsInv(ops: seq<Op>)
    ensures Inv(Run(ops))
  {
    if ops != [] {
      RunKeepsInv(ops[..|ops| - 1]);
      StepKeepsInv(Run(ops[..|ops| - 1]), ops[|ops| - 1]);
    }
  }

  /** After any run, holding the owner role and being `owner_user` are the same thing, and each room has its owner. */
  lemma OwnerChecksAgree(ops: seq<Op>, room: RoomId, user: UserId)
    requires room in Run(ops).rooms
    ensures var t := Run(ops);
      && (HasRole(t, room, user, Owner) <==> t.rooms[room].owner == user)
      && HasAccess(t, room, t.rooms[room].owner)
  {
    RunKeepsInv(ops);
  }

  /** After any run, members are not banned, and only members have a read state. */
  lemma MembersAreNotBanned(ops: seq<Op>, room: RoomId, user: UserId)
    ensures var t := Run(ops);
      && !(IsMember(t, room, user) && IsBanned(t, room, user))
      && (IsMember(t, room, user) <==> HasAccess(t, room, user))
      && ((room, user) in t.readStates ==> IsMember(t, room, user))
  {
    RunKeepsInv(ops);
  }

  /** The conflict for a user who is already banned is never reported: such a user is no member to moderate. */
  lemma AlreadyBannedIsUnreachable(ops: seq<Op>, room: RoomId, actor: UserId, target: UserId, removal: Removal)
    ensures CreateRoomBan(Run(ops), room, actor, target, removal) != Err(AlreadyBanned)
  {
    RunKeepsInv(ops);
  }

  /** For a live room the audit log alone tells who is banned, and its ban entries alternate. */
  lemma AuditLogRebuildsRoomBans(ops: seq<Op>, room: RoomId, user: UserId)
    requires room in Run(ops).rooms
    ensures ReplayBan(Run(ops).events, room, user) == Some(IsBanned(Run(ops), room, user))
  {
    RunKeepsInv(ops);
  }

  /** A room goes only when its owner deletes it. */
  lemma RoomsStay(t: Tables, op: Op, room: RoomId)
    requires room in t.rooms
    ensures room !in Step(t, op).rooms <==> op.OpDelete? && op.room == room && op.actor == t.rooms[room].owner
  {
  }

  /** A call that gives `user` access to `room`: joining, accepting an invitation, or creating the room. */
  predicate Admits(t: Tables, op: Op, room: RoomId, user: UserId) {
    match op
    case OpCreate(owner, _, _, id) => id == room && owner == user
    case OpJoin(r, u) => r == room && u == user
    case OpAccept(i, actor) => actor == user && i in t.invitations && t.invitations[i].room == room
    case _ => false
  }

  /** Calls that are no admission leave memberships as they are, or take some away. */
  lemma NoNewMembers(t: Tables, op: Op, room: RoomId, user: UserId)
    requires !op.OpCreate? && !op.OpJoin? && !op.OpAccept?
    ensures IsMember(Step(t, op), room, user) ==> IsMember(t, room, user)
    ensures room in Step(t, op).rooms ==> room in t.rooms
  {
  }

  lemma NewMembersAreAdmitted(t: Tables, op: Op, room: RoomId, user: UserId)
    requires op.OpCreate? || op.OpJoin? || op.OpAccept?
    requires !IsMember(t, room, user) && IsMember(Step(t, op), room, user)
    ensures Admits(t, op, room, user) && Apply(t, op).Ok?
  {
  }

  /** Access is gained in no other way; in particular not by lifting a ban. */
  lemma AccessIsGainedByAdmission(t: Tables, op: Op, room: RoomId, user: UserId)
    requires Inv(t) && !HasAccess(t, room, user) && HasAccess(Step(t, op), room, user)
    ensures Admits(t, op, room, user) && Apply(t, op).Ok?
  {
    assert !IsMember(t, room, user);
    if op.OpCreate? || op.OpJoin? || op.OpAccept? {
      NewMembersAreAdmitted(t, op, room, user);
    } else {
      NoNewMembers(t, op, room, user);
    }
  }

  /** The calls that take the access of `user` to `room` away. */
  predicate Expels(op: Op, room: RoomId, user: UserId) {
    match op
    case OpLeave(r, u) => r == room && u == user
    case OpBan(r, _, u, _) => r == room && u == user
    case OpDelete(r, _) => r == room
    case _ => false
  }

  lemma ExpulsionRevokesAccess(t: Tables, op: Op, room: RoomId, user: UserId)
    requires Inv(t) && Apply(t, op).Ok? && Expels(op, room, user)
    ensures !HasAccess(Step(t, op), room, user)
  {
  }

  /** A call that takes away someone's access takes away that of nobody else. */
  lemma OthersStay(t: Tables, op: Op, room: RoomId, user: UserId)
    requires Apply(t, op).Ok? && (op.OpLeave? || op.OpBan? || op.OpDelete?)
    requires HasAccess(t, room, user) && !Expels(op, room, user)
    ensures HasAccess(Step(t, op), room, user)
  {
    if op.OpDelete? {
      assert (room, user) in Step(t, op).members;
    }
  }

  /** The other calls take nothing away. */
  lemma NobodyExpelled(t: Tables, op: Op, room: RoomId, user: UserId)
    requires !op.OpLeave? && !op.OpBan? && !op.OpDelete?
    requires HasAccess(t, room, user)
    ensures HasAccess(Step(t, op), room, user)
  {
  }

  lemma AccessIsLostByExpulsion(t: Tables, op: Op, room: RoomId, user: UserId)
    requires Inv(t) && Apply(t, op).Ok?
    requires HasAccess(t, room, user) && !HasAccess(Step(t, op), room, user)
    ensures Expels(op, room, user)
  {
    if !op.OpLeave? && !op.OpBan? && !op.OpDelete? {
      NobodyExpelled(t, op, room, user);
    } else if !Expels(op, room, user) {
      OthersStay(t, op, room, user);
    }
  }

  lemma AdmissionGrantsAccess(t: Tables, op: Op, room: RoomId, user: UserId)
    requires Inv(t) && Apply(t, op).Ok? && Admits(t, op, room, user)
    ensures HasAccess(Step(t, op), room, user)
  {
  }

  /** Who has access after a call. */
  lemma AccessAfter(t: Tables, op: Op, room: RoomId, user: UserId)
    requires Inv(t)
    ensures HasAccess(Step(t, op), room, user) <==>
      || (Apply(t, op).Ok? && Admits(t, op, room, user))
      || (HasAccess(t, room, user) && !(Apply(t, op).Ok? && Expels(op, room, user)))
  {
    var next := HasAccess(Step(t, op), room, user);
    if Apply(t, op).Ok? && Admits(t, op, room, user) {
      AdmissionGrantsAccess(t, op, room, user);
    } else if Apply(t, op).Ok? && Expels(op, room, user) {
      ExpulsionRevokesAccess(t, op, room, user);
    } else if next && !HasAccess(t, room, user) {
      AccessIsGainedByAdmission(t, op, room, user);
    } else if !next && HasAccess(t, room, user) {
      AccessIsLostByExpulsion(t, op, room, user);
    }
  }

  /** At step `i` the user was admitted, and no later step of the run expelled the user. */
  ghost predicate AdmittedSince(ops: seq<Op>, room: RoomId, user: UserId, i: nat)
    requires i < |ops|
  {
    && Apply(Run(ops[..i]), ops[i]).Ok? && Admits(Run(ops[..i]), ops[i], room, user)
    && forall j | i < j < |ops| :: !ExpelledAt(ops, room, user, j)
  }

  ghost predicate ExpelledAt(ops: seq<Op>, room: RoomId, user: UserId, j: nat)
    requires j < |ops|
  {
    Apply(Run(ops[..j]), ops[j]).Ok? && Expels(ops[j], room, user)
  }

  lemma AdmittedSinceBefore(ops: seq<Op>, op: Op, room: RoomId, user: UserId, i: nat)
    requires i < |ops|
    ensures AdmittedSince(ops + [op], room, user, i)
       <==> AdmittedSince(ops, room, user, i) && !(Apply(Run(ops), op).Ok? && Expels(op, room, user))
  {
    var longer := ops + [op];
    assert longer[..|ops|] == ops && longer[..i] == ops[..i];
    forall j | i < j < |ops| ensures ExpelledAt(longer, room, user, j) == ExpelledAt(ops, room, user, j) {
      assert longer[..j] == ops[..j];
    }
    assert ExpelledAt(longer, room, user, |ops|) <==> Apply(Run(ops), op).Ok? && Expels(op, room, user);
  }

  /** After any run a user has access to a room exactly when some call admitted the user and none expelled since. */
  lemma {:induction false} AccessIffAdmittedLast(ops: seq<Op>, room: RoomId, user: UserId)
    ensures HasAccess(Run(ops), room, user) <==> exists i :: 0 <= i < |ops| && AdmittedSince(ops, room, user, i)
    decreases |ops|
  {
    if ops != [] {
      var n := |ops| - 1;
      var before, last := ops[..n], ops[n];
      assert ops == before + [last];
      RunKeepsInv(before);
      AccessIffAdmittedLast(before, room, user);
      AccessAfter(Run(before), last, room, user);
      forall i | 0 <= i < n
        ensures AdmittedSince(ops, room, user, i)
           <==> AdmittedSince(before, room, user, i) && !(Apply(Run(before), last).Ok? && Expels(last, room, user))
      {
        AdmittedSinceBefore(before, last, room, user, i);
      }
      assert AdmittedSince(ops, room, user, n) <==>
        Apply(Run(before), last).Ok? && Admits(Run(before), last, room, user);
    }
  }

  /**
   * Newcomers enter a room they create, a public room by joining, any other by a pending invitation; never
   * while banned.
   */
  lemma AdmissionIsEarned(t: Tables, op: Op, room: RoomId, user: UserId)
    requires Inv(t) && !HasAccess(t, room, user) && HasAccess(Step(t, op), room, user)
    ensures op.OpCreate? || !IsBanned(t, room, user)
    ensures match op
      case OpCreate(owner, _, _, id) => room !in t.rooms && owner == user
      case OpJoin(r, u) => r == room && u == user && t.rooms[room].visibility == Public
      case OpAccept(i, actor) =>
        actor == user && i in t.invitations && t.invitations[i].room == room
        && t.invitations[i].invited == user && t.invitations[i].status == Pending
      case _ => false
  {
    AccessIsGainedByAdmission(t, op, room, user);
  }

  function RankOf(t: Tables, room: RoomId, user: UserId): (rank: nat) {
    if HasRole(t, room, user, Owner) then 3
    else if HasRole(t, room, user, Admin) then 2
    else if HasRole(t, room, user, Member) then 1
    else 0
  }

  /** Removing and banning follow rank: it works exactly on members of a strictly lower rank, for owner and admins. */
  lemma BanFollowsRank(ops: seq<Op>, room: RoomId, actor: UserId, target: UserId, removal: Removal)
    ensures var t := Run(ops);
      CreateRoomBan(t, room, actor, target, removal).Ok? <==>
        1 <= RankOf(t, room, target) < RankOf(t, room, actor)
  {
    RunKeepsInv(ops);
  }

  /** A ban takes the target's membership and read state and nobody else's; lifting it gives neither back. */
  lemma BanThenUnban(t: Tables, room: RoomId, actor: UserId, target: UserId, removal: Removal, now: Time)
    requires CreateRoomBan(t, room, actor, target, removal).Ok?
    ensures
      var banned := CreateRoomBan(t, room, actor, target, removal).value;
      && IsBanned(banned, room, target) && JoinRoom(banned, room, target).Err?
      && banned.members == t.members - {(room, target)} && banned.readStates == t.readStates - {(room, target)}
      && RemoveRoomBan(banned, room, actor, target, now).Ok?
      && var lifted := RemoveRoomBan(banned, room, actor, target, now).value;
      && !IsBanned(lifted, room, target) && lifted.members == banned.members
      && (JoinRoom(lifted, room, target).Ok? <==> t.rooms[room].visibility == Public)
  {
    var k := (room, target);
    var banned := t.(
      members := t.members - {k}, readStates := t.readStates - {k}, bans := t.bans[k := Ban(actor, None)]);
    assert CreateRoomBan(t, room, actor, target, removal)
        == Ok(Logged(banned, ActionOf(removal), actor, Some(target), room));
    assert actor != target;
  }

  lemma OtherCallsKeepRoles(t: Tables, op: Op, room: RoomId, user: UserId)
    requires room in t.rooms && IsMember(t, room, user) && IsMember(Step(t, op), room, user)
    requires !op.OpPromote? && !op.OpDemote?
    ensures Step(t, op).members[(room, user)] == t.members[(room, user)]
  {
  }

  /** Roles of members change only by a promotion through the owner or a demotion through other staff. */
  lemma RolesChangeOnlyByStaff(t: Tables, op: Op, room: RoomId, user: UserId)
    requires Inv(t) && IsMember(t, room, user) && IsMember(Step(t, op), room, user)
    requires t.members[(room, user)] != Step(t, op).members[(room, user)]
    ensures match op
      case OpPromote(r, actor, target) =>
        r == room && target == user && actor == t.rooms[room].owner
        && HasRole(t, room, user, Member) && HasRole(Step(t, op), room, user, Admin)
      case OpDemote(r, actor, target) =>
        r == room && target == user && IsStaff(t, room, actor) && actor != user
        && HasRole(t, room, user, Admin) && HasRole(Step(t, op), room, user, Member)
      case _ => false
  {
    if !op.OpPromote? && !op.OpDemote? {
      OtherCallsKeepRoles(t, op, room, user);
    }
  }

  /** The unique constraints hold without the database: room names, and one pending invitation per room and user. */
  ghost predicate NamesAreUnique(t: Tables) {
    forall r, s | r in t.rooms && s in t.rooms && r != s :: t.rooms[r].name != t.rooms[s].name
  }

  ghost predicate InvitationsAreUnique(t: Tables) {
    forall i, j | i in t.invitations && j in t.invitations && i != j
                  && t.invitations[i].status == Pending && t.invitations[j].status == Pending ::
      t.invitations[i].room != t.invitations[j].room || t.invitations[i].invited != t.invitations[j].invited
  }

  ghost predicate IsUnique(t: Tables) {
    NamesAreUnique(t) && InvitationsAreUnique(t)
  }

  lemma StepKeepsNames(t: Tables, op: Op)
    requires NamesAreUnique(t)
    ensures NamesAreUnique(Step(t, op))
  {
  }

  lemma StepKeepsInvitations(t: Tables, op: Op)
    requires InvitationsAreUnique(t)
    ensures InvitationsAreUnique(Step(t, op))
  {
  }

  lemma {:induction false} NamesAndInvitationsStayUnique(ops: seq<Op>)
    ensures IsUnique(Run(ops))
  {
    if ops != [] {
      NamesAndInvitationsStayUnique(ops[..|ops| - 1]);
      StepKeepsNames(Run(ops[..|ops| - 1]), ops[|ops| - 1]);
      StepKeepsInvitations(Run(ops[..|ops| - 1]), ops[|ops| - 1]);
    }
  }

  lemma RunSnoc(ops: seq<Op>, op: Op)
    ensures Run(ops + [op]) == Step(Run(ops), op)
  {
    assert (ops + [op])[..|ops|] == ops;
  }
}

/** The room service: one method per transaction, each committing or rolling back. */
module RoomService {
  import opened Wrappers
  import opened UserPair
  import opened RoomTables

  /** The call did what the transaction `op` does to the tables, or failed and left them alone. */
  ghost predicate Transacts<T>(before: Tables, op: Op, r: Result<T, Error>, after: Tables) {
    match Apply(before, op)
    case Ok(next) => r.Ok? && after == next
    case Err(e) => r == Err(e) && after == before
  }

  class RoomStore {
    var rooms: map<RoomId, Room>
    var members: map<RoomUser, Role>
    var bans: map<RoomUser, Ban>
    var readStates: map<RoomUser, Time>
    var invitations: map<InvitationId, Invitation>
    var events: seq<Event>
    /** The calls made so far. */
    ghost var ops: seq<Op>

    constructor ()
      ensures Valid() && ops == [] && Contents() == EMPTY
    {
      rooms, members, bans, readStates, invitations, events := map[], map[], map[], map[], map[], [];
      ops := [];
    }

    function Contents(): (t: Tables)
      reads this
    {
      Tables(rooms, members, bans, readStates, invitations, events)
    }

    /** The tables are those of the run of calls so far, so every property of runs is theirs. */
    ghost predicate Valid()
      reads this
    {
      Contents() == Run(ops)
    }

    ghost method Record(op: Op)
      modifies this`ops
      ensures ops == old(ops) + [op] && Run(ops) == Step(Run(old(ops)), op)
    {
      RunSnoc(ops, op);
      ops := ops + [op];
    }

    function RoleOf(room: RoomId, user: UserId): (r: Option<Role>)
      reads this
    {
      if (room, user) in members then Some(members[(room, user)]) else None
    }

    predicate ActiveBan(room: RoomId, user: UserId)
      reads this
    {
      (room, user) in bans && bans[(room, user)].removedAt == None
    }

    /** `require_room_message_access`, and the gate of live access. */
    predicate MayAccess(room: RoomId, user: UserId)
      reads this
      ensures MayAccess(room, user) <==> HasAccess(Contents(), room, user)
    {
      room in rooms && (room, user) in members && !ActiveBan(room, user)
    }

    method Log(action: Action, actor: UserId, target: Option<UserId>, room: RoomId)
      modifies this`events
      ensures events == old(events) + [Event(action, actor, target, Some(room))]
    {
      events := events + [Event(action, actor, target, Some(room))];
    }

    method CreateRoom(
      owner: UserId, name: string, visibility: Visibility, id: RoomId) returns (r: Result<RoomId, Error>)
      requires Valid()
      modifies this
      ensures Valid() && ops == old(ops) + [OpCreate(owner, name, visibility, id)]
      ensures Transacts(old(Contents()), OpCreate(owner, name, visibility, id), r, Contents())
    {
      Record(OpCreate(owner, name, visibility, id));
      if name == "" || id in rooms || exists k | k in rooms :: rooms[k].name == name {
        return Err(Integrity);
      }
      rooms := rooms[id := Room(name, visibility, owner)];
      members := members[(id, owner) := Owner];
      Log(RoomCreated, owner, None, id);
      r := Ok(id);
    }

    method UpdateRoom(
      room: RoomId, actor: UserId, name: Option<string>, visibility: Option<Visibility>)
        returns (r: Result<(), Error>)
      requires Valid()
      modifies this
      ensures Valid() && ops == old(ops) + [OpUpdate(room, actor, name, visibility)]
      ensures Transacts(old(Contents()), OpUpdate(room, actor, name, visibility), r, Contents())
    {
      Record(OpUpdate(room, actor, name, visibility));
      if room !in rooms {
        return Err(NotFound);
      }
      if rooms[room].owner != actor {
        return Err(Forbidden);
      }
      var row := rooms[room];
      if name.Some? {
        row := row.(name := name.value);
      }
      if visibility.Some? {
        row := row.(visibility := visibility.value);
      }
      if row.name == "" || exists k | k in rooms :: rooms[k].name == row.name && k != room {
        return Err(Integrity);
      }
      rooms := rooms[room := row];
      Log(RoomUpdated, actor, None, room);
      r := Ok(());
    }

    /** The cascades of a deleted room. */
    method Cascade(room: RoomId)
      modifies this`rooms, this`members, this`bans, this`readStates, this`invitations, this`events
      ensures Contents() == Purge(old(Contents()), room)
    {
      events := Detach(events, room);
      members := map k | k in members && k.0 != room :: members[k];
      bans := map k | k in bans && k.0 != room :: bans[k];
      readStates := map k | k in readStates && k.0 != room :: readStates[k];
      invitations := map i | i in invitations && invitations[i].room != room :: invitations[i];
      rooms := rooms - {room};
    }

    /** The room's own part of its deletion: the message store takes the messages along. */
    method DeleteRoomRows(room: RoomId, actor: UserId) returns (r: Result<(), Error>)
      requires Valid()
      modifies this
      ensures Valid() && ops == old(ops) + [OpDelete(room, actor)]
      ensures Transacts(old(Contents()), OpDelete(room, actor), r, Contents())
    {
      Record(OpDelete(room, actor));
      if room !in rooms {
        return Err(NotFound);
      }
      if rooms[room].owner != actor {
        return Err(Forbidden);
      }
      Log(RoomDeleted, actor, None, room);
      Cascade(room);
      r := Ok(());
    }

    method JoinRoom(room: RoomId, user: UserId) returns (r: Result<(), Error>)
      requires Valid()
      modifies this
      ensures Valid() && ops == old(ops) + [OpJoin(room, user)]
      ensures Transacts(old(Contents()), OpJoin(room, user), r, Contents())
    {
      Record(OpJoin(room, user));
      if room !in rooms {
        return Err(NotFound);
      }
      if rooms[room].visibility != Public {
        return Err(Forbidden);
      }
      if ActiveBan(room, user) {
        return Err(Forbidden);
      }
      if (room, user) in members {
        return Err(Conflict);
      }
      members := members[(room, user) := Member];
      r := Ok(());
    }

    method LeaveRoom(room: RoomId, user: UserId) returns (r: Result<(), Error>)
      requires Valid()
      modifies this
      ensures Valid() && ops == old(ops) + [OpLeave(room, user)]
      ensures Transacts(old(Contents()), OpLeave(room, user), r, Contents())
    {
      Record(OpLeave(room, user));
      if room !in rooms {
        return Err(NotFound);
      }
      if (room, user) !in members {
        return Err(Conflict);
      }
      if members[(room, user)] == Owner || rooms[room].owner == user {
        return Err(Forbidden);
      }
      members := members - {(room, user)};
      readStates := readStates - {(room, user)};
      r := Ok(());
    }

    method CreateRoomInvitation(
      room: RoomId, actor: UserId, invited: UserId, id: InvitationId) returns (r: Result<InvitationId, Error>)
      requires Valid()
      modifies this
      ensures Valid() && ops == old(ops) + [OpInvite(room, actor, invited, id)]
      ensures Transacts(old(Contents()), OpInvite(room, actor, invited, id), r, Contents())
    {
      Record(OpInvite(room, actor, invited, id));
      if room !in rooms {
        return Err(NotFound);
      }
      if RoleOf(room, actor) != Some(Owner) && RoleOf(room, actor) != Some(Admin) {
        return Err(Forbidden);
      }
      if rooms[room].visibility != Private {
        return Err(Conflict);
      }
      if invited == actor {
        return Err(Validation);
      }
      if ActiveBan(room, invited) {
        return Err(Forbidden);
      }
      if (room, invited) in members {
        return Err(Conflict);
      }
      if exists i | i in invitations ::
           invitations[i].room == room && invitations[i].invited == invited && invitations[i].status == Pending {
        return Err(Conflict);
      }
      if id in invitations {
        return Err(Integrity);
      }
      invitations := invitations[id := Invitation(room, invited, actor, Pending)];
      r := Ok(id);
    }

    method AcceptRoomInvitation(id: InvitationId, actor: UserId) returns (r: Result<(), Error>)
      requires Valid()
      modifies this
      ensures Valid() && ops == old(ops) + [OpAccept(id, actor)]
      ensures Transacts(old(Contents()), OpAccept(id, actor), r, Contents())
    {
      Record(OpAccept(id, actor));
      if id !in invitations || invitations[id].invited != actor {
        return Err(NotFound);
      }
      if invitations[id].status != Pending {
        return Err(Conflict);
      }
      var room := invitations[id].room;
      if ActiveBan(room, actor) {
        return Err(Forbidden);
      }
      if (room, actor) !in members {
        members := members[(room, actor) := Member];
      }
      invitations := invitations[id := invitations[id].(status := Accepted)];
      r := Ok(());
    }

    method RejectRoomInvitation(id: InvitationId, actor: UserId) returns (r: Result<(), Error>)
      requires Valid()
      modifies this
      ensures Valid() && ops == old(ops) + [OpReject(id, actor)]
      ensures Transacts(old(Contents()), OpReject(id, actor), r, Contents())
    {
      Record(OpReject(id, actor));
      if id !in invitations || invitations[id].invited != actor {
        return Err(NotFound);
      }
      if invitations[id].status != Pending {
        return Err(Conflict);
      }
      invitations := invitations[id := invitations[id].(status := Rejected)];
      r := Ok(());
    }

    method PromoteRoomAdmin(room: RoomId, actor: UserId, target: UserId) returns (r: Result<(), Error>)
      requires Valid()
      modifies this
      ensures Valid() && ops == old(ops) + [OpPromote(room, actor, target)]
      ensures Transacts(old(Contents()), OpPromote(room, actor, target), r, Contents())
    {
      Record(OpPromote(room, actor, target));
      if room !in rooms {
        return Err(NotFound);
      }
      if RoleOf(room, actor) != Some(Owner) {
        return Err(Forbidden);
      }
      match RoleOf(room, target)
      case None => return Err(NotFound);
      case Some(Owner) => return Err(Forbidden);
      case Some(Admin) => return Err(Conflict);
      case Some(Member) =>
        members := members[(room, target) := Admin];
        Log(AdminPromoted, actor, Some(target), room);
        r := Ok(());
    }

    method DemoteRoomAdmin(room: RoomId, actor: UserId, target: UserId) returns (r: Result<(), Error>)
      requires Valid()
      modifies this
      ensures Valid() && ops == old(ops) + [OpDemote(room, actor, target)]
      ensures Transacts(old(Contents()), OpDemote(room, actor, target), r, Contents())
    {
      Record(OpDemote(room, actor, target));
      if room !in rooms {
        return Err(NotFound);
      }
      if RoleOf(room, actor) != Some(Owner) && RoleOf(room, actor) != Some(Admin) {
        return Err(Forbidden);
      }
      match RoleOf(room, target)
      case None => return Err(NotFound);
      case Some(Owner) => return Err(Forbidden);
      case Some(Member) => return Err(Conflict);
      case Some(Admin) =>
        if RoleOf(room, actor) == Some(Admin) && target == actor {
          return Err(Forbidden);
        }
        members := members[(room, target) := Member];
        Log(AdminDemoted, actor, Some(target), room);
        r := Ok(());
    }

    /** `_get_room_member_for_moderation`: why the actor may not moderate the target, if so. */
    method CheckModeration(room: RoomId, actor: UserId, target: UserId) returns (refusal: Option<Error>)
      ensures refusal == ModerationRefusal(Contents(), room, actor, target)
    {
      if room !in rooms {
        return Some(NotFound);
      }
      var actorRole, role := RoleOf(room, actor), RoleOf(room, target);
      if actorRole != Some(Owner) && actorRole != Some(Admin) {
        return Some(Forbidden);
      }
      if role == None {
        return Some(NotFound);
      }
      if role == Some(Owner) {
        return Some(Forbidden);
      }
      if actorRole == Some(Admin) && role == Some(Admin) {
        return Some(Forbidden);
      }
      refusal := None;
    }

    /**
     * The transaction of `create_room_ban`. The membership and read state go before a ban in force would be
     * noticed; a rollback brings them back.
     */
    method BanMember(room: RoomId, actor: UserId, target: UserId, removal: Removal) returns (r: Result<(), Error>)
      modifies this`members, this`readStates, this`bans, this`events
      ensures Transacts(old(Contents()), OpBan(room, actor, target, removal), r, Contents())
    {
      var refusal := CheckModeration(room, actor, target);
      if refusal.Some? {
        return Err(refusal.value);
      }
      var k := (room, target);
      var savedMembers, savedReadStates := members, readStates;
      members := members - {k};
      readStates := readStates - {k};
      var created := k !in bans;
      if !created && bans[k].removedAt == None {
        members, readStates := savedMembers, savedReadStates;
        return Err(AlreadyBanned);
      }
      bans := bans[k := Ban(actor, None)];
      Log(ActionOf(removal), actor, Some(target), room);
      r := Ok(());
    }

    method CreateRoomBan(room: RoomId, actor: UserId, target: UserId, removal: Removal) returns (r: Result<(), Error>)
      requires Valid()
      modifies this
      ensures Valid() && ops == old(ops) + [OpBan(room, actor, target, removal)]
      ensures Transacts(old(Contents()), OpBan(room, actor, target, removal), r, Contents())
    {
      Record(OpBan(room, actor, target, removal));
      r := BanMember(room, actor, target, removal);
    }

    method RemoveRoomBan(room: RoomId, actor: UserId, target: UserId, now: Time) returns (r: Result<(), Error>)
      requires Valid()
      modifies this
      ensures Valid() && ops == old(ops) + [OpUnban(room, actor, target, now)]
      ensures Transacts(old(Contents()), OpUnban(room, actor, target, now), r, Contents())
    {
      Record(OpUnban(room, actor, target, now));
      if room !in rooms {
        return Err(NotFound);
      }
      if RoleOf(room, actor) != Some(Owner) && RoleOf(room, actor) != Some(Admin) {
        return Err(Forbidden);
      }
      if !ActiveBan(room, target) {
        return Err(NotFound);
      }
      bans := bans[(room, target) := bans[(room, target)].(removedAt := Some(now))];
      Log(MemberUnbanned, actor, Some(target), room);
      r := Ok(());
    }

    method MarkRoomRead(room: RoomId, user: UserId, latest: Option<Time>, now: Time) returns (r: Result<(), Error>)
      requires Valid()
      modifies this
      ensures Valid() && ops == old(ops) + [OpMarkRead(room, user, latest, now)]
      ensures Transacts(old(Contents()), OpMarkRead(room, user, latest, now), r, Contents())
    {
      Record(OpMarkRead(room, user, latest, now));
      if !MayAccess(room, user) {
        return Err(NotFound);
      }
      readStates := readStates[(room, user) := if latest.Some? then latest.value else now];
      r := Ok(());
    }
  }
}
