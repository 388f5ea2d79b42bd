/** Presence over the connection registry, the legacy SQL rows, and the parity check between them. */
module PresenceService {
  import opened Wrappers
  import opened UserPair
  import opened ConnectionRegistry
  import Sorting

  /** In microseconds, like every time of the model. */
  const AFK_TIMEOUT: Time := 60_000_000

  datatype Presence = Offline | Afk | Online

  function Rank(p: Presence): (r: nat) {
    match p case Offline => 0 case Afk => 1 case Online => 2
  }

  predicate IsActiveAt(s: Snapshot, now: Time) {
    s.isActive || s.lastInteractionAt > now - AFK_TIMEOUT
  }

  function ComputePresence(connections: seq<Snapshot>, now: Time): (p: Presence) {
    if connections == [] then Offline
    else if exists c | c in connections :: IsActiveAt(c, now) then Online
    else Afk
  }

  /** The same over a set: presence does not depend on the order of connections. */
  ghost function PresenceOf(connections: set<Snapshot>, now: Time): (p: Presence) {
    if connections == {} then Offline
    else if exists c | c in connections :: IsActiveAt(c, now) then Online
    else Afk
  }

  lemma ComputeIsPresenceOf(r: seq<Snapshot>, s: set<Snapshot>, now: Time)
    requires forall x :: x in r <==> x in s
    ensures ComputePresence(r, now) == PresenceOf(s, now)
  {
    if r != [] {
      assert r[0] in s;
    }
  }

  /** A row of the legacy table; it is open while `disconnectedAt` is absent. */
  datatype Row = Row(snapshot: Snapshot, disconnectedAt: Option<Time>)

  datatype UserRow = UserRow(presence: Presence, lastChangedAt: Time)

  datatype Flags = Flags(redisPresence: bool, legacySql: bool, parityVerification: bool)

  datatype Update = Update(user: UserId, presence: Presence, lastChangedAt: Time)

  datatype Mismatch =
    | PresenceMismatch(redis: Presence, sql: Presence)
    | CountMismatch(redisCount: nat, sqlCount: nat)
    | UnexpectedPresence(redis: Presence)

  /** One entry for each difference, presence first; the third kind never occurs, as presence has no other value. */
  function MismatchesOf(redis: Presence, sql: Presence, redisCount: nat, sqlCount: nat): (r: seq<Mismatch>)
    ensures r == [] <==> redis == sql && redisCount == sqlCount
  {
    (if redis != sql then [PresenceMismatch(redis, sql)] else [])
    + if redisCount != sqlCount then [CountMismatch(redisCount, sqlCount)] else []
  }

  predicate IsOpen(rows: map<ConnKey, Row>, k: ConnKey) {
    k in rows && rows[k].disconnectedAt == None
  }

  ghost function OpenSet(rows: map<ConnKey, Row>, user: UserId): (s: set<Snapshot>) {
    set k | k in rows && IsOpen(rows, k) && rows[k].snapshot.userId == user :: rows[k].snapshot
  }

  ghost function LiveSet(latest: map<ConnKey, Snapshot>, user: UserId, now: Time, ttl: nat): (s: set<Snapshot>) {
    set k | k in latest && latest[k].userId == user && Fresh(latest[k], now, ttl) :: latest[k]
  }

  ghost predicate KeyedByConnection(rows: map<ConnKey, Row>) {
    forall k | k in rows :: rows[k].snapshot.connectionKey == k
  }

  /** The open rows are exactly the registrations, field by field. */
  ghost predicate Mirrors(rows: map<ConnKey, Row>, latest: map<ConnKey, Snapshot>) {
    && (forall k :: k in latest <==> IsOpen(rows, k))
    && (forall k | k in latest :: rows[k].snapshot == latest[k])
  }

  /** An open row of the user whose heartbeat is older than the TTL. */
  ghost predicate SomeRowLapsed(rows: map<ConnKey, Row>, user: UserId, now: Time, ttl: nat) {
    exists k :: IsOpen(rows, k) && rows[k].snapshot.userId == user && !Fresh(rows[k].snapshot, now, ttl)
  }

  /**
   * While the stores mirror each other, the live connections are the open rows that have not lapsed.
   * Presence and count agree exactly when no open row has lapsed, and Redis never ranks above SQL.
   */
  lemma ParityIffNothingLapsed(
    rows: map<ConnKey, Row>, latest: map<ConnKey, Snapshot>, user: UserId, now: Time, ttl: nat)
    requires Mirrors(rows, latest) && KeyedByConnection(rows)
    ensures var live, open := LiveSet(latest, user, now, ttl), OpenSet(rows, user);
      && live == (set s | s in open && Fresh(s, now, ttl))
      && (|live| == |open| && PresenceOf(live, now) == PresenceOf(open, now) <==> !SomeRowLapsed(rows, user, now, ttl))
      && Rank(PresenceOf(live, now)) <= Rank(PresenceOf(open, now))
  {
    var live, open := LiveSet(latest, user, now, ttl), OpenSet(rows, user);
    forall s ensures s in live <==> s in open && Fresh(s, now, ttl) {
      if s in live {
        var k :| k in latest && latest[k] == s;
        assert IsOpen(rows, k) && rows[k].snapshot == s;
      }
      if s in open && Fresh(s, now, ttl) {
        var k :| k in rows && IsOpen(rows, k) && rows[k].snapshot == s && s.userId == user;
        assert k in latest && latest[k] == s;
      }
    }
    assert live <= open;
    if SomeRowLapsed(rows, user, now, ttl) {
      var k :| IsOpen(rows, k) && rows[k].snapshot.userId == user && !Fresh(rows[k].snapshot, now, ttl);
      assert rows[k].snapshot in open && rows[k].snapshot !in live;
      Smaller(live, open);
    } else {
      forall s | s in open ensures s in live {
        var k :| k in rows && IsOpen(rows, k) && rows[k].snapshot == s && s.userId == user;
        assert Fresh(rows[k].snapshot, now, ttl);
      }
      assert open == live;
    }
  }

  lemma Smaller<T>(a: set<T>, b: set<T>)
    requires a < b
    ensures |a| < |b|
  {
    assert b == a + (b - a);
    assert |b| == |a| + |b - a|;
    assert b - a != {};
  }

  lemma {:induction false} DistinctCount<T>(r: seq<T>, s: set<T>)
    requires Sorting.Distinct(r) && forall x :: x in r <==> x in s
    ensures |r| == |s|
  {
    if r == [] {
      assert s == {};
    } else {
      var n := |r| - 1;
      var shorter := r[..n];
      assert r == shorter + [r[n]];
      forall x ensures x in shorter <==> x in s - {r[n]} {}
      DistinctCount(shorter, s - {r[n]});
      assert r[n] in s;
    }
  }

  /** The rows after the user's connection `key`, if open, is stamped as disconnected. */
  function ClosedRows(rows: map<ConnKey, Row>, user: UserId, key: ConnKey, now: Time): (r: map<ConnKey, Row>)
    ensures KeyedByConnection(rows) ==> KeyedByConnection(r)
  {
    if IsOpen(rows, key) && rows[key].snapshot.userId == user
    then rows[key := rows[key].(disconnectedAt := Some(now))] else rows
  }

  lemma RegisteringKeepsMirror(
    rows: map<ConnKey, Row>, latest: map<ConnKey, Snapshot>, s: Snapshot, nextRows: map<ConnKey, Row>,
    next: map<ConnKey, Snapshot>)
    requires Mirrors(rows, latest)
    requires nextRows == rows[s.connectionKey := Row(s, None)] && next == latest[s.connectionKey := s]
    ensures Mirrors(nextRows, next)
  {
  }

  lemma ClosingKeepsMirror(
    rows: map<ConnKey, Row>, latest: map<ConnKey, Snapshot>, user: UserId, key: ConnKey, now: Time,
    next: map<ConnKey, Snapshot>)
    requires Mirrors(rows, latest) && next == latest - {key}
    requires key in latest ==> latest[key].userId == user
    ensures Mirrors(ClosedRows(rows, user, key, now), next)
  {
  }

  class Service {
    const flags: Flags
    const registry: Registry
    var rows: map<ConnKey, Row>
    var users: map<UserId, UserRow>

    constructor (flags: Flags, registry: Registry, users: map<UserId, UserRow>)
      requires registry.Valid() && registry.history == []
      ensures Valid() && this.flags == flags && this.registry == registry && this.users == users && rows == map[]
    {
      this.flags, this.registry, this.users, rows := flags, registry, users, map[];
    }

    ghost predicate Valid()
      reads this, registry, registry.client
    {
      && registry.Valid()
      && KeyedByConnection(rows)
      && (flags.redisPresence && flags.legacySql ==> Mirrors(rows, registry.Latest()))
    }

    /** The connections presence is computed from: live ones in Redis, or all open rows in SQL. */
    ghost function Considered(user: UserId): (s: set<Snapshot>)
      reads this, registry, registry.client
    {
      if flags.redisPresence then LiveSet(registry.Latest(), user, registry.client.clock, registry.ttl)
      else OpenSet(rows, user)
    }

    /** Time passes; heartbeats grow old, nothing else changes. */
    method Tick(delta: nat)
      requires Valid()
      modifies registry.client`clock
      ensures Valid() && registry.client.clock == old(registry.client.clock) + delta
    {
      registry.Tick(delta);
    }

    method ListRedis(user: UserId) returns (r: seq<Snapshot>)
      requires Valid()
      modifies registry.client`sets
      ensures Valid()
      ensures forall s :: s in r <==> s in LiveSet(registry.Latest(), user, registry.client.clock, registry.ttl)
      ensures Sorting.Distinct(r)
    {
      r := registry.ListConnections(user);
      forall s ensures s in r <==> s in LiveSet(registry.Latest(), user, registry.client.clock, registry.ttl) {}
    }

    /** The user's open rows. */
    method OpenRows(user: UserId) returns (r: seq<Snapshot>)
      requires KeyedByConnection(rows)
      ensures forall s :: s in r <==> s in OpenSet(rows, user)
      ensures Sorting.Distinct(r)
    {
      var keys := SortedKeys(set k | k in rows && IsOpen(rows, k) && rows[k].snapshot.userId == user);
      var table := rows;
      assert forall i | 0 <= i < |keys| :: keys[i] in keys;
      r := seq(|keys|, i requires 0 <= i < |keys| && keys[i] in table => table[keys[i]].snapshot);
      forall s ensures s in r <==> s in OpenSet(rows, user) {
        if s in r {
          var i :| 0 <= i < |r| && r[i] == s;
          assert keys[i] in keys;
        }
        if s in OpenSet(rows, user) {
          var k :| k in rows && IsOpen(rows, k) && rows[k].snapshot.userId == user && rows[k].snapshot == s;
          assert k in keys;
          var i :| 0 <= i < |keys| && keys[i] == k;
          assert r[i] == s;
        }
      }
      forall i, j | 0 <= i < j < |r| ensures r[i] != r[j] {
        assert keys[i] in keys && keys[j] in keys;
        assert r[i].connectionKey == keys[i] && r[j].connectionKey == keys[j];
      }
    }

    /** Stores the presence its connections amount to; the change time moves only with the state. */
    method RecomputeUserPresence(user: UserId) returns (presence: Presence, lastChangedAt: Time)
      requires Valid() && user in users
      modifies this`users, registry.client`sets
      ensures Valid()
      ensures presence == PresenceOf(Considered(user), registry.client.clock)
      ensures users == old(users)[user :=
        if presence == old(users)[user].presence then old(users)[user] else UserRow(presence, registry.client.clock)]
      ensures lastChangedAt == users[user].lastChangedAt
    {
      var connections;
      if flags.redisPresence {
        connections := ListRedis(user);
      } else {
        connections := OpenRows(user);
      }
      presence := ComputePresence(connections, registry.client.clock);
      ComputeIsPresenceOf(connections, Considered(user), registry.client.clock);
      lastChangedAt := users[user].lastChangedAt;
      if presence != users[user].presence {
        users := users[user := UserRow(presence, registry.client.clock)];
        lastChangedAt := registry.client.clock;
      }
    }

    method LegacyUpsert(snapshot: Snapshot)
      modifies this`rows
      ensures rows == old(rows)[snapshot.connectionKey := Row(snapshot, None)]
    {
      rows := rows[snapshot.connectionKey := Row(snapshot, None)];
    }

    method LegacyClose(user: UserId, key: ConnKey)
      modifies this`rows
      ensures rows == ClosedRows(old(rows), user, key, registry.client.clock)
    {
      if IsOpen(rows, key) && rows[key].snapshot.userId == user {
        rows := rows[key := rows[key].(disconnectedAt := Some(registry.client.clock))];
      }
    }

    /** What both calls end with: recompute, check parity if asked to, and report a change of presence. */
    method RecomputeAndReport(user: UserId) returns (payload: Option<Update>)
      requires Valid() && user in users
      modifies this`users, registry.client`sets
      ensures Valid() && user in users && users - {user} == old(users) - {user}
      ensures users[user].presence == PresenceOf(Considered(user), registry.client.clock)
      ensures payload == if users[user].presence == old(users)[user].presence then None
        else Some(Update(user, users[user].presence, registry.client.clock))
    {
      var previous := users[user].presence;
      var presence, lastChangedAt := RecomputeUserPresence(user);
      if flags.redisPresence && flags.legacySql && flags.parityVerification {
        var _ := CheckParity(user);
      }
      payload := if presence == previous then None else Some(Update(user, presence, lastChangedAt));
    }

    method UpsertPresenceConnection(
      user: UserId, key: ConnKey, sessionId: Option<string>, tabId: Option<string>, isActive: bool,
      lastInteractionAt: Option<Time>) returns (payload: Option<Update>)
      requires Valid() && registry.owner(key) == user && user in users
      modifies this`rows, this`users, registry, registry.client`values, registry.client`sets
      ensures Valid() && user in users
      ensures users[user].presence == PresenceOf(Considered(user), registry.client.clock)
      ensures payload == if users[user].presence == old(users)[user].presence then None
        else Some(Update(user, users[user].presence, registry.client.clock))
      ensures users - {user} == old(users) - {user}
      ensures var snapshot :=
          NewSnapshot(user, key, sessionId, tabId, isActive, lastInteractionAt, registry.client.clock);
        && registry.history
             == (if flags.redisPresence then old(registry.history) + [Registered(snapshot)] else old(registry.history))
        && rows
             == (if flags.redisPresence && !flags.legacySql then old(rows) else old(rows)[key := Row(snapshot, None)])
    {
      var snapshot := NewSnapshot(user, key, sessionId, tabId, isActive, lastInteractionAt, registry.client.clock);
      ghost var before := rows;
      if !flags.redisPresence || flags.legacySql {
        LegacyUpsert(snapshot);
      }
      if flags.redisPresence {
        ghost var history := registry.history;
        var _ := registry.RegisterConnection(
          user, key, sessionId, snapshot.tabId, isActive, snapshot.lastInteractionAt);
        ReplayStep(history, Registered(snapshot));
        if flags.legacySql {
          RegisteringKeepsMirror(before, Replay(history), snapshot, rows, registry.Latest());
        }
      }
      payload := RecomputeAndReport(user);
    }

    method ClosePresenceConnection(user: UserId, key: ConnKey) returns (payload: Option<Update>)
      requires Valid() && registry.owner(key) == user && user in users
      modifies this`rows, this`users, registry, registry.client`values, registry.client`sets
      ensures Valid() && user in users
      ensures users[user].presence == PresenceOf(Considered(user), registry.client.clock)
      ensures payload == if users[user].presence == old(users)[user].presence then None
        else Some(Update(user, users[user].presence, registry.client.clock))
      ensures users - {user} == old(users) - {user}
      ensures registry.history
           == if flags.redisPresence then old(registry.history) + [Unregistered(key)] else old(registry.history)
      ensures rows == if flags.redisPresence && !flags.legacySql then old(rows)
        else ClosedRows(old(rows), user, key, registry.client.clock)
    {
      ghost var before, history := rows, registry.history;
      if !flags.redisPresence || flags.legacySql {
        LegacyClose(user, key);
      }
      if flags.redisPresence {
        var _ := registry.UnregisterConnection(user, key);
        ReplayStep(history, Unregistered(key));
        if flags.legacySql {
          ClosingKeepsMirror(before, Replay(history), user, key, registry.client.clock, registry.Latest());
        }
      }
      payload := RecomputeAndReport(user);
    }

    method CompareToLegacySql(
      user: UserId, redisConnections: seq<Snapshot>, now: Time) returns (mismatches: seq<Mismatch>)
      requires KeyedByConnection(rows)
      ensures mismatches == MismatchesOf(
        ComputePresence(redisConnections, now), PresenceOf(OpenSet(rows, user), now),
        |redisConnections|, |OpenSet(rows, user)|)
    {
      var sqlConnections := OpenRows(user);
      mismatches := [];
      var redis := ComputePresence(redisConnections, now);
      var sql := ComputePresence(sqlConnections, now);
      ComputeIsPresenceOf(sqlConnections, OpenSet(rows, user), now);
      DistinctCount(sqlConnections, OpenSet(rows, user));
      if redis != sql {
        mismatches := mismatches + [PresenceMismatch(redis, sql)];
      }
      if |redisConnections| != |sqlConnections| {
        mismatches := mismatches + [CountMismatch(|redisConnections|, |sqlConnections|)];
      }
      if redis !in {Offline, Afk, Online} {
        mismatches := mismatches + [UnexpectedPresence(redis)];
      }
    }

    /** With dual writing on, the check reports nothing exactly when no open row of the user has lapsed. */
    method CheckParity(user: UserId) returns (mismatches: seq<Mismatch>)
      requires Valid() && flags.redisPresence && flags.legacySql
      modifies registry.client`sets
      ensures Valid()
      ensures mismatches == [] <==> !SomeRowLapsed(rows, user, registry.client.clock, registry.ttl)
    {
      var now := registry.client.clock;
      var connections := ListRedis(user);
      ghost var live := LiveSet(registry.Latest(), user, now, registry.ttl);
      ComputeIsPresenceOf(connections, live, now);
      DistinctCount(connections, live);
      ParityIffNothingLapsed(rows, registry.Latest(), user, now, registry.ttl);
      mismatches := CompareToLegacySql(user, connections, now);
    }
  }

  function NewSnapshot(
    user: UserId, key: ConnKey, sessionId: Option<string>, tabId: Option<string>, isActive: bool,
    lastInteractionAt: Option<Time>, now: Time): (s: Snapshot)
  {
    Snapshot(
      key, user, sessionId, if tabId == None || tabId.value == "" then key else tabId.value, isActive,
      if lastInteractionAt == None then now else lastInteractionAt.value, now, now)
  }
}
