/** The TTL-backed connection index of the presence service. */
module ConnectionRegistry {
  import opened Wrappers
  import opened UserPair
  import Sorting
  import Text

  type Time = int
  type ConnKey = string

  datatype Snapshot = Snapshot(
    connectionKey: ConnKey, userId: UserId, sessionId: Option<string>, tabId: string, isActive: bool,
    lastInteractionAt: Time, lastHeartbeatAt: Time, connectedAt: Time)

  /** A heartbeat record with its expiry, and an index set with its expiry (`None`: never). */
  datatype Stored = Stored(snapshot: Snapshot, expiresAt: Time)
  datatype Index = Index(members: set<ConnKey>, expiresAt: Option<Time>)

  /** The Redis keys the registry uses. An expired key is as good as absent. */
  class Redis {
    var clock: Time
    var values: map<ConnKey, Stored>   // presence:connection:*
    var sets: map<UserId, Index>       // conn:user:*

    constructor (clock: Time)
      ensures this.clock == clock && values == map[] && sets == map[]
    {
      this.clock, values, sets := clock, map[], map[];
    }

    predicate LiveSet(user: UserId)
      reads this
    {
      SetIsLive(sets, user, clock)
    }

    function Get(key: ConnKey): (r: Option<Snapshot>)
      reads this
    {
      if key in values && clock < values[key].expiresAt then Some(values[key].snapshot) else None
    }

    function Members(user: UserId): (r: set<ConnKey>)
      reads this
    {
      if LiveSet(user) then sets[user].members else {}
    }

    method SetEx(key: ConnKey, snapshot: Snapshot, ttl: nat)
      modifies this`values
      ensures values == old(values)[key := Stored(snapshot, clock + ttl)]
    {
      values := values[key := Stored(snapshot, clock + ttl)];
    }

    method DeleteValue(key: ConnKey)
      modifies this`values
      ensures values == old(values) - {key}
    {
      values := values - {key};
    }

    method DeleteSet(user: UserId)
      modifies this`sets
      ensures sets == old(sets) - {user}
    {
      sets := sets - {user};
    }

    method SAdd(user: UserId, key: ConnKey)
      modifies this`sets
      ensures sets == old(sets)[user :=
        if old(LiveSet(user)) then Index(old(sets)[user].members + {key}, old(sets)[user].expiresAt)
        else Index({key}, None)]
    {
      sets := sets[user :=
        if LiveSet(user) then Index(sets[user].members + {key}, sets[user].expiresAt) else Index({key}, None)];
    }

    /** Removing the last member removes the set. */
    method SRem(user: UserId, keys: set<ConnKey>)
      modifies this`sets
      ensures sets ==
        if old(LiveSet(user)) && old(sets)[user].members - keys != {}
        then old(sets)[user := old(sets)[user].(members := old(sets)[user].members - keys)]
        else old(sets) - {user}
    {
      if LiveSet(user) && sets[user].members - keys != {} {
        sets := sets[user := sets[user].(members := sets[user].members - keys)];
      } else {
        sets := sets - {user};
      }
    }

    method ExpireSet(user: UserId, ttl: nat)
      modifies this`sets
      ensures sets ==
        if old(LiveSet(user)) then old(sets)[user := old(sets)[user].(expiresAt := Some(clock + ttl))] else old(sets)
    {
      if LiveSet(user) {
        sets := sets[user := sets[user].(expiresAt := Some(clock + ttl))];
      }
    }

    method Advance(delta: nat)
      modifies this`clock
      ensures clock == old(clock) + delta
    {
      clock := clock + delta;
    }
  }

  /** What the registry was told, in order. */
  datatype Event = Registered(snapshot: Snapshot) | Unregistered(key: ConnKey)

  function KeyOf(e: Event): (k: ConnKey) {
    match e case Registered(s) => s.connectionKey case Unregistered(k) => k
  }

  /** The last registration of every connection that was not unregistered afterwards. */
  function Replay(history: seq<Event>): (latest: map<ConnKey, Snapshot>) {
    if history == [] then map[]
    else
      var before := Replay(history[..|history| - 1]);
      match history[|history| - 1]
      case Registered(s) => before[s.connectionKey := s]
      case Unregistered(k) => before - {k}
  }

  lemma ReplayStep(history: seq<Event>, e: Event)
    ensures e.Registered? ==> Replay(history + [e]) == Replay(history)[e.snapshot.connectionKey := e.snapshot]
    ensures e.Unregistered? ==> Replay(history + [e]) == Replay(history) - {e.key}
  {
    assert (history + [e])[..|history|] == history;
  }

  /** Entry `i` registered `s`, and nothing about its connection happened since. */
  ghost predicate IsLastWordAt(history: seq<Event>, s: Snapshot, i: nat)
    requires i < |history|
  {
    history[i] == Registered(s) && forall j | i < j < |history| :: KeyOf(history[j]) != s.connectionKey
  }

  /** `s` was registered at some point and nothing about its connection happened since. */
  ghost predicate IsLastWord(history: seq<Event>, s: Snapshot) {
    exists i :: 0 <= i < |history| && IsLastWordAt(history, s, i)
  }

  lemma LastWordStep(history: seq<Event>, e: Event, s: Snapshot)
    ensures IsLastWord(history + [e], s) <==>
      e == Registered(s) || (IsLastWord(history, s) && KeyOf(e) != s.connectionKey)
  {
    var longer := history + [e];
    forall i | 0 <= i < |history|
      ensures IsLastWordAt(longer, s, i) <==> IsLastWordAt(history, s, i) && KeyOf(e) != s.connectionKey
    {
      assert longer[|history|] == e;
      assert forall j | 0 <= j < |history| :: longer[j] == history[j];
    }
    assert IsLastWordAt(longer, s, |history|) <==> e == Registered(s);
  }

  lemma {:induction false} ReplayIsLastWord(history: seq<Event>, s: Snapshot)
    ensures (s.connectionKey in Replay(history) && Replay(history)[s.connectionKey] == s) <==> IsLastWord(history, s)
    decreases |history|
  {
    if history != [] {
      var n := |history| - 1;
      var before, e := history[..n], history[n];
      assert history == before + [e];
      ReplayIsLastWord(before, s);
      ReplayStep(before, e);
      LastWordStep(before, e, s);
    }
  }

  /** Younger than the TTL at time `now`. */
  predicate Fresh(s: Snapshot, now: Time, ttl: nat) {
    now < s.lastHeartbeatAt + ttl
  }

  /** `r` holds, once each, the connections of `user` that are registered and fresh. */
  ghost predicate Reports(r: seq<Snapshot>, latest: map<ConnKey, Snapshot>, user: UserId, now: Time, ttl: nat) {
    && (forall s :: s in r <==>
          s.connectionKey in latest && latest[s.connectionKey] == s && s.userId == user && Fresh(s, now, ttl))
    && Sorting.Distinct(r)
  }

  /** What a report holds, told by the history alone: fresh last words of the user. */
  lemma ReportIsFreshLastWords(r: seq<Snapshot>, history: seq<Event>, user: UserId, now: Time, ttl: nat)
    requires Reports(r, Replay(history), user, now, ttl)
    ensures forall s :: s in r <==> IsLastWord(history, s) && s.userId == user && Fresh(s, now, ttl)
  {
    forall s ensures s in r <==> IsLastWord(history, s) && s.userId == user && Fresh(s, now, ttl) {
      ReplayIsLastWord(history, s);
    }
  }

  /** Most recent interaction first, then heartbeat, then connection time, then key. */
  predicate Recent(a: Snapshot, b: Snapshot) {
    if a.lastInteractionAt != b.lastInteractionAt then a.lastInteractionAt > b.lastInteractionAt
    else if a.lastHeartbeatAt != b.lastHeartbeatAt then a.lastHeartbeatAt > b.lastHeartbeatAt
    else if a.connectedAt != b.connectedAt then a.connectedAt > b.connectedAt
    else Text.AtMost(b.connectionKey, a.connectionKey)
  }

  lemma RecentIsTotal()
    ensures Sorting.TotalPreorder(Recent)
  {
    forall x, y ensures Recent(x, y) || Recent(y, x) {
      Text.AtMostIsTotal(x.connectionKey, y.connectionKey, x.connectionKey);
    }
    forall x, y, z | Recent(x, y) && Recent(y, z) ensures Recent(x, z) {
      Text.AtMostIsTotal(z.connectionKey, y.connectionKey, x.connectionKey);
    }
  }

  function MostRecentFirst(connections: seq<Snapshot>): (r: seq<Snapshot>) {
    Sorting.Sort(connections, Recent)
  }

  lemma MostRecentFirstReports(
    connections: seq<Snapshot>, latest: map<ConnKey, Snapshot>, user: UserId, now: Time, ttl: nat)
    requires Reports(connections, latest, user, now, ttl)
    ensures Reports(MostRecentFirst(connections), latest, user, now, ttl)
    ensures Sorting.SortedBy(MostRecentFirst(connections), Recent)
  {
    RecentIsTotal();
    Sorting.SortSorted(connections, Recent);
    Sorting.SameElements(connections, MostRecentFirst(connections));
    Sorting.PermutationStaysDistinct(connections, MostRecentFirst(connections));
  }

  /** Ties being broken by the key, there is one report in the order of interaction. */
  lemma ReportIsDetermined(
    r: seq<Snapshot>, s: seq<Snapshot>, latest: map<ConnKey, Snapshot>, user: UserId, now: Time, ttl: nat)
    requires Reports(r, latest, user, now, ttl) && Sorting.SortedBy(r, Recent)
    requires Reports(s, latest, user, now, ttl) && Sorting.SortedBy(s, Recent)
    ensures r == s
  {
    RecentIsTotal();
    Sorting.DistinctPermutation(r, s);
    forall x, y | x in r && y in r && Recent(x, y) && Recent(y, x) ensures x == y {
      Text.AtMostIsTotal(x.connectionKey, y.connectionKey, x.connectionKey);
    }
    Sorting.SortedUnique(r, s, Recent);
  }

  /** `sorted` over a set of keys. */
  method SortedKeys(keys: set<ConnKey>) returns (r: seq<ConnKey>)
    ensures Sorting.Distinct(r) && Sorting.SortedBy(r, Text.AtMost)
    ensures forall k :: k in r <==> k in keys
    ensures |r| == |keys|
  {
    forall x, y ensures Text.AtMost(x, y) || Text.AtMost(y, x) {
      Text.AtMostIsTotal(x, y, x);
    }
    forall x, y, z | Text.AtMost(x, y) && Text.AtMost(y, z) ensures Text.AtMost(x, z) {
      Text.AtMostIsTotal(x, y, z);
    }
    r := Sorting.SortedElements(keys, Text.AtMost);
  }

  /**
   * Records agree with the registrations; every fresh connection has its record, is a member of its
   * user's set, and that set outlives it.
   */
  ghost predicate Consistent(
    clock: Time, values: map<ConnKey, Stored>, sets: map<UserId, Index>,
    latest: map<ConnKey, Snapshot>, owner: ConnKey -> UserId, ttl: nat)
  {
    && (forall k | k in latest ::
          latest[k].connectionKey == k && latest[k].userId == owner(k) && latest[k].lastHeartbeatAt <= clock)
    && (forall k | k in values :: k in latest && values[k] == Stored(latest[k], latest[k].lastHeartbeatAt + ttl))
    && (forall k | k in latest && Fresh(latest[k], clock, ttl) ::
          IsIndexed(values, sets, k, owner(k), latest[k].lastHeartbeatAt + ttl))
    && (forall u, k | u in sets && k in sets[u].members :: owner(k) == u)
  }

  /** The key has its record, and is a member of the user's set, which lives until `expiresAt` at least. */
  predicate IsIndexed(
    values: map<ConnKey, Stored>, sets: map<UserId, Index>, k: ConnKey, user: UserId, expiresAt: Time)
  {
    && k in values
    && user in sets && k in sets[user].members
    && (sets[user].expiresAt.None? || expiresAt <= sets[user].expiresAt.value)
  }

  /** Rewriting one user's set is safe when it keeps every fresh member and lives a full TTL from now. */
  lemma ReindexingKeepsConsistent(
    clock: Time, values: map<ConnKey, Stored>, sets: map<UserId, Index>, latest: map<ConnKey, Snapshot>,
    owner: ConnKey -> UserId, ttl: nat, user: UserId, kept: set<ConnKey>, next: map<UserId, Index>)
    requires Consistent(clock, values, sets, latest, owner, ttl)
    requires forall k | k in latest && owner(k) == user && Fresh(latest[k], clock, ttl) :: k in kept
    requires next == (if kept == {} then sets - {user} else sets[user := Index(kept, Some(clock + ttl))])
    requires forall k | k in kept :: owner(k) == user
    ensures Consistent(clock, values, next, latest, owner, ttl)
  {
  }

  lemma TimeKeepsConsistent(
    clock: Time, later: Time, values: map<ConnKey, Stored>, sets: map<UserId, Index>, latest: map<ConnKey, Snapshot>,
    owner: ConnKey -> UserId, ttl: nat)
    requires Consistent(clock, values, sets, latest, owner, ttl) && clock <= later
    ensures Consistent(later, values, sets, latest, owner, ttl)
  {
    forall k | k in latest && Fresh(latest[k], later, ttl)
      ensures IsIndexed(values, sets, k, owner(k), latest[k].lastHeartbeatAt + ttl)
    {
      assert Fresh(latest[k], clock, ttl);
    }
  }

  predicate SetIsLive(sets: map<UserId, Index>, user: UserId, clock: Time) {
    user in sets && (sets[user].expiresAt.None? || clock < sets[user].expiresAt.value)
  }

  lemma RegisteringKeepsIndexed(
    clock: Time, values: map<ConnKey, Stored>, sets: map<UserId, Index>, latest: map<ConnKey, Snapshot>,
    owner: ConnKey -> UserId, ttl: nat, s: Snapshot, members: set<ConnKey>, k: ConnKey, expiresAt: Time)
    requires owner(s.connectionKey) == s.userId && expiresAt <= clock + ttl
    requires SetIsLive(sets, s.userId, clock) ==> sets[s.userId].members <= members
    requires s.connectionKey in members && clock < expiresAt
    requires k == s.connectionKey || IsIndexed(values, sets, k, owner(k), expiresAt)
    ensures IsIndexed(
      values[s.connectionKey := Stored(s, clock + ttl)], sets[s.userId := Index(members, Some(clock + ttl))],
      k, owner(k), expiresAt)
  {
  }

  lemma RegisteringKeepsConsistent(
    clock: Time, values: map<ConnKey, Stored>, sets: map<UserId, Index>, latest: map<ConnKey, Snapshot>,
    owner: ConnKey -> UserId, ttl: nat, s: Snapshot, members: set<ConnKey>,
    nextValues: map<ConnKey, Stored>, nextSets: map<UserId, Index>, nextLatest: map<ConnKey, Snapshot>)
    requires Consistent(clock, values, sets, latest, owner, ttl)
    requires nextValues == values[s.connectionKey := Stored(s, clock + ttl)]
    requires nextSets == sets[s.userId := Index(members, Some(clock + ttl))]
    requires nextLatest == latest[s.connectionKey := s]
    requires owner(s.connectionKey) == s.userId && s.lastHeartbeatAt == clock
    requires members == (if SetIsLive(sets, s.userId, clock) then sets[s.userId].members else {}) + {s.connectionKey}
    ensures Consistent(clock, nextValues, nextSets, nextLatest, owner, ttl)
  {
    forall k | k in nextLatest && Fresh(nextLatest[k], clock, ttl)
      ensures IsIndexed(nextValues, nextSets, k, owner(k), nextLatest[k].lastHeartbeatAt + ttl)
    {
      RegisteringKeepsIndexed(clock, values, sets, latest, owner, ttl, s, members, k,
        nextLatest[k].lastHeartbeatAt + ttl);
    }
  }

  lemma UnregisteringKeepsConsistent(
    clock: Time, values: map<ConnKey, Stored>, sets: map<UserId, Index>, latest: map<ConnKey, Snapshot>,
    owner: ConnKey -> UserId, ttl: nat, key: ConnKey, next: map<UserId, Index>)
    requires Consistent(clock, values, sets, latest, owner, ttl)
    requires var user := owner(key);
      next == if SetIsLive(sets, user, clock) && sets[user].members - {key} != {}
              then sets[user := sets[user].(members := sets[user].members - {key})] else sets - {user}
    ensures Consistent(clock, values - {key}, next, latest - {key}, owner, ttl)
  {
  }

  predicate HasRecord(clock: Time, values: map<ConnKey, Stored>, k: ConnKey) {
    k in values && clock < values[k].expiresAt
  }

  /** The members of a live set; an expired one has none. */
  function MembersOf(sets: map<UserId, Index>, user: UserId, clock: Time): (members: set<ConnKey>) {
    if SetIsLive(sets, user, clock) then sets[user].members else {}
  }

  /** The indexed keys fall into those with a live record, which are the connections, and the stale ones. */
  ghost predicate Splits(
    clock: Time, values: map<ConnKey, Stored>, members: set<ConnKey>, connections: seq<Snapshot>, stale: seq<ConnKey>)
  {
    && (forall s :: s in connections <==>
          && s.connectionKey in members && HasRecord(clock, values, s.connectionKey)
          && values[s.connectionKey].snapshot == s)
    && (forall k :: k in stale <==> k in members && !HasRecord(clock, values, k))
    && Sorting.Distinct(connections)
  }

  /** Reading the records of the indexed keys finds exactly the connections to report. */
  lemma SplitReports(
    clock: Time, values: map<ConnKey, Stored>, sets: map<UserId, Index>, latest: map<ConnKey, Snapshot>,
    owner: ConnKey -> UserId, ttl: nat, user: UserId, connections: seq<Snapshot>, stale: seq<ConnKey>)
    requires Consistent(clock, values, sets, latest, owner, ttl)
    requires Splits(clock, values, MembersOf(sets, user, clock), connections, stale)
    ensures Reports(connections, latest, user, clock, ttl)
  {
    forall k | k in latest && owner(k) == user && Fresh(latest[k], clock, ttl)
      ensures k in MembersOf(sets, user, clock) && HasRecord(clock, values, k)
    {
      assert IsIndexed(values, sets, k, owner(k), latest[k].lastHeartbeatAt + ttl);
    }
  }

  /** What is left of the index once the stale members are gone. */
  function Unstale(members: set<ConnKey>, stale: seq<ConnKey>): (live: set<ConnKey>) {
    set k | k in members && k !in stale
  }

  /** Something was found exactly when pruning leaves something. */
  lemma FoundIffLive(
    clock: Time, values: map<ConnKey, Stored>, sets: map<UserId, Index>, latest: map<ConnKey, Snapshot>,
    owner: ConnKey -> UserId, ttl: nat, members: set<ConnKey>, connections: seq<Snapshot>, stale: seq<ConnKey>)
    requires Consistent(clock, values, sets, latest, owner, ttl) && Splits(clock, values, members, connections, stale)
    ensures connections != [] <==> Unstale(members, stale) != {}
  {
    if connections != [] {
      assert connections[0] in connections && connections[0].connectionKey in Unstale(members, stale);
    }
    if k :| k in Unstale(members, stale) {
      assert values[k].snapshot in connections;
    }
  }

  /** Pruning the stale members, or dropping a set without live ones, keeps the index right. */
  lemma PruningKeepsConsistent(
    clock: Time, values: map<ConnKey, Stored>, sets: map<UserId, Index>, latest: map<ConnKey, Snapshot>,
    owner: ConnKey -> UserId, ttl: nat, user: UserId, connections: seq<Snapshot>, stale: seq<ConnKey>,
    next: map<UserId, Index>)
    requires Consistent(clock, values, sets, latest, owner, ttl)
    requires Splits(clock, values, MembersOf(sets, user, clock), connections, stale)
    requires var live := Unstale(MembersOf(sets, user, clock), stale);
      next == if connections != [] then sets[user := Index(live, Some(clock + ttl))] else sets - {user}
    ensures Consistent(clock, values, next, latest, owner, ttl)
  {
    var members := MembersOf(sets, user, clock);
    forall k | k in latest && owner(k) == user && Fresh(latest[k], clock, ttl) ensures k in Unstale(members, stale) {
      assert IsIndexed(values, sets, k, owner(k), latest[k].lastHeartbeatAt + ttl);
    }
    FoundIffLive(clock, values, sets, latest, owner, ttl, members, connections, stale);
    ReindexingKeepsConsistent(clock, values, sets, latest, owner, ttl, user, Unstale(members, stale), next);
  }

  class Registry {
    const client: Redis
    const ttl: nat
    /** A connection key is a channel name: it belongs to one socket, and so to one user. */
    ghost const owner: ConnKey -> UserId
    ghost var history: seq<Event>

    constructor (client: Redis, ttl: nat, ghost owner: ConnKey -> UserId)
      requires client.values == map[] && client.sets == map[]
      ensures Valid() && history == [] && this.client == client && this.ttl == ttl && this.owner == owner
    {
      this.client, this.ttl, this.owner, history := client, ttl, owner, [];
    }

    ghost function Latest(): (m: map<ConnKey, Snapshot>)
      reads this
    {
      Replay(history)
    }

    ghost predicate Valid()
      reads this, client
    {
      Consistent(client.clock, client.values, client.sets, Latest(), owner, ttl)
    }

    /** Time passes: keys expire on their own, the invariant stands. */
    method Tick(delta: nat)
      requires Valid()
      modifies client`clock
      ensures Valid() && client.clock == old(client.clock) + delta
    {
      TimeKeepsConsistent(client.clock, client.clock + delta, client.values, client.sets, Latest(), owner, ttl);
      client.Advance(delta);
    }

    /** Splits the indexed keys into live records and stale ids. */
    method Probe(ids: seq<ConnKey>) returns (connections: seq<Snapshot>, stale: seq<ConnKey>)
      requires Valid() && Sorting.Distinct(ids)
      ensures Splits(client.clock, client.values, (set k | k in ids), connections, stale)
    {
      ghost var clock, values := client.clock, client.values;
      assert forall k | k in values :: values[k].snapshot.connectionKey == k;
      connections, stale := [], [];
      var i := 0;
      while i < |ids|
        invariant 0 <= i <= |ids|
        invariant Splits(clock, values, (set k | k in ids[..i]), connections, stale)
      {
        var raw := client.Get(ids[i]);
        assert ids[..i + 1] == ids[..i] + [ids[i]] && ids[i] !in ids[..i];
        if raw == None {
          stale := stale + [ids[i]];
        } else {
          connections := connections + [raw.value];
        }
        i := i + 1;
      }
      assert ids[..i] == ids;
    }

    /** Drops the stale members, then renews the set's life or drops the set. */
    method Prune(user: UserId, stale: seq<ConnKey>, found: bool)
      requires client.LiveSet(user)
      requires found <==> Unstale(client.sets[user].members, stale) != {}
      modifies client`sets
      ensures client.sets ==
        if found then
          old(client.sets)[user := Index(Unstale(old(client.sets)[user].members, stale), Some(client.clock + ttl))]
        else
          old(client.sets) - {user}
    {
      ghost var members := client.sets[user].members;
      assert Unstale(members, stale) == members - set k | k in stale;
      if stale != [] {
        client.SRem(user, set k | k in stale);
      } else {
        assert Unstale(members, stale) == members;
      }
      if found {
        client.ExpireSet(user, ttl);
      } else {
        client.DeleteSet(user);
      }
    }

    /**
     * Reports exactly the user's live connections, most recent first, while it prunes the index.
     */
    method ListConnections(user: UserId) returns (r: seq<Snapshot>)
      requires Valid()
      modifies client`sets
      ensures Valid()
      ensures Reports(r, Latest(), user, client.clock, ttl)
      ensures Sorting.SortedBy(r, Recent)
    {
      ghost var clock, values, sets, latest := client.clock, client.values, client.sets, Latest();
      ghost var members := MembersOf(sets, user, clock);
      var ids := SortedKeys(client.Members(user));
      assert members == set k | k in ids;
      var connections, stale := [], [];
      if |ids| == 0 {
        client.DeleteSet(user);
      } else {
        connections, stale := Probe(ids);
        FoundIffLive(clock, values, sets, latest, owner, ttl, members, connections, stale);
        Prune(user, stale, connections != []);
      }
      SplitReports(clock, values, sets, latest, owner, ttl, user, connections, stale);
      PruningKeepsConsistent(clock, values, sets, latest, owner, ttl, user, connections, stale, client.sets);
      MostRecentFirstReports(connections, latest, user, clock, ttl);
      r := MostRecentFirst(connections);
    }

    method RegisterConnection(
      user: UserId, key: ConnKey, sessionId: Option<string>, tabId: string, isActive: bool, lastInteractionAt: Time)
      returns (r: seq<Snapshot>)
      requires Valid() && owner(key) == user
      modifies this`history, client`values, client`sets
      ensures Valid()
      ensures history == old(history)
        + [Registered(Snapshot(key, user, sessionId, tabId, isActive, lastInteractionAt, client.clock, client.clock))]
      ensures Reports(r, Latest(), user, client.clock, ttl) && Sorting.SortedBy(r, Recent)
    {
      var snapshot := Snapshot(key, user, sessionId, tabId, isActive, lastInteractionAt, client.clock, client.clock);
      ghost var values, sets, latest := client.values, client.sets, Latest();
      ghost var members := client.Members(user) + {key};
      client.SetEx(key, snapshot, ttl);
      client.SAdd(user, key);
      assert client.LiveSet(user) && client.sets[user].members == members;
      client.ExpireSet(user, ttl);
      assert client.sets == sets[user := Index(members, Some(client.clock + ttl))];
      ReplayStep(history, Registered(snapshot));
      history := history + [Registered(snapshot)];
      RegisteringKeepsConsistent(
        client.clock, values, sets, latest, owner, ttl, snapshot, members, client.values, client.sets, Latest());
      r := ListConnections(user);
    }

    method UnregisterConnection(user: UserId, key: ConnKey) returns (r: seq<Snapshot>)
      requires Valid() && owner(key) == user
      modifies this`history, client`values, client`sets
      ensures Valid()
      ensures history == old(history) + [Unregistered(key)]
      ensures Reports(r, Latest(), user, client.clock, ttl) && Sorting.SortedBy(r, Recent)
    {
      ghost var values, sets := client.values, client.sets;
      client.DeleteValue(key);
      client.SRem(user, {key});
      UnregisteringKeepsConsistent(client.clock, values, sets, Latest(), owner, ttl, key, client.sets);
      ReplayStep(history, Unregistered(key));
      history := history + [Unregistered(key)];
      r := ListConnections(user);
    }
  }
}
