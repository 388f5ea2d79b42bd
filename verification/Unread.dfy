/** Read markers and unread counts of rooms and dialogs. */
module Unread {
  import opened Wrappers
  import opened UserPair
  import opened History
  import Sorting

  datatype Error = NotFound

  /** Written by somebody else, and newer than the read marker if there is one. */
  predicate IsUnread(m: Row, chat: ChatId, user: UserId, lastRead: Option<Time>) {
    m.chat == chat && m.sender != user && (lastRead == None || m.createdAt > lastRead.value)
  }

  function UnreadRows(table: seq<Row>, chat: ChatId, user: UserId, lastRead: Option<Time>): (r: set<Row>) {
    set m | m in table && IsUnread(m, chat, user, lastRead)
  }

  lemma UnreadStep(table: seq<Row>, m: Row, chat: ChatId, user: UserId, lastRead: Option<Time>)
    requires m !in table
    ensures |UnreadRows(table + [m], chat, user, lastRead)|
         == |UnreadRows(table, chat, user, lastRead)| + if IsUnread(m, chat, user, lastRead) then 1 else 0
  {
    var before, after := UnreadRows(table, chat, user, lastRead), UnreadRows(table + [m], chat, user, lastRead);
    assert after == before + if IsUnread(m, chat, user, lastRead) then {m} else {};
  }

  /**
   * A new message adds exactly one to the count of everybody but its author whose marker is older, and
   * leaves every other count alone.
   */
  lemma NewMessageCountsOnceForOthers(table: seq<Row>, m: Row, chat: ChatId, user: UserId, lastRead: Option<Time>)
    requires UniqueIds(table + [m])
    ensures |UnreadRows(table + [m], chat, user, lastRead)| == |UnreadRows(table, chat, user, lastRead)|
       <==> m.chat != chat || m.sender == user || (lastRead.Some? && m.createdAt <= lastRead.value)
    ensures |UnreadRows(table, chat, user, lastRead)| <= |UnreadRows(table + [m], chat, user, lastRead)|
         <= |UnreadRows(table, chat, user, lastRead)| + 1
  {
    assert (table + [m])[|table|] == m;
    forall i | 0 <= i < |table| ensures table[i] != m {
      assert (table + [m])[i] == table[i];
    }
    UnreadStep(table, m, chat, user, lastRead);
  }

  function Select(table: seq<Row>, keep: Row -> bool): (r: seq<Row>)
    ensures forall m :: m in r <==> m in table && keep(m)
    ensures Sorting.Distinct(table) ==> Sorting.Distinct(r)
  {
    if table == [] then []
    else
      var rest := Select(table[1..], keep);
      assert Sorting.Distinct(table) ==> table[0] !in table[1..];
      if keep(table[0]) then [table[0]] + rest else rest
  }

  /** The table after the row with this id is deleted. */
  function Without(table: seq<Row>, id: nat): (r: seq<Row>) {
    Select(table, (m: Row) => m.id != id)
  }

  lemma {:induction false} SelectKeepsUnique(table: seq<Row>, keep: Row -> bool)
    requires UniqueIds(table)
    ensures UniqueIds(Select(table, keep))
  {
    if table != [] {
      var rest := table[1..];
      forall i, j | 0 <= i < j < |rest| ensures rest[i].id != rest[j].id {
        assert table[i + 1] == rest[i] && table[j + 1] == rest[j];
      }
      SelectKeepsUnique(rest, keep);
      forall m | m in Select(rest, keep) ensures m.id != table[0].id {
        var j :| 0 <= j < |rest| && rest[j] == m;
        assert table[j + 1] == m;
      }
    }
  }

  /** Deleting a message lowers exactly the counts in which it was unread, each by one. */
  lemma DeletionLowersCounts(table: seq<Row>, m: Row, chat: ChatId, user: UserId, lastRead: Option<Time>)
    requires UniqueIds(table) && m in table
    ensures |UnreadRows(Without(table, m.id), chat, user, lastRead)|
         == |UnreadRows(table, chat, user, lastRead)| - if IsUnread(m, chat, user, lastRead) then 1 else 0
  {
    var before := UnreadRows(table, chat, user, lastRead);
    var after := UnreadRows(Without(table, m.id), chat, user, lastRead);
    forall x | x in table ensures x.id == m.id <==> x == m {
      if x.id == m.id { UniqueIdsOfRows(table, x, m); }
    }
    assert after == before - {m};
  }

  /** The first row of a sorted query is the newest. */
  lemma FirstIsNewest(rows: seq<Row>, m: Row)
    requires Sorting.SortedBy(rows, Newer) && m in rows
    ensures m.createdAt <= rows[0].createdAt
  {
    var i :| 0 <= i < |rows| && rows[i] == m;
    assert i > 0 ==> Newer(rows[0], rows[i]);
  }

  /** A marker at the latest message of a chat leaves nothing unread in it. */
  lemma LatestMarkerClears(table: seq<Row>, chat: ChatId, user: UserId, marker: Time)
    requires NewestFirst(table, chat) != [] ==> marker == NewestFirst(table, chat)[0].createdAt
    ensures UnreadRows(table, chat, user, Some(marker)) == {}
  {
    NewestFirstIsSorted(table, chat);
    forall m | m in table && m.chat == chat ensures m.createdAt <= marker {
      FirstIsNewest(NewestFirst(table, chat), m);
    }
  }

  /** The rows a count query selects: those of the given chats by other senders. */
  function ByOthers(table: seq<Row>, chats: set<ChatId>, user: UserId): (r: seq<Row>) {
    Select(table, (m: Row) => m.chat in chats && m.sender != user)
  }

  function NewerThan(table: seq<Row>, lastRead: Option<Time>): (r: seq<Row>) {
    Select(table, (m: Row) => lastRead == None || m.createdAt > lastRead.value)
  }

  /** Grouped by chat, each chat newest first. */
  predicate ByChatNewest(a: Row, b: Row) {
    a.chat < b.chat || (a.chat == b.chat && Newer(a, b))
  }

  lemma {:induction false} DistinctSize(r: seq<Row>, s: set<Row>)
    requires Sorting.Distinct(r) && forall m :: m in r <==> m in s
    ensures |r| == |s|
  {
    if r == [] {
      assert s == {};
    } else {
      var n := |r| - 1;
      assert r == r[..n] + [r[n]];
      forall m ensures m in r[..n] <==> m in s - {r[n]} {}
      DistinctSize(r[..n], s - {r[n]});
      assert r[n] in s;
    }
  }

  type Markers = map<(ChatId, UserId), Option<Time>>

  /** The marker, `None` when there is no row or the row has no time. */
  function MarkerOf(markers: Markers, chat: ChatId, user: UserId): (r: Option<Time>) {
    if (chat, user) in markers then markers[(chat, user)] else None
  }

  ghost predicate Tallies(
    counts: map<ChatId, nat>, rows: seq<Row>, chats: set<ChatId>, user: UserId, markers: Markers)
  {
    && counts.Keys == chats
    && forall c | c in chats :: counts[c] == |UnreadRows(rows, c, user, MarkerOf(markers, c, user))|
  }

  lemma TallyStep(counts: map<ChatId, nat>, rows: seq<Row>, m: Row, chats: set<ChatId>, user: UserId, markers: Markers)
    requires Tallies(counts, rows, chats, user, markers) && m !in rows
    requires m.chat in chats && m.sender != user
    ensures Tallies(
      if IsUnread(m, m.chat, user, MarkerOf(markers, m.chat, user))
      then counts[m.chat := counts[m.chat] + 1] else counts,
      rows + [m], chats, user, markers)
  {
    forall c | c in chats
      ensures |UnreadRows(rows + [m], c, user, MarkerOf(markers, c, user))|
           == counts[c] + if IsUnread(m, c, user, MarkerOf(markers, c, user)) then 1 else 0
    {
      UnreadStep(rows, m, c, user, MarkerOf(markers, c, user));
    }
  }

  lemma TallyOfSelection(counts: map<ChatId, nat>, table: seq<Row>, chats: set<ChatId>, user: UserId, markers: Markers)
    requires Tallies(counts, ByOthers(table, chats, user), chats, user, markers)
    ensures Tallies(counts, table, chats, user, markers)
  {
    forall c | c in chats ensures counts[c] == |UnreadRows(table, c, user, MarkerOf(markers, c, user))| {
      assert UnreadRows(ByOthers(table, chats, user), c, user, MarkerOf(markers, c, user))
          == UnreadRows(table, c, user, MarkerOf(markers, c, user));
    }
  }

  /** `m` is the first row of its chat among the first `n` rows. */
  ghost predicate IsFirstOfChat(rows: seq<Row>, n: nat, m: Row)
    requires n <= |rows|
  {
    exists k :: 0 <= k < n && rows[k] == m && forall j | 0 <= j < k :: rows[j].chat != m.chat
  }

  lemma ByChatNewestIsTotal()
    ensures Sorting.TotalPreorder(ByChatNewest)
  {
  }

  lemma FirstOfChatIsNewest(rows: seq<Row>, m: Row)
    requires Sorting.SortedBy(rows, ByChatNewest) && IsFirstOfChat(rows, |rows|, m)
    ensures m in rows && forall x | x in rows && x.chat == m.chat :: Newer(m, x)
  {
    var k :| 0 <= k < |rows| && rows[k] == m && forall j | 0 <= j < k :: rows[j].chat != m.chat;
    forall x | x in rows && x.chat == m.chat ensures Newer(m, x) {
      var j :| 0 <= j < |rows| && rows[j] == x;
      assert j > k ==> ByChatNewest(rows[k], rows[j]);
    }
  }

  /** Chats with their messages and one read marker per chat and user; rooms and dialogs each have such tables. */
  class ReadStore {
    var messages: seq<Row>
    var readStates: map<(ChatId, UserId), Option<Time>>
    /** The members of a room, none of whom is banned from it, or the two of a dialog. */
    var readers: map<ChatId, set<UserId>>

    constructor (readers: map<ChatId, set<UserId>>)
      ensures Valid() && messages == [] && readStates == map[] && this.readers == readers
    {
      this.readers, messages, readStates := readers, [], map[];
    }

    ghost predicate Valid()
      reads this
    {
      UniqueIds(messages)
    }

    function LastRead(chat: ChatId, user: UserId): (r: Option<Time>)
      reads this
    {
      MarkerOf(readStates, chat, user)
    }

    ghost function UnreadOf(chat: ChatId, user: UserId): (n: nat)
      reads this
    {
      |UnreadRows(messages, chat, user, LastRead(chat, user))|
    }

    method AddMessage(m: Row)
      requires Valid() && UniqueIds(messages + [m])
      modifies this`messages
      ensures Valid() && messages == old(messages) + [m]
      ensures forall chat: ChatId, user: UserId ::
        UnreadOf(chat, user)
          == old(UnreadOf(chat, user)) + if IsUnread(m, chat, user, LastRead(chat, user)) then 1 else 0
    {
      assert (messages + [m])[|messages|] == m;
      forall i | 0 <= i < |messages| ensures messages[i] != m {
        assert (messages + [m])[i] == messages[i];
      }
      forall chat: ChatId, user: UserId
        ensures |UnreadRows(messages + [m], chat, user, LastRead(chat, user))|
             == UnreadOf(chat, user) + if IsUnread(m, chat, user, LastRead(chat, user)) then 1 else 0
      {
        UnreadStep(messages, m, chat, user, LastRead(chat, user));
      }
      messages := messages + [m];
    }

    method DeleteMessage(m: Row)
      requires Valid() && m in messages
      modifies this`messages
      ensures Valid() && messages == Without(old(messages), m.id)
      ensures forall chat: ChatId, user: UserId ::
        UnreadOf(chat, user)
          == old(UnreadOf(chat, user)) - if IsUnread(m, chat, user, LastRead(chat, user)) then 1 else 0
    {
      forall chat: ChatId, user: UserId
        ensures |UnreadRows(Without(messages, m.id), chat, user, LastRead(chat, user))|
             == UnreadOf(chat, user) - if IsUnread(m, chat, user, LastRead(chat, user)) then 1 else 0
      {
        DeletionLowersCounts(messages, m, chat, user, LastRead(chat, user));
      }
      SelectKeepsUnique(messages, (x: Row) => x.id != m.id);
      messages := Without(messages, m.id);
    }

    /** A user who leaves a room, or is banned from it, loses the marker with the membership. */
    method RemoveReader(chat: ChatId, user: UserId)
      requires Valid() && chat in readers
      modifies this`readers, this`readStates
      ensures Valid() && readers == old(readers)[chat := old(readers)[chat] - {user}]
      ensures UnreadOf(chat, user) == |UnreadRows(messages, chat, user, None)|
      ensures forall c: ChatId, u: UserId | (c, u) != (chat, user) :: UnreadOf(c, u) == old(UnreadOf(c, u))
    {
      readers := readers[chat := readers[chat] - {user}];
      readStates := readStates - {(chat, user)};
    }

    /** Marks everything there is as read, for a reader: the chat's count becomes zero, no other count changes. */
    method MarkRead(chat: ChatId, user: UserId, now: Time) returns (r: Result<(), Error>)
      requires Valid()
      modifies this`readStates
      ensures r.Ok? <==> chat in readers && user in readers[chat]
      ensures r.Err? ==> readStates == old(readStates)
      ensures r.Ok? ==> readStates == old(readStates)[(chat, user) := Some(
        if NewestFirst(messages, chat) == [] then now else NewestFirst(messages, chat)[0].createdAt)]
      ensures r.Ok? ==> UnreadOf(chat, user) == 0
      ensures forall c: ChatId, u: UserId | (c, u) != (chat, user) :: UnreadOf(c, u) == old(UnreadOf(c, u))
    {
      if chat !in readers || user !in readers[chat] {
        return Err(NotFound);
      }
      var rows := NewestFirst(messages, chat);
      var marker := if rows == [] then now else rows[0].createdAt;
      readStates := readStates[(chat, user) := Some(marker)];
      LatestMarkerClears(messages, chat, user, marker);
      r := Ok(());
    }

    /** One pass over the selected rows, adding one for each that is newer than its chat's marker. */
    method CountUnread(chats: set<ChatId>, user: UserId) returns (counts: map<ChatId, nat>)
      requires Valid()
      ensures counts.Keys == chats
      ensures forall c | c in chats :: counts[c] == UnreadOf(c, user)
    {
      var selected := ByOthers(messages, chats, user);
      assert Sorting.Distinct(messages);
      counts := map c | c in chats :: 0;
      var i := 0;
      while i < |selected|
        invariant 0 <= i <= |selected|
        invariant Tallies(counts, selected[..i], chats, user, readStates)
      {
        var m := selected[i];
        assert m in selected && m !in selected[..i];
        assert selected[..i + 1] == selected[..i] + [m];
        TallyStep(counts, selected[..i], m, chats, user, readStates);
        var lastRead := LastRead(m.chat, user);
        if lastRead == None || m.createdAt > lastRead.value {
          counts := counts[m.chat := counts[m.chat] + 1];
        }
        i := i + 1;
      }
      assert selected[..i] == selected;
      TallyOfSelection(counts, messages, chats, user, readStates);
    }

    /** The latest message of each chat that has one, found as the first of its chat in query order. */
    method LastMessages(chats: set<ChatId>) returns (last: map<ChatId, Row>)
      ensures forall c :: c in last <==> c in chats && exists m :: m in messages && m.chat == c
      ensures forall c | c in last :: last[c] in messages && last[c].chat == c
      ensures forall c, m | c in last && m in messages && m.chat == c :: Newer(last[c], m)
    {
      var rows := Sorting.Sort(messages, ByChatNewest);
      ByChatNewestIsTotal();
      Sorting.SortSorted(messages, ByChatNewest);
      Sorting.SameElements(messages, rows);
      last := FirstOfEach(rows, chats);
      forall c | c in last ensures last[c] in rows && forall x | x in rows && x.chat == c :: Newer(last[c], x) {
        FirstOfChatIsNewest(rows, last[c]);
      }
    }

    /** `setdefault` in a loop: the first row of each of the chats. */
    method FirstOfEach(rows: seq<Row>, chats: set<ChatId>) returns (last: map<ChatId, Row>)
      ensures forall c | c in last :: c in chats && last[c].chat == c && IsFirstOfChat(rows, |rows|, last[c])
      ensures forall m | m in rows && m.chat in chats :: m.chat in last
    {
      last := map[];
      var i := 0;
      while i < |rows|
        invariant 0 <= i <= |rows|
        invariant forall k | 0 <= k < i && rows[k].chat in chats :: rows[k].chat in last
        invariant forall c | c in last :: c in chats && last[c].chat == c && IsFirstOfChat(rows, i, last[c])
      {
        var m := rows[i];
        if m.chat in chats && m.chat !in last {
          last := last[m.chat := m];
          assert IsFirstOfChat(rows, i + 1, m);
        }
        i := i + 1;
      }
    }

    /** The dialog list: an unread count for each dialog of the user, and the last message where there is one. */
    method ListDialogRows(user: UserId) returns (counts: map<ChatId, nat>, last: map<ChatId, Row>)
      requires Valid()
      ensures counts.Keys == set d | d in readers && user in readers[d]
      ensures forall d | d in counts :: counts[d] == UnreadOf(d, user)
      ensures forall d, m | d in counts && m in messages && m.chat == d :: d in last && Newer(last[d], m)
      ensures forall d | d in last :: last[d] in messages && last[d].chat == d
    {
      var dialogs := set d | d in readers && user in readers[d];
      counts := CountUnread(dialogs, user);
      last := LastMessages(dialogs);
    }

    /** One dialog's count, by a query instead of a loop: the number the dialog list shows. */
    method GetDialogUnreadCount(dialog: ChatId, user: UserId) returns (r: Result<nat, Error>)
      requires Valid() && dialog in readers
      ensures r == if user in readers[dialog] then Ok(UnreadOf(dialog, user)) else Err(NotFound)
    {
      if user !in readers[dialog] {
        return Err(NotFound);
      }
      var selected := NewerThan(ByOthers(messages, {dialog}, user), LastRead(dialog, user));
      assert Sorting.Distinct(messages);
      DistinctSize(selected, UnreadRows(messages, dialog, user, LastRead(dialog, user)));
      r := Ok(|selected|);
    }
  }
}
