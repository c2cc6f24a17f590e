/** The conversation store: a table of threads, a table of messages kept in rowid
    order, and a cache of fetched user data with at most one entry per thread and
    user. Timestamps are whole seconds, and "now" and fresh ids are parameters. */
module Database {
  import opened Common

  const Roles: set<string> := {"user", "assistant"}
  const SecondsPerDay: int := 86400

  /** A row of `messages`; `rowid` is SQLite's implicit row number. */
  datatype Message = Message(
    id: string, threadId: string, role: string, content: string,
    userId: string, language: string, createdAt: int, rowid: nat)

  /** The dictionary each reader returns for a row. */
  datatype MessageView = MessageView(id: string, threadId: string, role: string, content: string, createdAt: int)

  /** A row of `user_data_cache`; `dataJson` is the stored JSON text. */
  datatype CacheEntry = CacheEntry(id: string, threadId: string, userId: string, dataJson: string, createdAt: int)

  /** Why a statement was refused: a duplicate primary key, a `thread_id` naming no
      thread, a role outside the CHECK constraint, or a retention setting the
      configuration does not declare. */
  datatype DbError = DuplicateId | UnknownThread | BadRole | MissingSetting

  /** What `get_paginated_thread_messages` returns. */
  datatype Page = Page(messages: seq<MessageView>, total: nat)

  function View(m: Message): MessageView {
    MessageView(m.id, m.threadId, m.role, m.content, m.createdAt)
  }

  // ---------------------------------------------------------------------
  // Table invariants
  // ---------------------------------------------------------------------

  predicate RowidsIncrease(ms: seq<Message>) {
    forall i, j :: 0 <= i < j < |ms| ==> ms[i].rowid < ms[j].rowid
  }

  predicate IdsDistinct(ms: seq<Message>) {
    forall i, j :: 0 <= i < j < |ms| ==> ms[i].id != ms[j].id
  }

  /** The constraints the schema declares on `messages`, with foreign keys on. */
  predicate MessagesValid(threads: map<string, int>, ms: seq<Message>) {
    && RowidsIncrease(ms)
    && IdsDistinct(ms)
    && forall m :: m in ms ==> m.threadId in threads && m.role in Roles && m.rowid >= 1
  }

  /** The constraints on `user_data_cache`: distinct ids, one entry per
      (thread, user) as the unique index demands, and foreign keys. */
  predicate CacheValid(threads: map<string, int>, cache: seq<CacheEntry>) {
    && (forall i, j :: 0 <= i < j < |cache| ==>
          cache[i].id != cache[j].id
          && (cache[i].threadId != cache[j].threadId || cache[i].userId != cache[j].userId))
    && forall e :: e in cache ==> e.threadId in threads
  }

  /** The rowid SQLite gives a new row: one more than the largest present. */
  function NextRowid(ms: seq<Message>): (r: nat)
    requires RowidsIncrease(ms)
    ensures r >= 1
    ensures forall m :: m in ms ==> m.rowid < r
  {
    if ms == [] then 1 else ms[|ms| - 1].rowid + 1
  }

  function MessageIds(ms: seq<Message>): set<string> {
    set m | m in ms :: m.id
  }

  // ---------------------------------------------------------------------
  // ORDER BY created_at, rowid
  // ---------------------------------------------------------------------

  /** `a` sorts before `b` in ascending (created_at, rowid) order. */
  predicate Before(a: Message, b: Message) {
    a.createdAt < b.createdAt || (a.createdAt == b.createdAt && a.rowid < b.rowid)
  }

  /** `a` sorts before `b` ascending, or descending when `desc`. */
  predicate Ahead(a: Message, b: Message, desc: bool) {
    if desc then Before(b, a) else Before(a, b)
  }

  predicate Sorted(s: seq<Message>, desc: bool) {
    forall i, j :: 0 <= i < j < |s| ==> !Ahead(s[j], s[i], desc)
  }

  function Insert(x: Message, s: seq<Message>, desc: bool): (r: seq<Message>)
    ensures |r| == |s| + 1
    ensures multiset(r) == multiset(s) + multiset{x}
  {
    if s == [] then [x]
    else if Ahead(s[0], x, desc) then
      assert s == [s[0]] + s[1..];
      [s[0]] + Insert(x, s[1..], desc)
    else [x] + s
  }

  /** The rows in the order an ORDER BY clause on (created_at, rowid) gives. */
  function Sort(s: seq<Message>, desc: bool): (r: seq<Message>)
    ensures |r| == |s|
    ensures multiset(r) == multiset(s)
  {
    if s == [] then []
    else
      assert s == [s[0]] + s[1..];
      Insert(s[0], Sort(s[1..], desc), desc)
  }

  lemma TailSorted(s: seq<Message>, desc: bool)
    requires s != [] && Sorted(s, desc)
    ensures Sorted(s[1..], desc)
  {
    assert forall i :: 0 <= i < |s| - 1 ==> s[1..][i] == s[i + 1];
  }

  /** The first row of a sorted sequence sorts no later than any of its rows. */
  lemma HeadFirst(s: seq<Message>, e: Message, desc: bool)
    requires s != [] && Sorted(s, desc) && e in s
    ensures !Ahead(e, s[0], desc)
  {
    var k :| 0 <= k < |s| && s[k] == e;
    if k > 0 {
      assert !Ahead(s[k], s[0], desc);
    }
  }

  lemma ConsSorted(h: Message, s: seq<Message>, desc: bool)
    requires Sorted(s, desc)
    requires forall e :: e in s ==> !Ahead(e, h, desc)
    ensures Sorted([h] + s, desc)
  {
    var r := [h] + s;
    forall i, j | 0 <= i < j < |r|
      ensures !Ahead(r[j], r[i], desc)
    {
      assert r[j] == s[j - 1];
      if i > 0 {
        assert r[i] == s[i - 1];
      }
    }
  }

  lemma {:induction false} InsertSorted(x: Message, s: seq<Message>, desc: bool)
    requires Sorted(s, desc)
    ensures Sorted(Insert(x, s, desc), desc)
  {
    if s == [] {
    } else if Ahead(s[0], x, desc) {
      var tail := s[1..];
      TailSorted(s, desc);
      InsertSorted(x, tail, desc);
      var rt := Insert(x, tail, desc);
      forall e | e in rt
        ensures !Ahead(e, s[0], desc)
      {
        assert e in multiset(rt);
        if e != x {
          assert e in tail;
          HeadFirst(s, e, desc);
        }
      }
      ConsSorted(s[0], rt, desc);
    } else {
      forall e | e in s
        ensures !Ahead(e, x, desc)
      {
        HeadFirst(s, e, desc);
      }
      ConsSorted(x, s, desc);
    }
  }

  lemma {:induction false} SortSorted(s: seq<Message>, desc: bool)
    ensures Sorted(Sort(s, desc), desc)
  {
    if s != [] {
      SortSorted(s[1..], desc);
      InsertSorted(s[0], Sort(s[1..], desc), desc);
    }
  }

  /** No two different rows share a rowid. */
  predicate RowidsDetermine(s: seq<Message>) {
    forall x, y :: x in s && y in s && x.rowid == y.rowid ==> x == y
  }

  lemma RowidsIncreaseDetermine(ms: seq<Message>)
    requires RowidsIncrease(ms)
    ensures RowidsDetermine(ms)
  {
    forall x, y | x in ms && y in ms && x.rowid == y.rowid
      ensures x == y
    {
      var i :| 0 <= i < |ms| && ms[i] == x;
      var j :| 0 <= j < |ms| && ms[j] == y;
      assert i == j;
    }
  }

  lemma RowidsDetermineSub(a: seq<Message>, b: seq<Message>)
    requires RowidsDetermine(b)
    requires multiset(a) <= multiset(b)
    ensures RowidsDetermine(a)
  {
    forall x, y | x in a && y in a && x.rowid == y.rowid
      ensures x == y
    {
      assert x in multiset(a) && y in multiset(a);
      assert x in multiset(b) && y in multiset(b);
      assert x in b && y in b;
    }
  }

  /** Rows whose rowids are distinct have exactly one order by (created_at, rowid). */
  lemma {:induction false} SortedUnique(a: seq<Message>, b: seq<Message>, desc: bool)
    requires multiset(a) == multiset(b)
    requires Sorted(a, desc) && Sorted(b, desc)
    requires RowidsDetermine(a)
    ensures a == b
    decreases |a|
  {
    if a == [] {
      assert |multiset(b)| == 0;
    } else {
      HeadsAgree(a, b, desc);
      TailsAgree(a, b);
      TailSorted(a, desc);
      TailSorted(b, desc);
      assert forall x :: x in a[1..] ==> x in a;
      SortedUnique(a[1..], b[1..], desc);
    }
  }

  lemma HeadsAgree(a: seq<Message>, b: seq<Message>, desc: bool)
    requires a != [] && multiset(a) == multiset(b)
    requires Sorted(a, desc) && Sorted(b, desc)
    requires RowidsDetermine(a)
    ensures b != [] && a[0] == b[0]
  {
    assert |b| == |multiset(b)| == |multiset(a)| == |a|;
    assert a[0] in multiset(b) && b[0] in multiset(a);
    HeadFirst(b, a[0], desc);
    HeadFirst(a, b[0], desc);
  }

  lemma TailsAgree(a: seq<Message>, b: seq<Message>)
    requires a != [] && b != [] && a[0] == b[0] && multiset(a) == multiset(b)
    ensures multiset(a[1..]) == multiset(b[1..])
  {
    assert a == [a[0]] + a[1..] && b == [b[0]] + b[1..];
    assert multiset(a[1..]) == multiset(a) - multiset{a[0]};
    assert multiset(b[1..]) == multiset(b) - multiset{b[0]};
  }

  function Reverse(s: seq<Message>): (r: seq<Message>)
    ensures |r| == |s|
    ensures forall i :: 0 <= i < |s| ==> r[i] == s[|s| - 1 - i]
  {
    if s == [] then [] else Reverse(s[1..]) + [s[0]]
  }

  lemma {:induction false} ReverseMultiset(s: seq<Message>)
    ensures multiset(Reverse(s)) == multiset(s)
  {
    if s != [] {
      ReverseMultiset(s[1..]);
      assert s == [s[0]] + s[1..];
    }
  }

  // ---------------------------------------------------------------------
  // The readers
  // ---------------------------------------------------------------------

  function InThread(t: string): Message -> bool {
    (m: Message) => m.threadId == t
  }

  /** `WHERE thread_id = ? ORDER BY created_at ASC, rowid ASC`. */
  function ThreadListing(ms: seq<Message>, t: string): seq<Message> {
    Sort(Filter(InThread(t), ms), false)
  }

  /** SQLite's `LIMIT`: a negative limit means no limit. */
  function Limit(s: seq<Message>, limit: int): (r: seq<Message>)
    ensures |r| == if 0 <= limit < |s| then limit else |s|
    ensures r == s[..|r|]
  {
    if limit < 0 || limit >= |s| then s else s[..limit]
  }

  /** SQLite's `LIMIT ? OFFSET ?`: a negative offset counts as none. */
  function Window(s: seq<Message>, limit: int, offset: int): (r: seq<Message>)
    ensures offset >= |s| ==> r == []
    ensures 0 <= offset < |s| ==> |r| == (if 0 <= limit < |s| - offset then limit else |s| - offset)
    ensures 0 <= offset < |s| ==> r == s[offset..offset + |r|]
    ensures offset < 0 ==> r == Limit(s, limit)
  {
    var lo := if offset < 0 then 0 else offset;
    if lo >= |s| then [] else Limit(s[lo..], limit)
  }

  /** `get_thread_messages`. */
  function ThreadMessages(ms: seq<Message>, t: string): seq<MessageView> {
    Map(View, ThreadListing(ms, t))
  }

  /** `get_paginated_thread_messages`: the page, and the count of the thread's
      messages from its own query. */
  function PaginatedThreadMessages(ms: seq<Message>, t: string, limit: int, offset: int): Page {
    Page(Map(View, Window(ThreadListing(ms, t), limit, offset)), |Filter(InThread(t), ms)|)
  }

  /** The inner query of `get_recent_thread_messages`: newest first, at most `limit`. */
  function NewestFirst(ms: seq<Message>, t: string, limit: int): seq<Message> {
    Limit(Sort(Filter(InThread(t), ms), true), limit)
  }

  /** `get_recent_thread_messages`: the inner query re-sorted oldest first. */
  function RecentListing(ms: seq<Message>, t: string, limit: int): seq<Message> {
    Sort(NewestFirst(ms, t, limit), false)
  }

  function RecentThreadMessages(ms: seq<Message>, t: string, limit: int): seq<MessageView> {
    Map(View, RecentListing(ms, t, limit))
  }

  /** The entry for (thread, user), if any. */
  function CacheLookup(cache: seq<CacheEntry>, t: string, u: string): (r: Option<CacheEntry>)
    ensures r.Some? ==> r.value in cache && r.value.threadId == t && r.value.userId == u
    ensures r.None? ==> forall e :: e in cache ==> e.threadId != t || e.userId != u
  {
    if cache == [] then None
    else if cache[0].threadId == t && cache[0].userId == u then Some(cache[0])
    else CacheLookup(cache[1..], t, u)
  }

  /** `get_cached_user_data`: `queryFails` stands for an exception from the query
      and `decode` for `json.loads`, with `None` for text it refuses. */
  function CachedUserData(cache: seq<CacheEntry>, t: string, u: string,
                          queryFails: bool, decode: string -> Option<Json>): Option<Json> {
    if queryFails then None
    else match CacheLookup(cache, t, u)
      case None => None
      case Some(e) => decode(e.dataJson)
  }

  /** `INSERT OR REPLACE`: the rows that clash with the new one on its id or on
      (thread, user) are deleted first, then it is appended. */
  function ReplaceEntry(cache: seq<CacheEntry>, e: CacheEntry): seq<CacheEntry> {
    Filter(Clashless(e), cache) + [e]
  }

  function Clashless(e: CacheEntry): CacheEntry -> bool {
    (x: CacheEntry) => x.id != e.id && (x.threadId != e.threadId || x.userId != e.userId)
  }

  // ---------------------------------------------------------------------
  // Retention
  // ---------------------------------------------------------------------

  /** `datetime('now', '-N days')`: with a negative `N` the modifier reads "--N days",
      which SQLite refuses, and the result is NULL. */
  function Cutoff(now: int, days: int): Option<int> {
    if days < 0 then None else Some(now - days * SecondsPerDay)
  }

  /** `created_at < cutoff` is true only for a non-NULL cutoff. */
  function OlderThan(cutoff: Option<int>): Message -> bool {
    (m: Message) => cutoff.Some? && m.createdAt < cutoff.value
  }

  function NotOlderThan(cutoff: Option<int>): Message -> bool {
    (m: Message) => !(cutoff.Some? && m.createdAt < cutoff.value)
  }

  function EntryNotOlderThan(cutoff: Option<int>): CacheEntry -> bool {
    (e: CacheEntry) => !(cutoff.Some? && e.createdAt < cutoff.value)
  }

  function EntryOlderThan(cutoff: Option<int>): CacheEntry -> bool {
    (e: CacheEntry) => cutoff.Some? && e.createdAt < cutoff.value
  }

  // ---------------------------------------------------------------------
  // The store
  // ---------------------------------------------------------------------

  class ConversationStore {
    /** Thread id to its creation time. */
    var threads: map<string, int>
    /** The message table in rowid order. */
    var messages: seq<Message>
    /** The user-data cache in rowid order. */
    var cache: seq<CacheEntry>

    predicate Valid()
      reads this
    {
      MessagesValid(threads, messages) && CacheValid(threads, cache)
    }

    constructor ()
      ensures Valid()
      ensures threads == map[] && messages == [] && cache == []
    {
      threads, messages, cache := map[], [], [];
    }

    /** `create_thread`, with the fresh id and the current time given. */
    method CreateThread(id: string, now: int) returns (r: Result<string, DbError>)
      requires Valid()
      modifies this
      ensures Valid()
      ensures r.Ok? <==> id !in old(threads)
      ensures r.Ok? ==> r.value == id && threads == old(threads)[id := now] && ThreadExists(id)
      ensures r.Err? ==> r.error == DuplicateId && threads == old(threads)
      ensures messages == old(messages) && cache == old(cache)
    {
      if id in threads {
        return Err(DuplicateId);
      }
      threads := threads[id := now];
      r := Ok(id);
    }

    /** `thread_exists`. */
    predicate ThreadExists(id: string)
      reads this
    {
      id in threads
    }

    /** `add_message`, with the fresh id and the current time given. */
    method AddMessage(threadId: string, role: string, content: string, id: string, now: int,
                      userId: string := "", language: string := "")
      returns (r: Result<string, DbError>)
      requires Valid()
      modifies this
      ensures Valid()
      ensures r.Ok? <==> role in Roles && id !in MessageIds(old(messages)) && threadId in old(threads)
      ensures r.Ok? ==>
        && r.value == id
        && messages == old(messages)
          + [Message(id, threadId, role, content, userId, language, now, NextRowid(old(messages)))]
      ensures r.Err? ==> messages == old(messages)
      ensures threads == old(threads) && cache == old(cache)
    {
      if role !in Roles {
        return Err(BadRole);
      }
      if id in MessageIds(messages) {
        return Err(DuplicateId);
      }
      if threadId !in threads {
        return Err(UnknownThread);
      }
      var m := Message(id, threadId, role, content, userId, language, now, NextRowid(messages));
      messages := messages + [m];
      r := Ok(id);
    }

    function GetThreadMessages(t: string): seq<MessageView>
      reads this
    {
      ThreadMessages(messages, t)
    }

    function GetPaginatedThreadMessages(t: string, limit: int, offset: int): Page
      reads this
    {
      PaginatedThreadMessages(messages, t, limit, offset)
    }

    function GetRecentThreadMessages(t: string, limit: int): seq<MessageView>
      reads this
    {
      RecentThreadMessages(messages, t, limit)
    }

    function GetCachedUserData(t: string, u: string, queryFails: bool, decode: string -> Option<Json>): Option<Json>
      reads this
    {
      CachedUserData(cache, t, u, queryFails, decode)
    }

    /** `save_user_data`: `encode` stands for `json.dumps`. */
    method SaveUserData(t: string, u: string, data: Json, id: string, now: int, encode: Json -> string)
      returns (r: Result<string, DbError>)
      requires Valid()
      modifies this
      ensures Valid()
      ensures r.Ok? <==> t in old(threads)
      ensures r.Ok? ==> r.value == id && cache == ReplaceEntry(old(cache), CacheEntry(id, t, u, encode(data), now))
      ensures r.Err? ==> r.error == UnknownThread && cache == old(cache)
      ensures threads == old(threads) && messages == old(messages)
    {
      if t !in threads {
        return Err(UnknownThread);
      }
      var e := CacheEntry(id, t, u, encode(data), now);
      ReplaceKeepsCacheValid(threads, cache, e);
      cache := ReplaceEntry(cache, e);
      r := Ok(id);
    }

    /** `cleanup_old_data`; a missing argument falls back to a retention setting the
        configuration does not declare, so the call fails before deleting anything. */
    method CleanupOldData(now: int, messageDays: Option<int> := None, cacheDays: Option<int> := None)
      returns (r: Result<(nat, nat), DbError>)
      requires Valid()
      modifies this
      ensures Valid()
      ensures r.Err? <==> messageDays.None? || cacheDays.None?
      ensures r.Err? ==> r.error == MissingSetting && messages == old(messages) && cache == old(cache)
      ensures r.Ok? ==>
        && messages == Filter(NotOlderThan(Cutoff(now, messageDays.value)), old(messages))
        && cache == Filter(EntryNotOlderThan(Cutoff(now, cacheDays.value)), old(cache))
        && r.value.0 == |Filter(OlderThan(Cutoff(now, messageDays.value)), old(messages))|
        && r.value.1 == |Filter(EntryOlderThan(Cutoff(now, cacheDays.value)), old(cache))|
      ensures threads == old(threads)
    {
      if messageDays.None? || cacheDays.None? {
        return Err(MissingSetting);
      }
      var keptMessages := Filter(NotOlderThan(Cutoff(now, messageDays.value)), messages);
      var keptCache := Filter(EntryNotOlderThan(Cutoff(now, cacheDays.value)), cache);
      FilterKeepsMessagesValid(threads, messages, NotOlderThan(Cutoff(now, messageDays.value)));
      FilterKeepsCacheValid(threads, cache, EntryNotOlderThan(Cutoff(now, cacheDays.value)));
      FilterComplement(NotOlderThan(Cutoff(now, messageDays.value)), OlderThan(Cutoff(now, messageDays.value)), messages);
      FilterComplement(EntryNotOlderThan(Cutoff(now, cacheDays.value)), EntryOlderThan(Cutoff(now, cacheDays.value)), cache);
      var msgsDeleted := |messages| - |keptMessages|;
      var cacheDeleted := |cache| - |keptCache|;
      messages, cache := keptMessages, keptCache;
      r := Ok((msgsDeleted, cacheDeleted));
    }
  }

  // ---------------------------------------------------------------------
  // The invariants are kept
  // ---------------------------------------------------------------------

  lemma FilterKeepsMessagesValid(threads: map<string, int>, ms: seq<Message>, f: Message -> bool)
    requires MessagesValid(threads, ms)
    ensures MessagesValid(threads, Filter(f, ms))
  {
    FilterPairwise(f, ms, (a: Message, b: Message) => a.rowid < b.rowid);
    FilterPairwise(f, ms, (a: Message, b: Message) => a.id != b.id);
  }

  lemma FilterKeepsCacheValid(threads: map<string, int>, cache: seq<CacheEntry>, f: CacheEntry -> bool)
    requires CacheValid(threads, cache)
    ensures CacheValid(threads, Filter(f, cache))
  {
    FilterPairwise(f, cache, (a: CacheEntry, b: CacheEntry) =>
      a.id != b.id && (a.threadId != b.threadId || a.userId != b.userId));
  }

  lemma ReplaceKeepsCacheValid(threads: map<string, int>, cache: seq<CacheEntry>, e: CacheEntry)
    requires CacheValid(threads, cache) && e.threadId in threads
    ensures CacheValid(threads, ReplaceEntry(cache, e))
  {
    var kept := Filter(Clashless(e), cache);
    FilterKeepsCacheValid(threads, cache, Clashless(e));
    var r := kept + [e];
    forall i, j | 0 <= i < j < |r|
      ensures r[i].id != r[j].id && (r[i].threadId != r[j].threadId || r[i].userId != r[j].userId)
    {
      if j == |r| - 1 {
        assert r[i] in kept;
        assert Clashless(e)(r[i]);
      } else {
        assert r[i] == kept[i] && r[j] == kept[j];
      }
    }
  }

  // ---------------------------------------------------------------------
  // What the readers return
  // ---------------------------------------------------------------------

  /** A thread's listing holds exactly its messages, each as often as stored,
      in ascending (created_at, rowid) order. */
  lemma ListingExact(ms: seq<Message>, t: string)
    ensures multiset(ThreadListing(ms, t)) == multiset(Filter(InThread(t), ms))
    ensures forall x :: x in ThreadListing(ms, t) <==> x in ms && x.threadId == t
    ensures Sorted(ThreadListing(ms, t), false)
    ensures |ThreadMessages(ms, t)| == |Filter(InThread(t), ms)|
  {
    var f := Filter(InThread(t), ms);
    SortSorted(f, false);
    assert |ThreadListing(ms, t)| == |multiset(ThreadListing(ms, t))| == |multiset(f)| == |f|;
    forall x
      ensures x in ThreadListing(ms, t) <==> x in ms && x.threadId == t
    {
      assert x in ThreadListing(ms, t) <==> x in multiset(f);
    }
  }

  /** The count ignores `limit` and `offset`; the page is the window of the
      ordered listing that starts at `offset`, empty once `offset` reaches the count. */
  lemma PaginationWindow(ms: seq<Message>, t: string, limit: int, offset: int)
    ensures PaginatedThreadMessages(ms, t, limit, offset).total == |ThreadMessages(ms, t)|
    ensures offset >= |ThreadMessages(ms, t)| ==> PaginatedThreadMessages(ms, t, limit, offset).messages == []
    ensures 0 <= offset < |ThreadMessages(ms, t)| && 0 <= limit ==>
      PaginatedThreadMessages(ms, t, limit, offset).messages
        == ThreadMessages(ms, t)[offset..if offset + limit < |ThreadMessages(ms, t)| then offset + limit else |ThreadMessages(ms, t)|]
  {
    ListingExact(ms, t);
    WindowOfViews(ThreadListing(ms, t), limit, offset);
  }

  lemma WindowOfViews(all: seq<Message>, limit: int, offset: int)
    ensures offset >= |all| ==> Map(View, Window(all, limit, offset)) == []
    ensures 0 <= offset < |all| && 0 <= limit ==>
      Map(View, Window(all, limit, offset))
        == Map(View, all)[offset..if offset + limit < |all| then offset + limit else |all|]
  {
    if 0 <= offset < |all| && 0 <= limit {
      var hi := if offset + limit < |all| then offset + limit else |all|;
      assert Window(all, limit, offset) == all[offset..hi];
      MapSlice(View, all, offset, hi);
    }
  }

  lemma ReverseSorted(s: seq<Message>)
    requires Sorted(s, true)
    ensures Sorted(Reverse(s), false)
  {
    var r := Reverse(s);
    forall i, j | 0 <= i < j < |r|
      ensures !Ahead(r[j], r[i], false)
    {
      assert r[j] == s[|s| - 1 - j] && r[i] == s[|s| - 1 - i];
    }
  }

  lemma PrefixSorted(s: seq<Message>, n: nat, desc: bool)
    requires n <= |s| && Sorted(s, desc)
    ensures Sorted(s[..n], desc)
  {
    assert forall i :: 0 <= i < n ==> s[..n][i] == s[i];
  }

  /** Read backwards, the newest-first order is the oldest-first order. */
  lemma ReverseOfNewestFirst(f: seq<Message>)
    requires RowidsDetermine(f)
    ensures Reverse(Sort(f, true)) == Sort(f, false)
  {
    var newest := Sort(f, true);
    SortSorted(f, true);
    ReverseSorted(newest);
    ReverseMultiset(newest);
    SortSorted(f, false);
    RowidsDetermineSub(Sort(f, false), f);
    SortedUnique(Sort(f, false), Reverse(newest), false);
  }

  /** Re-sorting a prefix of a newest-first order oldest first reverses it. */
  lemma ResortPrefix(newest: seq<Message>, n: nat)
    requires n <= |newest| && Sorted(newest, true) && RowidsDetermine(newest)
    ensures Sort(newest[..n], false) == Reverse(newest[..n])
  {
    var taken := newest[..n];
    PrefixSorted(newest, n, true);
    ReverseSorted(taken);
    ReverseMultiset(taken);
    SortSorted(taken, false);
    assert newest == taken + newest[n..];
    RowidsDetermineSub(Reverse(taken), newest);
    SortedUnique(Reverse(taken), Sort(taken, false), false);
  }

  lemma ReversePrefix(s: seq<Message>, n: nat)
    requires n <= |s|
    ensures Reverse(s[..n]) == Reverse(s)[|s| - n..]
  {
    var a := Reverse(s[..n]);
    assert forall i :: 0 <= i < n ==> a[i] == s[n - 1 - i];
    SliceOfReversal(s, a, Reverse(s), n);
  }

  /** The last `n` elements of a reversal are the reversal of the first `n`. */
  lemma SliceOfReversal<T>(s: seq<T>, a: seq<T>, full: seq<T>, n: nat)
    requires n <= |s| && |a| == n && |full| == |s|
    requires forall i :: 0 <= i < n ==> a[i] == s[n - 1 - i]
    requires forall j :: 0 <= j < |s| ==> full[j] == s[|s| - 1 - j]
    ensures a == full[|s| - n..]
  {
    forall i | 0 <= i < n
      ensures a[i] == full[|s| - n..][i]
    {
      assert full[|s| - n..][i] == full[|s| - n + i];
    }
  }

  /** The most recent `limit` messages, oldest first, are the tail of the full
      listing: all of it for a negative limit, `min(limit, n)` rows otherwise. */
  lemma RecentIsSuffix(ms: seq<Message>, t: string, limit: int)
    requires RowidsIncrease(ms)
    ensures RecentListing(ms, t, limit) == ThreadListing(ms, t)[|ThreadListing(ms, t)| - |NewestFirst(ms, t, limit)|..]
    ensures |NewestFirst(ms, t, limit)| == if 0 <= limit < |ThreadListing(ms, t)| then limit else |ThreadListing(ms, t)|
  {
    var f := Filter(InThread(t), ms);
    RowidsIncreaseDetermine(ms);
    ListingExact(ms, t);
    RecentSteps(f, limit);
  }

  lemma RecentSteps(f: seq<Message>, limit: int)
    requires RowidsDetermine(f)
    ensures Sort(Limit(Sort(f, true), limit), false) == Sort(f, false)[|f| - |Limit(Sort(f, true), limit)|..]
  {
    var newest := Sort(f, true);
    var n := |Limit(newest, limit)|;
    assert |newest| == |multiset(newest)| == |multiset(f)| == |f|;
    ReverseOfNewestFirst(f);
    SortSorted(f, true);
    RowidsDetermineSub(newest, f);
    ResortPrefix(newest, n);
    ReversePrefix(newest, n);
  }

  /** A message stored under another thread leaves a thread's listing as it was. */
  lemma OtherThreadUnchanged(ms: seq<Message>, m: Message, t: string)
    requires m.threadId != t
    ensures ThreadListing(ms + [m], t) == ThreadListing(ms, t)
  {
    FilterAppend(InThread(t), ms, [m]);
    assert Filter(InThread(t), [m]) == [];
    assert Filter(InThread(t), ms) + [] == Filter(InThread(t), ms);
  }

  /** A message appended with the next rowid and a time no earlier than any stored
      time ends its thread's listing. */
  lemma NewestComesLast(ms: seq<Message>, m: Message)
    requires RowidsIncrease(ms)
    requires m.rowid == NextRowid(ms)
    requires forall x :: x in ms ==> x.createdAt <= m.createdAt
    ensures ThreadListing(ms + [m], m.threadId) == ThreadListing(ms, m.threadId) + [m]
  {
    var t := m.threadId;
    FilterAppend(InThread(t), ms, [m]);
    assert Filter(InThread(t), [m]) == [m];
    RowidsIncreaseSnoc(ms, m);
    RowidsIncreaseDetermine(ms + [m]);
    ListingExact(ms, t);
    forall x | x in ThreadListing(ms, t)
      ensures Before(x, m)
    {
    }
    SortAfter(Filter(InThread(t), ms), m);
  }

  lemma RowidsIncreaseSnoc(ms: seq<Message>, m: Message)
    requires RowidsIncrease(ms)
    requires forall x :: x in ms ==> x.rowid < m.rowid
    ensures RowidsIncrease(ms + [m])
  {
    forall i, j | 0 <= i < j < |ms + [m]|
      ensures (ms + [m])[i].rowid < (ms + [m])[j].rowid
    {
      if j == |ms| {
        assert (ms + [m])[i] in ms;
      }
    }
  }

  /** Sorting rows that all come before `m`, with `m` added last, puts `m` last. */
  lemma SortAfter(f: seq<Message>, m: Message)
    requires RowidsDetermine(f + [m])
    requires forall x :: x in Sort(f, false) ==> Before(x, m)
    ensures Sort(f + [m], false) == Sort(f, false) + [m]
  {
    var before := Sort(f, false);
    var after := before + [m];
    SortSorted(f, false);
    assert Sorted(after, false) by {
      forall i, j | 0 <= i < j < |after|
        ensures !Ahead(after[j], after[i], false)
      {
        if j == |after| - 1 {
          assert after[i] in before;
        } else {
          assert after[i] == before[i] && after[j] == before[j];
        }
      }
    }
    SortSorted(f + [m], false);
    assert multiset(after) == multiset(f + [m]);
    RowidsDetermineSub(Sort(f + [m], false), f + [m]);
    SortedUnique(Sort(f + [m], false), after, false);
  }

  // ---------------------------------------------------------------------
  // What the cache returns
  // ---------------------------------------------------------------------

  lemma {:induction false} LookupLast(kept: seq<CacheEntry>, e: CacheEntry)
    requires forall x :: x in kept ==> x.threadId != e.threadId || x.userId != e.userId
    ensures CacheLookup(kept + [e], e.threadId, e.userId) == Some(e)
  {
    if kept != [] {
      assert (kept + [e])[1..] == kept[1..] + [e];
      LookupLast(kept[1..], e);
    }
  }

  /** After `save_user_data`, reading the same thread and user gives back the saved
      data, as long as decoding undoes encoding. */
  lemma SaveThenGet(cache: seq<CacheEntry>, t: string, u: string, data: Json, id: string, now: int,
                    encode: Json -> string, decode: string -> Option<Json>)
    requires decode(encode(data)) == Some(data)
    ensures CachedUserData(ReplaceEntry(cache, CacheEntry(id, t, u, encode(data), now)), t, u, false, decode) == Some(data)
  {
    var e := CacheEntry(id, t, u, encode(data), now);
    var kept := Filter(Clashless(e), cache);
    forall x | x in kept
      ensures x.threadId != t || x.userId != u
    {
      assert Clashless(e)(x);
    }
    LookupLast(kept, e);
  }

  /** Saving for one (thread, user) under a fresh id leaves what is read for every
      other pair. */
  lemma SaveLeavesOthers(cache: seq<CacheEntry>, e: CacheEntry, t: string, u: string)
    requires forall x :: x in cache ==> x.id != e.id
    requires t != e.threadId || u != e.userId
    ensures CacheLookup(ReplaceEntry(cache, e), t, u) == CacheLookup(cache, t, u)
  {
    LookupFiltered(Clashless(e), cache, t, u);
    LookupSkipsLast(Filter(Clashless(e), cache), e, t, u);
  }

  lemma {:induction false} LookupFiltered(f: CacheEntry -> bool, cache: seq<CacheEntry>, t: string, u: string)
    requires forall x :: x in cache && x.threadId == t && x.userId == u ==> f(x)
    ensures CacheLookup(Filter(f, cache), t, u) == CacheLookup(cache, t, u)
  {
    if cache != [] {
      assert forall x :: x in cache[1..] ==> x in cache;
      LookupFiltered(f, cache[1..], t, u);
      var r := Filter(f, cache);
      var rest := Filter(f, cache[1..]);
      if f(cache[0]) {
        assert r == [cache[0]] + rest;
        assert r[0] == cache[0] && r[1..] == rest;
      } else {
        assert r == rest;
        assert cache[0].threadId != t || cache[0].userId != u;
      }
    }
  }

  lemma {:induction false} FilterAll<T(!new)>(f: T -> bool, s: seq<T>)
    requires forall x :: x in s ==> f(x)
    ensures Filter(f, s) == s
  {
    if s != [] {
      assert forall x :: x in s[1..] ==> x in s;
      FilterAll(f, s[1..]);
      assert s == [s[0]] + s[1..];
    }
  }

  lemma {:induction false} LookupSkipsLast(cache: seq<CacheEntry>, e: CacheEntry, t: string, u: string)
    requires t != e.threadId || u != e.userId
    ensures CacheLookup(cache + [e], t, u) == CacheLookup(cache, t, u)
  {
    if cache != [] {
      assert (cache + [e])[1..] == cache[1..] + [e];
      LookupSkipsLast(cache[1..], e, t, u);
    }
  }

  /** `get_cached_user_data` gives None exactly when the query fails, no entry
      exists, or the stored text does not decode. */
  lemma CachedNoneCases(cache: seq<CacheEntry>, t: string, u: string, queryFails: bool, decode: string -> Option<Json>)
    ensures CachedUserData(cache, t, u, queryFails, decode).None? <==>
      queryFails
      || (forall e :: e in cache ==> e.threadId != t || e.userId != u)
      || decode(CacheLookup(cache, t, u).value.dataJson).None?
  {
  }

  // ---------------------------------------------------------------------
  // What retention removes
  // ---------------------------------------------------------------------

  /** Cleanup keeps exactly the messages not older than the cutoff, in order; a
      negative number of days yields no cutoff and keeps everything. */
  lemma CleanupKeeps(ms: seq<Message>, now: int, days: int)
    ensures forall x :: x in Filter(NotOlderThan(Cutoff(now, days)), ms) <==>
      x in ms && (days < 0 || x.createdAt >= now - days * SecondsPerDay)
    ensures days < 0 ==> Filter(NotOlderThan(Cutoff(now, days)), ms) == ms
    ensures |Filter(NotOlderThan(Cutoff(now, days)), ms)| + |Filter(OlderThan(Cutoff(now, days)), ms)| == |ms|
  {
    if days < 0 {
      FilterAll(NotOlderThan(Cutoff(now, days)), ms);
    }
    FilterComplement(NotOlderThan(Cutoff(now, days)), OlderThan(Cutoff(now, days)), ms);
  }
}
