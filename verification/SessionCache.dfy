/**
 * The session cache (src/modules/auth/session-cache.ts): two bounded maps with a time to live and
 * insertion-order eviction, one for sessions and one for resolved sign-in identities.
 */
module SessionCache {
  import opened Common

  const TTL_MS := 15_000
  const MAX_ENTRIES := 5_000

  /** `value` is the workspace of a session, or the resolved identity of a sign-in. */
  datatype Entry = Entry(key: Id, user: Id, value: Id, validUntil: int)

  // ---------------------------------------------------------------------------
  // An insertion-ordered map, as a sequence of entries with distinct keys

  function IndexOf(entries: seq<Entry>, key: Id): (i: nat)
    ensures i <= |entries|
    ensures i < |entries| ==> entries[i].key == key
    ensures forall j :: 0 <= j < i ==> entries[j].key != key
  {
    if entries == [] || entries[0].key == key then 0 else IndexOf(entries[1..], key) + 1
  }

  function Get(entries: seq<Entry>, key: Id): Option<Entry> {
    var i := IndexOf(entries, key);
    if i < |entries| then Some(entries[i]) else None
  }

  function Delete(entries: seq<Entry>, key: Id): seq<Entry> {
    var i := IndexOf(entries, key);
    if i < |entries| then entries[..i] + entries[i + 1..] else entries
  }

  /** Setting a key that is present keeps its place; a new key goes last. */
  function Set(entries: seq<Entry>, e: Entry): seq<Entry> {
    var i := IndexOf(entries, e.key);
    if i < |entries| then entries[i := e] else entries + [e]
  }

  function DeleteUser(entries: seq<Entry>, user: Id): seq<Entry> {
    if entries == [] then [] else
      var n := |entries| - 1;
      DeleteUser(entries[..n], user) + (if entries[n].user == user then [] else [entries[n]])
  }

  predicate Distinct(entries: seq<Entry>) {
    forall i, j :: 0 <= i < j < |entries| ==> entries[i].key != entries[j].key
  }

  // ---------------------------------------------------------------------------
  // The operations of one map

  function Remember(entries: seq<Entry>, key: Id, user: Id, value: Id, now: int): seq<Entry> {
    var room := if |entries| >= MAX_ENTRIES && Get(entries, key).None? then entries[1..] else entries;
    Set(room, Entry(key, user, value, now + TTL_MS))
  }

  /** A lookup answers with a value still valid, and drops the entry when it is not. */
  function Look(entries: seq<Entry>, key: Id, now: int): (Option<Id>, seq<Entry>) {
    var e := Get(entries, key);
    if e.None? then (None, entries)
    else if e.value.validUntil <= now then (None, Delete(entries, key))
    else (Some(e.value.value), entries)
  }

  // ---------------------------------------------------------------------------
  // The two maps and their history

  datatype Store = Sessions | Identities

  datatype Caches = Caches(sessions: seq<Entry>, identities: seq<Entry>)

  datatype Event =
    | Remembered(store: Store, key: Id, user: Id, value: Id, now: int)
    | LookedUp(store: Store, key: Id, now: int)
    | Forgot(key: Id)
    | ForgotUser(user: Id)
    | Cleared

  function Entries(c: Caches, store: Store): seq<Entry> { if store == Sessions then c.sessions else c.identities }

  function With(c: Caches, store: Store, entries: seq<Entry>): Caches {
    if store == Sessions then c.(sessions := entries) else c.(identities := entries)
  }

  function Apply(c: Caches, e: Event): Caches {
    match e
    case Remembered(store, key, user, value, now) => With(c, store, Remember(Entries(c, store), key, user, value, now))
    case LookedUp(store, key, now) => With(c, store, Look(Entries(c, store), key, now).1)
    case Forgot(key) => c.(sessions := Delete(c.sessions, key))
    case ForgotUser(user) => Caches(DeleteUser(c.sessions, user), DeleteUser(c.identities, user))
    case Cleared => Caches([], [])
  }

  function After(history: seq<Event>): Caches {
    if history == [] then Caches([], []) else Apply(After(history[..|history| - 1]), history[|history| - 1])
  }

  /** What one event says of a key; expiry and eviction aside, which can only lose it. */
  function Effect(before: Option<Entry>, e: Event, store: Store, key: Id): Option<Entry> {
    match e
    case Remembered(s, k, user, value, now) =>
      if s == store && k == key then Some(Entry(key, user, value, now + 15_000)) else before
    case LookedUp(_, _, _) => before
    case Forgot(k) => if store == Sessions && k == key then None else before
    case ForgotUser(user) => if before.Some? && before.value.user == user then None else before
    case Cleared => None
  }

  /** What the history says of a key: the latest remember, unless something since has revoked it. */
  function Latest(history: seq<Event>, store: Store, key: Id): Option<Entry> {
    if history == [] then None else
      Effect(Latest(history[..|history| - 1], store, key), history[|history| - 1], store, key)
  }

  // ---------------------------------------------------------------------------
  // What each map operation does to every key

  lemma GetAt(entries: seq<Entry>, i: nat)
    requires Distinct(entries) && i < |entries|
    ensures Get(entries, entries[i].key) == Some(entries[i])
  {
  }

  lemma GetIff(entries: seq<Entry>, e: Entry)
    requires Distinct(entries)
    ensures Get(entries, e.key) == Some(e) <==> e in entries
  {
    if e in entries {
      var i :| 0 <= i < |entries| && entries[i] == e;
      GetAt(entries, i);
    }
  }

  lemma DeleteGets(entries: seq<Entry>, key: Id, k: Id)
    requires Distinct(entries)
    ensures Distinct(Delete(entries, key)) && |Delete(entries, key)| <= |entries|
    ensures Get(Delete(entries, key), k) == if k == key then None else Get(entries, k)
  {
    var i, after := IndexOf(entries, key), Delete(entries, key);
    if i < |entries| {
      var j, j' := IndexOf(entries, k), IndexOf(after, k);
      if k != key && j < |entries| {
        var at := if j < i then j else j - 1;
        assert after[at] == entries[j];
        GetAt(after, at);
      }
    }
  }

  lemma SetGets(entries: seq<Entry>, e: Entry, k: Id)
    requires Distinct(entries)
    ensures Distinct(Set(entries, e))
    ensures Get(Set(entries, e), k) == if k == e.key then Some(e) else Get(entries, k)
  {
    var i, after := IndexOf(entries, e.key), Set(entries, e);
    GetAt(after, i);
    var j := IndexOf(entries, k);
    if k != e.key && j < |entries| {
      assert after[j] == entries[j];
      GetAt(after, j);
    }
  }

  lemma DropFirstGets(entries: seq<Entry>, k: Id)
    requires Distinct(entries) && entries != []
    ensures Distinct(entries[1..])
    ensures Get(entries[1..], k) == if k == entries[0].key then None else Get(entries, k)
  {
    var j := IndexOf(entries, k);
    if k != entries[0].key && j < |entries| {
      assert entries[1..][j - 1] == entries[j];
      GetAt(entries[1..], j - 1);
    }
  }

  lemma {:induction false} DeleteUserKeeps(entries: seq<Entry>, user: Id)
    ensures |DeleteUser(entries, user)| <= |entries|
    ensures forall e :: e in DeleteUser(entries, user) <==> e in entries && e.user != user
  {
    if entries != [] {
      DeleteUserKeeps(entries[..|entries| - 1], user);
    }
  }

  lemma {:induction false} DeleteUserDistinct(entries: seq<Entry>, user: Id)
    requires Distinct(entries)
    ensures Distinct(DeleteUser(entries, user))
  {
    if entries != [] {
      var n := |entries| - 1;
      DeleteUserDistinct(entries[..n], user);
      DeleteUserKeeps(entries[..n], user);
      var before := DeleteUser(entries[..n], user);
      forall i | 0 <= i < |before| ensures before[i].key != entries[n].key { assert before[i] in entries[..n]; }
    }
  }

  lemma DeleteUserGets(entries: seq<Entry>, user: Id, k: Id)
    requires Distinct(entries)
    ensures Distinct(DeleteUser(entries, user))
    ensures var e := Get(entries, k);
      Get(DeleteUser(entries, user), k) == if e.Some? && e.value.user == user then None else e
  {
    DeleteUserDistinct(entries, user);
    DeleteUserKeeps(entries, user);
    var after := DeleteUser(entries, user);
    var e, e' := Get(entries, k), Get(after, k);
    if e'.Some? {
      assert e'.value in after;
      GetIff(entries, e'.value);
    }
    if e.Some? && e.value.user != user {
      GetIff(after, e.value);
    }
  }

  /** Remembering: the new entry is found, at most the first-inserted key is lost, the rest is as it was. */
  lemma RememberGets(entries: seq<Entry>, key: Id, user: Id, value: Id, now: int, k: Id)
    requires Distinct(entries) && |entries| <= 5_000
    ensures var after := Remember(entries, key, user, value, now);
      var evicts := |entries| == 5_000 && Get(entries, key).None?;
      && Distinct(after) && |after| <= 5_000
      && |after| == |entries| + (if evicts || Get(entries, key).Some? then 0 else 1)
      && Get(after, k) == if k == key then Some(Entry(key, user, value, now + 15_000))
                          else if evicts && k == entries[0].key then None
                          else Get(entries, k)
  {
    var room := if |entries| >= MAX_ENTRIES && Get(entries, key).None? then entries[1..] else entries;
    if room != entries {
      DropFirstGets(entries, k);
      DropFirstGets(entries, key);
    }
    SetGets(room, Entry(key, user, value, now + TTL_MS), k);
  }

  /** A refresh does not move a key: the order of keys changes only by eviction and appending. */
  lemma RememberOrder(entries: seq<Entry>, key: Id, user: Id, value: Id, now: int)
    requires Distinct(entries) && |entries| <= 5_000
    ensures Keys(Remember(entries, key, user, value, now)) ==
      if Get(entries, key).Some? then Keys(entries)
      else if |entries| < 5_000 then Keys(entries) + [key]
      else Keys(entries)[1..] + [key]
  {
    if |entries| >= MAX_ENTRIES && Get(entries, key).None? {
      DropFirstGets(entries, key);
    }
  }

  function Keys(entries: seq<Entry>): (k: seq<Id>)
    ensures |k| == |entries|
  {
    seq(|entries|, i requires 0 <= i < |entries| => entries[i].key)
  }

  // ---------------------------------------------------------------------------
  // The caches against their history

  predicate Bounded(c: Caches) {
    && Distinct(c.sessions) && Distinct(c.identities)
    && |c.sessions| <= 5_000 && |c.identities| <= 5_000
  }

  lemma LookKeeps(entries: seq<Entry>, key: Id, now: int, k: Id)
    requires Distinct(entries)
    ensures var after := Look(entries, key, now).1;
      && Distinct(after) && |after| <= |entries|
      && Get(after, k) == if k == key && Look(entries, key, now).0.None? then None else Get(entries, k)
  {
    DeleteGets(entries, key, k);
  }

  lemma ApplyBounded(c: Caches, e: Event)
    requires Bounded(c)
    ensures Bounded(Apply(c, e))
  {
    match e
    case Remembered(store, key, user, value, now) => RememberGets(Entries(c, store), key, user, value, now, key);
    case LookedUp(store, key, now) => LookKeeps(Entries(c, store), key, now, key);
    case Forgot(key) => DeleteGets(c.sessions, key, key);
    case ForgotUser(user) =>
      DeleteUserDistinct(c.sessions, user);
      DeleteUserDistinct(c.identities, user);
      DeleteUserKeeps(c.sessions, user);
      DeleteUserKeeps(c.identities, user);
    case Cleared =>
  }

  /** After any history neither map exceeds its bound. */
  lemma {:induction false} AlwaysBounded(history: seq<Event>)
    ensures Bounded(After(history))
  {
    if history != [] {
      AlwaysBounded(history[..|history| - 1]);
      ApplyBounded(After(history[..|history| - 1]), history[|history| - 1]);
    }
  }

  /** What can take an entry away without anyone asking: a late lookup, or a full map. */
  predicate Loses(c: Caches, e: Event, store: Store, key: Id) {
    var entry := Get(Entries(c, store), key);
    && entry.Some?
    && ((e.LookedUp? && e.store == store && e.key == key && entry.value.validUntil <= e.now)
        || (e.Remembered? && e.store == store && e.key != key && Get(Entries(c, store), e.key).None?
            && |Entries(c, store)| == 5_000 && Entries(c, store)[0].key == key))
  }

  /** What a key is after one event: lost to nobody's request, or what the event says of it. */
  ghost predicate Follows(c: Caches, e: Event, store: Store, key: Id) {
    Get(Entries(Apply(c, e), store), key) ==
      if Loses(c, e, store, key) then None else Effect(Get(Entries(c, store), key), e, store, key)
  }

  lemma RememberFollows(c: Caches, e: Event, store: Store, key: Id)
    requires Bounded(c) && e.Remembered?
    ensures Follows(c, e, store, key)
  {
    if e.store == store {
      RememberGets(Entries(c, store), e.key, e.user, e.value, e.now, key);
    }
  }

  lemma LookFollows(c: Caches, e: Event, store: Store, key: Id)
    requires Bounded(c) && e.LookedUp?
    ensures Follows(c, e, store, key)
  {
    if e.store == store {
      LookKeeps(Entries(c, store), e.key, e.now, key);
    }
  }

  lemma ForgetFollows(c: Caches, e: Event, store: Store, key: Id)
    requires Bounded(c) && (e.Forgot? || e.ForgotUser? || e.Cleared?)
    ensures Follows(c, e, store, key)
  {
    match e
    case Forgot(k) => DeleteGets(c.sessions, k, key);
    case ForgotUser(user) => DeleteUserGets(Entries(c, store), user, key);
    case Cleared =>
  }

  lemma ApplyGets(c: Caches, e: Event, store: Store, key: Id)
    requires Bounded(c)
    ensures Follows(c, e, store, key)
  {
    if e.Remembered? {
      RememberFollows(c, e, store, key);
    } else if e.LookedUp? {
      LookFollows(c, e, store, key);
    } else {
      ForgetFollows(c, e, store, key);
    }
  }

  /** Whatever the cache holds is what its history says, latest remember and all. */
  lemma {:induction false} HoldsLatest(history: seq<Event>, store: Store, key: Id)
    ensures var held := Get(Entries(After(history), store), key);
      held.Some? ==> held == Latest(history, store, key)
  {
    if history != [] {
      var n := |history| - 1;
      HoldsLatest(history[..n], store, key);
      AlwaysBounded(history[..n]);
      ApplyGets(After(history[..n]), history[n], store, key);
    }
  }

  /**
   * A lookup answers only with the value of the latest remember of that key, made less than 15
   * seconds before and not revoked since.
   */
  lemma LookupSound(history: seq<Event>, store: Store, key: Id, now: int)
    ensures var answer := Look(Entries(After(history), store), key, now).0;
      answer.Some? ==>
        && Latest(history, store, key).Some?
        && answer.value == Latest(history, store, key).value.value
        && now < Latest(history, store, key).value.validUntil
  {
    HoldsLatest(history, store, key);
  }

  /** The latest remember, spelled out: the event is there, and nothing after it revokes it. */
  lemma {:induction false} LatestIs(history: seq<Event>, store: Store, key: Id) returns (i: nat)
    requires Latest(history, store, key).Some?
    ensures i < |history|
    ensures var e := Latest(history, store, key).value;
      && history[i] == Remembered(store, key, e.user, e.value, e.validUntil - 15_000)
      && (forall j :: i < j < |history| ==> !Revokes(history[j], store, key, e.user))
  {
    var n := |history| - 1;
    if history[n].Remembered? && history[n].store == store && history[n].key == key {
      i := n;
    } else {
      i := LatestIs(history[..n], store, key);
    }
  }

  /** And when there is none, every remember of the key has been revoked since. */
  lemma {:induction false} NoneIsRevoked(history: seq<Event>, store: Store, key: Id, i: nat) returns (j: nat)
    requires Latest(history, store, key).None? && i < |history|
    requires history[i].Remembered? && history[i].store == store && history[i].key == key
    ensures i < j < |history| && Revokes(history[j], store, key, history[i].user)
  {
    var n := |history| - 1;
    var before := Latest(history[..n], store, key);
    if before.None? {
      j := NoneIsRevoked(history[..n], store, key, i);
    } else if Revokes(history[n], store, key, history[i].user) {
      j := n;
    } else {
      var k := LatestIs(history[..n], store, key);
      j := k;
      assert k > i;
    }
  }

  predicate Revokes(e: Event, store: Store, key: Id, user: Id) {
    || (e.Remembered? && e.store == store && e.key == key)
    || (e.Forgot? && store == Sessions && e.key == key)
    || (e.ForgotUser? && e.user == user)
    || e.Cleared?
  }

  /** After forgetting a user, neither map holds an entry of theirs. */
  lemma ForgottenUser(history: seq<Event>, user: Id)
    ensures var c := After(history + [ForgotUser(user)]);
      forall e :: e in c.sessions || e in c.identities ==> e.user != user
  {
    var c := After(history);
    assert (history + [ForgotUser(user)])[..|history|] == history;
    DeleteUserKeeps(c.sessions, user);
    DeleteUserKeeps(c.identities, user);
  }

  // ---------------------------------------------------------------------------
  // Exactness before eviction can reach a key

  /** The entries inserted after a key that is held; all of them when it is not. */
  function Behind(entries: seq<Entry>, key: Id): nat {
    if entries == [] then 0 else
      var n := |entries| - 1;
      if entries[n].key == key then 0 else Behind(entries[..n], key) + 1
  }

  /** Removing another entry brings nothing behind a key. */
  lemma {:induction false} BehindRemoved(a: seq<Entry>, x: Entry, b: seq<Entry>, key: Id)
    requires x.key != key
    ensures Behind(a + b, key) <= Behind(a + [x] + b, key)
  {
    if b == [] {
      assert a + b == a && a + [x] + b == a + [x] && (a + [x])[..|a|] == a;
    } else {
      var n := |b| - 1;
      BehindRemoved(a, x, b[..n], key);
      assert (a + b)[..|a| + n] == a + b[..n] && (a + [x] + b)[..|a| + 1 + n] == a + [x] + b[..n];
    }
  }

  lemma {:induction false} BehindSame(a: seq<Entry>, b: seq<Entry>, key: Id)
    requires |a| == |b| && forall i :: 0 <= i < |a| ==> a[i].key == b[i].key
    ensures Behind(a, key) == Behind(b, key)
  {
    if a != [] { BehindSame(a[..|a| - 1], b[..|b| - 1], key); }
  }

  lemma {:induction false} BehindFirst(entries: seq<Entry>)
    requires Distinct(entries) && entries != []
    ensures Behind(entries, entries[0].key) == |entries| - 1
  {
    if |entries| > 1 { BehindFirst(entries[..|entries| - 1]); }
  }

  lemma BehindDelete(entries: seq<Entry>, key: Id, k: Id)
    requires k != key
    ensures Behind(Delete(entries, key), k) <= Behind(entries, k)
  {
    var i := IndexOf(entries, key);
    if i < |entries| {
      BehindRemoved(entries[..i], entries[i], entries[i + 1..], k);
      assert entries == entries[..i] + [entries[i]] + entries[i + 1..];
    }
  }

  lemma {:induction false} BehindDeleteUser(entries: seq<Entry>, user: Id, key: Id)
    requires forall e :: e in entries && e.key == key ==> e.user != user
    ensures Behind(DeleteUser(entries, user), key) <= Behind(entries, key)
  {
    if entries != [] {
      var n := |entries| - 1;
      BehindDeleteUser(entries[..n], user, key);
      var before := DeleteUser(entries[..n], user);
      assert entries[n] in entries;
      if entries[n].user == user {
        assert entries[n].key != key && DeleteUser(entries, user) == before;
      } else {
        assert (before + [entries[n]])[..|before|] == before;
      }
    }
  }

  lemma BehindDropFirst(entries: seq<Entry>, key: Id)
    requires entries != [] && entries[0].key != key
    ensures Behind(entries[1..], key) <= Behind(entries, key)
  {
    BehindRemoved([], entries[0], entries[1..], key);
    assert [] + [entries[0]] + entries[1..] == entries && [] + entries[1..] == entries[1..];
  }

  /** A new entry goes behind all others. */
  lemma BehindAppend(entries: seq<Entry>, e: Entry, key: Id)
    requires IndexOf(entries, e.key) == |entries|
    ensures Behind(Set(entries, e), key) == if e.key == key then 0 else Behind(entries, key) + 1
  {
    assert (entries + [e])[..|entries|] == entries;
  }

  /** A remember puts one entry at most behind a key it does not evict, and none behind one it inserts. */
  lemma BehindRemember(entries: seq<Entry>, k: Id, user: Id, value: Id, now: int, key: Id)
    requires Distinct(entries) && |entries| <= 5_000
    requires Get(Remember(entries, k, user, value, now), key).Some?
    ensures Behind(Remember(entries, k, user, value, now), key)
      <= if k == key && Get(entries, key).None? then 0 else Behind(entries, key) + 1
  {
    var e := Entry(k, user, value, now + TTL_MS);
    if Get(entries, k).Some? {
      BehindSame(entries, Set(entries, e), key);
    } else if |entries| < MAX_ENTRIES {
      BehindAppend(entries, e, key);
    } else {
      DropFirstGets(entries, k);
      BehindAppend(entries[1..], e, key);
      if k != key {
        RememberGets(entries, k, user, value, now, key);
        BehindDropFirst(entries, key);
      }
    }
  }

  predicate RemembersIn(e: Event, store: Store) { e.Remembered? && e.store == store }

  /** Remembers of the map since the key was last put into it, which a refresh does not do. */
  function SinceInserted(history: seq<Event>, store: Store, key: Id): nat {
    if history == [] then 0 else
      var n := |history| - 1;
      if Inserts(history[..n], history[n], store, key) then 0
      else SinceInserted(history[..n], store, key) + if RemembersIn(history[n], store) then 1 else 0
  }

  predicate Inserts(before: seq<Event>, e: Event, store: Store, key: Id) {
    RemembersIn(e, store) && e.key == key && Get(Entries(After(before), store), key).None?
  }

  /** No lookup so far came later than `now`. */
  predicate ClockAtMost(history: seq<Event>, now: int) {
    forall i :: 0 <= i < |history| && history[i].LookedUp? ==> history[i].now <= now
  }

  lemma BehindApply(c: Caches, e: Event, store: Store, key: Id)
    requires Bounded(c) && Get(Entries(Apply(c, e), store), key).Some?
    ensures Behind(Entries(Apply(c, e), store), key)
      <= if RemembersIn(e, store) && e.key == key && Get(Entries(c, store), key).None? then 0
         else Behind(Entries(c, store), key) + if RemembersIn(e, store) then 1 else 0
  {
    var entries := Entries(c, store);
    match e
    case Remembered(s, k, user, value, now) =>
      if s == store { BehindRemember(entries, k, user, value, now, key); }
    case LookedUp(s, k, now) =>
      if s == store {
        LookKeeps(entries, k, now, key);
        if k != key { BehindDelete(entries, k, key); }
      }
    case Forgot(k) =>
      DeleteGets(c.sessions, k, key);
      if k != key { BehindDelete(c.sessions, k, key); }
    case ForgotUser(user) =>
      DeleteUserGets(entries, user, key);
      UserOf(entries, key);
      BehindDeleteUser(entries, user, key);
    case Cleared =>
  }

  /** A key has one entry. */
  lemma UserOf(entries: seq<Entry>, key: Id)
    requires Distinct(entries)
    ensures forall e :: e in entries && e.key == key ==> Get(entries, key) == Some(e)
  {
    forall e | e in entries && e.key == key ensures Get(entries, key) == Some(e) { GetIff(entries, e); }
  }

  /** No more entries stand behind a key than remembers were made since it was put in. */
  lemma {:induction false} BehindSince(history: seq<Event>, store: Store, key: Id)
    requires Get(Entries(After(history), store), key).Some?
    ensures Behind(Entries(After(history), store), key) <= SinceInserted(history, store, key)
  {
    var n := |history| - 1;
    var c := After(history[..n]);
    AlwaysBounded(history[..n]);
    BehindApply(c, history[n], store, key);
    ApplyGets(c, history[n], store, key);
    if !Inserts(history[..n], history[n], store, key) { BehindSince(history[..n], store, key); }
  }

  /** A key that a remember evicts has a whole map behind it. */
  lemma EvictedAfter(history: seq<Event>, e: Event, store: Store, key: Id)
    requires Loses(After(history), e, store, key) && e.Remembered?
    ensures SinceInserted(history, store, key) >= 4_999
  {
    AlwaysBounded(history);
    BehindSince(history, store, key);
    BehindFirst(Entries(After(history), store));
  }

  /** Nothing unexpired has been lost while fewer than a mapful of remembers came after it was put in. */
  lemma {:induction false} NothingLost(history: seq<Event>, store: Store, key: Id, now: int)
    requires SinceInserted(history, store, key) < 5_000 && ClockAtMost(history, now)
    ensures var latest := Latest(history, store, key);
      latest.Some? && latest.value.validUntil > now ==> Get(Entries(After(history), store), key) == latest
  {
    if history != [] {
      var n := |history| - 1;
      var c := After(history[..n]);
      AlwaysBounded(history[..n]);
      ApplyGets(c, history[n], store, key);
      HoldsLatest(history[..n], store, key);
      if !Inserts(history[..n], history[n], store, key) {
        NothingLost(history[..n], store, key, now);
        if Loses(c, history[n], store, key) && history[n].Remembered? {
          EvictedAfter(history[..n], history[n], store, key);
        }
      }
    }
  }

  /**
   * With a clock that does not go back, and fewer than 5000 remembers of the map since the key was last
   * put into it, a lookup hits exactly when it should.
   */
  lemma LookupExact(history: seq<Event>, store: Store, key: Id, now: int)
    requires Latest(history, store, key).Some? ==> SinceInserted(history, store, key) < 5_000
    requires ClockAtMost(history, now)
    ensures var answer, latest := Look(Entries(After(history), store), key, now).0, Latest(history, store, key);
      answer == if latest.Some? && now < latest.value.validUntil then Some(latest.value.value) else None
  {
    HoldsLatest(history, store, key);
    if Latest(history, store, key).Some? { NothingLost(history, store, key, now); }
  }

  // ---------------------------------------------------------------------------
  // The module-level maps

  class Cache {
    var sessions: seq<Entry>
    var identities: seq<Entry>

    ghost function State(): Caches
      reads this
    {
      Caches(sessions, identities)
    }

    constructor ()
      ensures State() == After([])
    {
      sessions, identities := [], [];
    }

    method KnownValidSessionWorkspace(session: Id, now: int) returns (workspace: Option<Id>)
      modifies this`sessions
      ensures State() == Apply(old(State()), LookedUp(Sessions, session, now))
      ensures workspace == Look(old(sessions), session, now).0
    {
      var entry := Get(sessions, session);
      if entry.None? { return None; }
      if entry.value.validUntil <= now {
        sessions := Delete(sessions, session);
        return None;
      }
      return Some(entry.value.value);
    }

    method RememberValidSession(session: Id, user: Id, workspace: Id, now: int)
      modifies this`sessions
      ensures State() == Apply(old(State()), Remembered(Sessions, session, user, workspace, now))
    {
      if |sessions| >= MAX_ENTRIES && Get(sessions, session).None? {
        sessions := sessions[1..];
      }
      sessions := Set(sessions, Entry(session, user, workspace, now + TTL_MS));
    }

    method ForgetSession(session: Id)
      modifies this`sessions
      ensures State() == Apply(old(State()), Forgot(session))
    {
      sessions := Delete(sessions, session);
    }

    method CachedClerkIdentity(clerkUser: Id, now: int) returns (identity: Option<Id>)
      modifies this`identities
      ensures State() == Apply(old(State()), LookedUp(Identities, clerkUser, now))
      ensures identity == Look(old(identities), clerkUser, now).0
    {
      var entry := Get(identities, clerkUser);
      if entry.None? { return None; }
      if entry.value.validUntil <= now {
        identities := Delete(identities, clerkUser);
        return None;
      }
      return Some(entry.value.value);
    }

    method RememberClerkIdentity(clerkUser: Id, user: Id, identity: Id, now: int)
      modifies this`identities
      ensures State() == Apply(old(State()), Remembered(Identities, clerkUser, user, identity, now))
    {
      if |identities| >= MAX_ENTRIES && Get(identities, clerkUser).None? {
        identities := identities[1..];
      }
      identities := Set(identities, Entry(clerkUser, user, identity, now + TTL_MS));
    }

    method ForgetUserSessions(user: Id)
      modifies this
      ensures State() == Apply(old(State()), ForgotUser(user))
    {
      sessions := DropUser(sessions, user);
      identities := DropUser(identities, user);
    }

    method ClearSessionCache()
      modifies this
      ensures State() == Apply(old(State()), Cleared)
    {
      sessions, identities := [], [];
    }
  }

  /** A map walked from its first entry, the user's entries deleted on the way. */
  method DropUser(entries: seq<Entry>, user: Id) returns (left: seq<Entry>)
    ensures left == DeleteUser(entries, user)
  {
    left := entries;
    var i := 0;
    ghost var seen := 0;
    while i < |left|
      invariant 0 <= i <= |left| && 0 <= seen <= |entries|
      invariant left[..i] == DeleteUser(entries[..seen], user)
      invariant left[i..] == entries[seen..]
      decreases |left| - i
    {
      assert left[i] == entries[seen];
      assert left[i + 1..] == left[i..][1..] == entries[seen + 1..];
      OneMore(entries, user, seen);
      if left[i].user == user {
        var shorter := left[..i] + left[i + 1..];
        assert shorter[..i] == left[..i] && shorter[i..] == left[i + 1..];
        left := shorter;
      } else {
        assert left[..i + 1] == left[..i] + [left[i]];
        i := i + 1;
      }
      seen := seen + 1;
    }
    assert entries[..seen] == entries && left[..i] == left;
  }

  lemma OneMore(entries: seq<Entry>, user: Id, i: nat)
    requires i < |entries|
    ensures DeleteUser(entries[..i + 1], user) ==
      DeleteUser(entries[..i], user) + (if entries[i].user == user then [] else [entries[i]])
  {
    assert entries[..i + 1][..i] == entries[..i];
  }
}
