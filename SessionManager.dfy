/**
 * The server's table of live sessions (backend/user_session_manager.py): a
 * dict from session id to the user instance and its last-active time, and a
 * sweep that drops every session idle for more than 300 seconds, calling the
 * instance's `cleanup()` first. `time.time()` is the `now` parameter; the
 * `cleanup()` calls are recorded in `cleanedUp`.
 */
module SessionManager {
  import opened Wrappers
  import opened PyDict
  import opened PyText

  /** A user instance, known by its identity and its username. */
  datatype UserInstance = UserInstance(handle: nat, username: string)

  type Entry = (UserInstance, real)

  const CleanupThreshold: real := 300.0

  predicate Idle(e: Entry, now: real)
  {
    now - e.1 > CleanupThreshold
  }

  /** The entries of `d` whose key is not in `ks`, in order. */
  function Without(d: Items<string, Entry>, ks: seq<string>): (r: Items<string, Entry>)
    ensures |r| <= |d|
    ensures forall e :: e in r <==> e in d && e.0 !in ks
  {
    if |d| == 0 then []
    else if d[0].0 in ks then Without(d[1..], ks)
    else [d[0]] + Without(d[1..], ks)
  }

  /** The entries the sweep keeps. */
  function Active(d: Items<string, Entry>, now: real): (r: Items<string, Entry>)
    ensures forall e :: e in r <==> e in d && !Idle(e.1, now)
  {
    if |d| == 0 then []
    else if Idle(d[0].1, now) then Active(d[1..], now)
    else [d[0]] + Active(d[1..], now)
  }

  /** The entries the sweep drops, in dict order. */
  function Stale(d: Items<string, Entry>, now: real): (r: Items<string, Entry>)
    ensures forall e :: e in r <==> e in d && Idle(e.1, now)
  {
    if |d| == 0 then []
    else if Idle(d[0].1, now) then [d[0]] + Stale(d[1..], now)
    else Stale(d[1..], now)
  }

  function Instances(d: Items<string, Entry>): (r: seq<UserInstance>)
    ensures |r| == |d| && forall i :: 0 <= i < |d| ==> r[i] == d[i].1.0
  {
    seq(|d|, i requires 0 <= i < |d| => d[i].1.0)
  }

  lemma {:induction false} RemoveWithout(d: Items<string, Entry>, ks: seq<string>, k: string)
    ensures Remove(Without(d, ks), k) == Without(d, ks + [k])
  {
    if |d| > 0 {
      RemoveWithout(d[1..], ks, k);
    }
  }

  /** With distinct keys, dropping the stale keys leaves exactly the active entries. */
  lemma {:induction false} WithoutStale(d: Items<string, Entry>, ks: seq<string>, now: real)
    requires forall i :: 0 <= i < |d| ==> (d[i].0 in ks <==> Idle(d[i].1, now))
    ensures Without(d, ks) == Active(d, now)
  {
    if |d| > 0 {
      WithoutStale(d[1..], ks, now);
    }
  }

  lemma StaleKeysMatch(d: Items<string, Entry>, now: real)
    requires DistinctKeys(d)
    ensures forall i :: 0 <= i < |d| ==> (d[i].0 in Keys(Stale(d, now)) <==> Idle(d[i].1, now))
  {
    var ks := Keys(Stale(d, now));
    forall i | 0 <= i < |d| ensures d[i].0 in ks <==> Idle(d[i].1, now) {
      if d[i].0 in ks {
        var m :| 0 <= m < |ks| && ks[m] == d[i].0;
        var e := Stale(d, now)[m];
        assert e in d;
        var j :| 0 <= j < |d| && d[j] == e;
        assert j == i;
      }
      if Idle(d[i].1, now) {
        assert d[i] in Stale(d, now);
        var m :| 0 <= m < |Stale(d, now)| && Stale(d, now)[m] == d[i];
        assert ks[m] == d[i].0;
      }
    }
  }

  lemma {:induction false} StaleDistinct(d: Items<string, Entry>, now: real)
    requires DistinctKeys(d)
    ensures DistinctKeys(Stale(d, now))
  {
    if |d| > 0 {
      assert DistinctKeys(d[1..]);
      StaleDistinct(d[1..], now);
      var rest := Stale(d[1..], now);
      forall i | 0 <= i < |rest| ensures rest[i].0 != d[0].0 {
        var j :| 0 <= j < |d[1..]| && d[1..][j] == rest[i];
        assert d[j + 1] == rest[i];
      }
    }
  }

  lemma WithoutDistinct(d: Items<string, Entry>, ks: seq<string>)
    requires DistinctKeys(d)
    ensures DistinctKeys(Without(d, ks))
  {
    if |d| > 0 {
      assert DistinctKeys(d[1..]);
      WithoutDistinct(d[1..], ks);
      var rest := Without(d[1..], ks);
      forall i | 0 <= i < |rest| ensures rest[i].0 != d[0].0 {
        var j :| 0 <= j < |d[1..]| && d[1..][j] == rest[i];
        assert d[j + 1] == rest[i];
      }
    }
  }

  class UserSessionManager {
    var activeUsers: Items<string, Entry>
    var cleanedUp: seq<UserInstance>

    predicate Valid()
      reads this
    {
      DistinctKeys(activeUsers)
    }

    constructor ()
      ensures Valid() && activeUsers == [] && cleanedUp == []
    {
      activeUsers := [];
      cleanedUp := [];
    }

    /** `add_user`: insert or overwrite, stamped with the current time. */
    method AddUser(sessionId: string, user: UserInstance, now: real)
      requires Valid()
      modifies this
      ensures Valid()
      ensures activeUsers == Put(old(activeUsers), sessionId, (user, now))
      ensures Get(activeUsers, sessionId) == Some((user, now))
      ensures cleanedUp == old(cleanedUp)
    {
      PutKeepsDistinct(activeUsers, sessionId, (user, now));
      activeUsers := Put(activeUsers, sessionId, (user, now));
    }

    /** `get_user`: the instance of a known session, whose time is refreshed. */
    method GetUser(sessionId: string, now: real) returns (user: Option<UserInstance>)
      requires Valid()
      modifies this
      ensures Valid()
      ensures !HasKey(old(activeUsers), sessionId) ==> user == None && activeUsers == old(activeUsers)
      ensures HasKey(old(activeUsers), sessionId) ==>
                var e := Get(old(activeUsers), sessionId).value;
                user == Some(e.0) && activeUsers == Put(old(activeUsers), sessionId, (e.0, now))
      ensures user.Some? ==> HasKey(activeUsers, sessionId)
      ensures cleanedUp == old(cleanedUp)
    {
      var e := Get(activeUsers, sessionId);
      if e.None? {
        return None;
      }
      PutKeepsDistinct(activeUsers, sessionId, (e.value.0, now));
      activeUsers := Put(activeUsers, sessionId, (e.value.0, now));
      user := Some(e.value.0);
    }

    /** `remove_user`: clean up and delete a known session; an unknown one is ignored. */
    method RemoveUser(sessionId: string)
      requires Valid()
      modifies this
      ensures Valid()
      ensures !HasKey(old(activeUsers), sessionId) ==> activeUsers == old(activeUsers) && cleanedUp == old(cleanedUp)
      ensures HasKey(old(activeUsers), sessionId) ==>
                activeUsers == Remove(old(activeUsers), sessionId) &&
                cleanedUp == old(cleanedUp) + [Get(old(activeUsers), sessionId).value.0]
    {
      var e := Get(activeUsers, sessionId);
      if e.Some? {
        cleanedUp := cleanedUp + [e.value.0];
        RemoveKeepsDistinct(activeUsers, sessionId);
        activeUsers := Remove(activeUsers, sessionId);
      }
    }

    /** The first pass of `cleanup_inactive_sessions`: the ids idle for more than 300 s, in dict order. */
    method StaleSessionIds(now: real) returns (stale: seq<string>)
      ensures stale == Keys(Stale(activeUsers, now))
    {
      var d := activeUsers;
      stale := [];
      var i := 0;
      while i < |d|
        invariant 0 <= i <= |d|
        invariant stale == Keys(Stale(d[..i], now))
      {
        StaleKeysStep(d, i, now);
        stale := stale + (if Idle(d[i].1, now) then [d[i].0] else []);
        i := i + 1;
      }
      assert d[..|d|] == d;
    }

    /**
     * `cleanup_inactive_sessions`: collect the idle session ids, then remove
     * each of them. Exactly the sessions idle for more than 300 s go, in
     * dict order, each cleaned up once.
     */
    method CleanupInactiveSessions(now: real)
      requires Valid()
      modifies this
      ensures Valid()
      ensures activeUsers == Active(old(activeUsers), now)
      ensures cleanedUp == old(cleanedUp) + Instances(Stale(old(activeUsers), now))
    {
      var d := activeUsers;
      var stale := StaleSessionIds(now);
      var k := 0;
      while k < |stale|
        invariant 0 <= k <= |stale|
        invariant activeUsers == RemoveEach(d, stale[..k]).0
        invariant cleanedUp == old(cleanedUp) + RemoveEach(d, stale[..k]).1
        invariant Valid()
      {
        ghost var users, cleaned := activeUsers, cleanedUp;
        RemoveUser(stale[k]);
        RemoveEachStep(d, stale[..k], stale[k], old(cleanedUp), users, cleaned, activeUsers, cleanedUp);
        TakeOneMore(stale, k);
        k := k + 1;
      }
      assert stale[..|stale|] == stale;
      assert RemoveEach(d, stale) == (Active(d, now), Instances(Stale(d, now))) by {
        SweepIsActive(d, now);
      }
    }

    /** `get_all_active_users`: one username per session, in dict order. */
    function GetAllActiveUsers(): (r: seq<string>)
      reads this
      ensures |r| == |activeUsers|
      ensures forall i :: 0 <= i < |r| ==> r[i] == activeUsers[i].1.0.username
    {
      seq(|activeUsers|, i reads this requires 0 <= i < |activeUsers| => activeUsers[i].1.0.username)
    }
  }

  lemma StaleKeysStep(d: Items<string, Entry>, i: nat, now: real)
    requires i < |d|
    ensures Keys(Stale(d[..i + 1], now)) == Keys(Stale(d[..i], now)) + (if Idle(d[i].1, now) then [d[i].0] else [])
  {
    assert d[..i + 1] == d[..i] + [d[i]];
    StaleAppend(d[..i], d[i], now);
    var a := Stale(d[..i], now);
    if Idle(d[i].1, now) {
      assert Keys(a + [d[i]]) == Keys(a) + [d[i].0];
    }
  }

  /** In a dict with distinct keys, the key at `k` is none of the keys before it. */
  lemma KeyNotEarlier(es: Items<string, Entry>, k: nat)
    requires DistinctKeys(es) && k < |es|
    ensures es[k].0 !in Keys(es)[..k]
  {
  }

  /** An entry whose key is not removed is found in the remaining dict. */
  lemma GetWithout(d: Items<string, Entry>, ks: seq<string>, e: (string, Entry))
    requires DistinctKeys(d) && e in d && e.0 !in ks
    ensures DistinctKeys(Without(d, ks)) && Get(Without(d, ks), e.0) == Some(e.1)
  {
    var cur := Without(d, ks);
    WithoutDistinct(d, ks);
    assert e in cur;
    var j :| 0 <= j < |cur| && cur[j] == e;
    GetDistinct(cur, j);
  }

  /**
   * The dict and the cleaned-up instances after `remove_user` has been called
   * on each id in turn.
   */
  function RemoveEach(d: Items<string, Entry>, ids: seq<string>): (Items<string, Entry>, seq<UserInstance>)
  {
    if |ids| == 0 then (d, [])
    else
      var (rest, cleaned) := RemoveEach(d, ids[..|ids| - 1]);
      var e := Get(rest, ids[|ids| - 1]);
      if e.Some? then (Remove(rest, ids[|ids| - 1]), cleaned + [e.value.0]) else (rest, cleaned)
  }

  /** The `k`-th stale entry is still present once the stale keys before it are removed. */
  lemma SweepStep(d: Items<string, Entry>, now: real, k: nat)
    requires DistinctKeys(d)
    requires k < |Stale(d, now)|
    ensures DistinctKeys(Without(d, Keys(Stale(d, now))[..k]))
    ensures Get(Without(d, Keys(Stale(d, now))[..k]), Stale(d, now)[k].0) == Some(Stale(d, now)[k].1)
  {
    var es := Stale(d, now);
    StaleDistinct(d, now);
    KeyNotEarlier(es, k);
    assert es[k] in es;
    GetWithout(d, Keys(es)[..k], es[k]);
  }

  /** Removing the first `k` stale ids one by one drops those entries and cleans up their instances. */
  lemma {:induction false} SweepPrefix(d: Items<string, Entry>, now: real, k: nat)
    requires DistinctKeys(d)
    requires k <= |Stale(d, now)|
    ensures var stale := Keys(Stale(d, now));
      RemoveEach(d, stale[..k]) == (Without(d, stale[..k]), Instances(Stale(d, now)[..k]))
  {
    var es := Stale(d, now);
    var stale := Keys(es);
    if k == 0 {
      WithoutNothing(d);
    } else {
      var prev := stale[..k - 1];
      var x := es[k - 1].0;
      assert stale[..k] == prev + [x];
      assert RemoveEach(d, prev) == (Without(d, prev), Instances(es[..k - 1])) by {
        SweepPrefix(d, now, k - 1);
      }
      assert Get(Without(d, prev), x) == Some(es[k - 1].1) by {
        SweepStep(d, now, k - 1);
      }
      RemoveOneMore(d, prev, x, Instances(es[..k - 1]), es[k - 1].1);
      InstancesSnoc(es, k);
    }
  }

  lemma RemoveEachSnoc(d: Items<string, Entry>, ids: seq<string>, x: string)
    ensures RemoveEach(d, ids + [x]) ==
              var p := RemoveEach(d, ids);
              var e := Get(p.0, x);
              if e.Some? then (Remove(p.0, x), p.1 + [e.value.0]) else p
  {
    assert (ids + [x])[..|ids|] == ids;
  }

  /** The state after one more `remove_user` call, as the method states it, is `RemoveEach` of one more id. */
  lemma RemoveEachStep(d: Items<string, Entry>, ids: seq<string>, x: string, base: seq<UserInstance>,
                       users: Items<string, Entry>, cleaned: seq<UserInstance>,
                       users': Items<string, Entry>, cleaned': seq<UserInstance>)
    requires users == RemoveEach(d, ids).0 && cleaned == base + RemoveEach(d, ids).1
    requires !HasKey(users, x) ==> users' == users && cleaned' == cleaned
    requires HasKey(users, x) ==> users' == Remove(users, x) && cleaned' == cleaned + [Get(users, x).value.0]
    ensures users' == RemoveEach(d, ids + [x]).0 && cleaned' == base + RemoveEach(d, ids + [x]).1
  {
    RemoveEachSnoc(d, ids, x);
  }

  /** One more `remove_user` call on a present id. */
  lemma RemoveOneMore(d: Items<string, Entry>, prev: seq<string>, x: string, cleaned: seq<UserInstance>, v: Entry)
    requires RemoveEach(d, prev) == (Without(d, prev), cleaned)
    requires Get(Without(d, prev), x) == Some(v)
    ensures RemoveEach(d, prev + [x]) == (Without(d, prev + [x]), cleaned + [v.0])
  {
    RemoveEachSnoc(d, prev, x);
    RemoveWithout(d, prev, x);
  }

  lemma InstancesSnoc(es: Items<string, Entry>, k: nat)
    requires 0 < k <= |es|
    ensures Instances(es[..k]) == Instances(es[..k - 1]) + [es[k - 1].1.0]
  {
  }

  /** The whole sweep leaves the active entries and cleans up the stale ones. */
  lemma SweepIsActive(d: Items<string, Entry>, now: real)
    requires DistinctKeys(d)
    ensures var stale := Keys(Stale(d, now));
      RemoveEach(d, stale) == (Active(d, now), Instances(Stale(d, now)))
  {
    var es := Stale(d, now);
    var stale := Keys(es);
    SweepPrefix(d, now, |es|);
    assert stale[..|es|] == stale && es[..|es|] == es;
    StaleKeysMatch(d, now);
    WithoutStale(d, stale, now);
  }

  lemma WithoutNothing(d: Items<string, Entry>)
    ensures Without(d, []) == d
  {
  }

  lemma StaleAppend(d: Items<string, Entry>, e: (string, Entry), now: real)
    ensures Stale(d + [e], now) == Stale(d, now) + (if Idle(e.1, now) then [e] else [])
  {
    if |d| > 0 {
      assert (d + [e])[1..] == d[1..] + [e];
      StaleAppend(d[1..], e, now);
    } else {
      assert d + [e] == [e];
    }
  }
}
