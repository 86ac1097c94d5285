/**
 * The Redis key-value store the gateway keeps its sessions, blacklist, codes, CSRF sets and
 * counters in: string values and sets of strings, each with an optional deadline. Time is
 * whole Unix seconds passed in by the caller; a key whose deadline has come is gone.
 * Each command may fail (a connection or timeout error); a failed command changes nothing.
 */
module Kv {
  import opened Base
  import opened Strs

  datatype Value = Text(s: string) | Members(m: set<string>)

  datatype Entry = Entry(value: Value, expiry: Option<int>)

  type Db = map<string, Entry>

  /** An entry is live until its deadline. */
  predicate Live(e: Entry, now: int) {
    e.expiry.None? || now < e.expiry.value
  }

  /** The value under a key as a client sees it at `now`. */
  function Visible(db: Db, key: string, now: int): (v: Option<Value>)
    ensures v.Some? <==> key in db && Live(db[key], now)
  {
    if key in db && Live(db[key], now) then Some(db[key].value) else None
  }

  /** The key holds a live set with `member` in it. */
  predicate Holds(db: Db, key: string, member: string, now: int) {
    Visible(db, key, now).Some? && Visible(db, key, now).value.Members? && member in Visible(db, key, now).value.m
  }

  /** The deadline a TTL in seconds gives: none unless it is positive (go-redis sends EX only then). */
  function Deadline(ttl: int, now: int): (d: Option<int>)
    ensures d.Some? <==> ttl > 0
    ensures d.Some? ==> d.value == now + ttl
  {
    if ttl > 0 then Some(now + ttl) else None
  }

  /** GET: the string, redis.Nil for a missing key, an error for a set (WRONGTYPE) or a failure. */
  datatype GetResult = Hit(s: string) | Miss | Failed

  function GetSpec(db: Db, key: string, now: int): (r: GetResult)
    ensures r.Hit? <==> Visible(db, key, now).Some? && Visible(db, key, now).value.Text?
    ensures r.Hit? ==> Visible(db, key, now) == Some(Text(r.s))
    ensures r.Miss? <==> Visible(db, key, now).None?
  {
    match Visible(db, key, now)
    case None => Miss
    case Some(Text(s)) => Hit(s)
    case Some(Members(_)) => Failed
  }

  /** SET key value [EX ttl]: replaces whatever was there, a set included. */
  function SetSpec(db: Db, key: string, val: string, ttl: int, now: int): (d: Db)
    ensures key in d && d[key] == Entry(Text(val), Deadline(ttl, now))
    ensures forall k :: k != key ==> (k in d <==> k in db) && (k in db ==> d[k] == db[k])
  {
    db[key := Entry(Text(val), Deadline(ttl, now))]
  }

  /** DEL: the number of keys removed. */
  function DelSpec(db: Db, key: string, now: int): (r: (Db, nat))
    ensures key !in r.0 && forall k :: k != key ==> (k in r.0 <==> k in db) && (k in db ==> r.0[k] == db[k])
    ensures r.1 == if Visible(db, key, now).Some? then 1 else 0
  {
    (db - {key}, if Visible(db, key, now).Some? then 1 else 0)
  }

  /** SADD: a missing key becomes a one-member set; None is WRONGTYPE; the count says whether the member was new. */
  function SAddSpec(db: Db, key: string, member: string, now: int): (r: Option<(Db, nat)>)
    ensures r.None? <==> Visible(db, key, now).Some? && Visible(db, key, now).value.Text?
    ensures r.Some? ==> key in r.value.0 && r.value.0[key].value.Members? && member in r.value.0[key].value.m
    ensures r.Some? ==> Holds(r.value.0, key, member, now)
  {
    match Visible(db, key, now)
    case None => Some((db[key := Entry(Members({member}), None)], 1))
    case Some(Text(_)) => None
    case Some(Members(s)) =>
      Some((db[key := Entry(Members(s + {member}), db[key].expiry)], if member in s then 0 else 1))
  }

  /** SREM: the number of members removed (0 or 1); a set left empty is deleted; None is WRONGTYPE. */
  function SRemSpec(db: Db, key: string, member: string, now: int): (r: Option<(Db, nat)>)
    ensures r.None? <==> Visible(db, key, now).Some? && Visible(db, key, now).value.Text?
    ensures r.Some? ==> (r.value.1 == 1 <==> Visible(db, key, now).Some? && Visible(db, key, now).value.Members?
                                             && member in Visible(db, key, now).value.m)
    ensures r.Some? ==> r.value.1 <= 1
    ensures r.Some? ==> !Holds(r.value.0, key, member, now)
  {
    match Visible(db, key, now)
    case None => Some((db, 0))
    case Some(Text(_)) => None
    case Some(Members(s)) =>
      if member !in s then Some((db, 0))
      else if s == {member} then Some((db - {key}, 1))
      else Some((db[key := Entry(Members(s - {member}), db[key].expiry)], 1))
  }

  /** EXPIRE key ttl: false for a missing key; a non-positive TTL deletes the key. */
  function ExpireSpec(db: Db, key: string, ttl: int, now: int): (r: (Db, bool))
    ensures r.1 <==> Visible(db, key, now).Some?
    ensures r.1 && ttl > 0 ==> key in r.0 && r.0[key] == db[key].(expiry := Some(now + ttl))
    ensures r.1 && ttl <= 0 ==> key !in r.0
    ensures !r.1 ==> r.0 == db
  {
    if Visible(db, key, now).None? then (db, false)
    else if ttl > 0 then (db[key := db[key].(expiry := Some(now + ttl))], true)
    else (db - {key}, true)
  }

  /** A string Redis reads as a 64-bit integer: exactly the decimal form of an int64. */
  function AsInteger(s: string): (r: Option<int>)
    ensures r.Some? ==> MinInt64 <= r.value <= MaxInt64 && IntToDecimal(r.value) == s
  {
    match Atoi(s)
    case None => None
    case Some(i) => if IntToDecimal(i) == s then Some(i) else None
  }

  /** INCR: a missing key counts from 0 with no deadline; the deadline of an existing key is kept. */
  function IncrSpec(db: Db, key: string, now: int): (r: Option<(Db, int)>)
    ensures r.None? <==> match Visible(db, key, now)
      case None => false
      case Some(Members(_)) => true
      case Some(Text(s)) => AsInteger(s).None? || AsInteger(s).value == MaxInt64
    ensures r.Some? ==> r.value.1 == (if Visible(db, key, now).None? then 1 else AsInteger(Visible(db, key, now).value.s).value + 1)
    ensures r.Some? ==> Visible(r.value.0, key, now) == Some(Text(IntToDecimal(r.value.1)))
    ensures r.Some? ==> forall k :: k != key ==> (k in r.value.0 <==> k in db) && (k in db ==> r.value.0[k] == db[k])
  {
    match Visible(db, key, now)
    case None => Some((db[key := Entry(Text("1"), None)], 1))
    case Some(Members(_)) => None
    case Some(Text(s)) =>
      match AsInteger(s)
      case None => None
      case Some(i) =>
        if i == MaxInt64 then None
        else Some((db[key := Entry(Text(IntToDecimal(i + 1)), db[key].expiry)], i + 1))
  }

  // ---------------------------------------------------------------------------
  // The store

  class Store {
    var data: Db

    constructor()
      ensures data == map[]
    {
      data := map[];
    }

    method Get(key: string, now: int, fault: bool) returns (r: GetResult)
      ensures r == if fault then Failed else GetSpec(data, key, now)
    {
      if fault {
        r := Failed;
      } else {
        r := GetSpec(data, key, now);
      }
    }

    /** Returns false when the command failed. */
    method Set(key: string, val: string, ttl: int, now: int, fault: bool) returns (ok: bool)
      modifies this
      ensures ok == !fault
      ensures data == if fault then old(data) else SetSpec(old(data), key, val, ttl, now)
    {
      ok := !fault;
      if !fault {
        data := SetSpec(data, key, val, ttl, now);
      }
    }

    method Del(key: string, now: int, fault: bool) returns (n: Option<nat>)
      modifies this
      ensures fault ==> n.None? && data == old(data)
      ensures !fault ==> n == Some(DelSpec(old(data), key, now).1) && data == DelSpec(old(data), key, now).0
    {
      if fault {
        n := None;
      } else {
        var r := DelSpec(data, key, now);
        data := r.0;
        n := Some(r.1);
      }
    }

    /** Returns false when the command failed or the key holds a string. */
    method SAdd(key: string, member: string, now: int, fault: bool) returns (ok: bool)
      modifies this
      ensures ok <==> !fault && SAddSpec(old(data), key, member, now).Some?
      ensures data == if ok then SAddSpec(old(data), key, member, now).value.0 else old(data)
    {
      var r := SAddSpec(data, key, member, now);
      ok := !fault && r.Some?;
      if ok {
        data := r.value.0;
      }
    }

    /** The number removed, None when the command failed or the key holds a string. */
    method SRem(key: string, member: string, now: int, fault: bool) returns (n: Option<nat>)
      modifies this
      ensures n.Some? ==> !fault && SRemSpec(old(data), key, member, now).Some?
                          && n.value == SRemSpec(old(data), key, member, now).value.1
                          && data == SRemSpec(old(data), key, member, now).value.0
      ensures n.None? ==> (fault || SRemSpec(old(data), key, member, now).None?) && data == old(data)
    {
      var r := SRemSpec(data, key, member, now);
      if fault || r.None? {
        n := None;
      } else {
        data := r.value.0;
        n := Some(r.value.1);
      }
    }

    /** Whether a deadline was set, None when the command failed. */
    method Expire(key: string, ttl: int, now: int, fault: bool) returns (r: Option<bool>)
      modifies this
      ensures fault ==> r.None? && data == old(data)
      ensures !fault ==> r == Some(ExpireSpec(old(data), key, ttl, now).1) && data == ExpireSpec(old(data), key, ttl, now).0
    {
      if fault {
        r := None;
      } else {
        var e := ExpireSpec(data, key, ttl, now);
        data := e.0;
        r := Some(e.1);
      }
    }

    /** The new counter value, None when the command failed or the value is no integer. */
    method Incr(key: string, now: int, fault: bool) returns (n: Option<int>)
      modifies this
      ensures n.Some? ==> !fault && IncrSpec(old(data), key, now).Some?
                          && n.value == IncrSpec(old(data), key, now).value.1
                          && data == IncrSpec(old(data), key, now).value.0
      ensures n.None? ==> (fault || IncrSpec(old(data), key, now).None?) && data == old(data)
    {
      var r := IncrSpec(data, key, now);
      if fault || r.None? {
        n := None;
      } else {
        data := r.value.0;
        n := Some(r.value.1);
      }
    }
  }

  // ---------------------------------------------------------------------------
  // Properties of the commands

  /** A value set with a TTL reads back until the deadline and is gone from then on; without one it stays. */
  lemma SetThenGet(db: Db, key: string, val: string, ttl: int, now: int, later: int)
    ensures GetSpec(SetSpec(db, key, val, ttl, now), key, later) ==
      if ttl <= 0 || later < now + ttl then Hit(val) else Miss
  {
  }

  /** Setting one key leaves every other key as it was. */
  lemma SetOtherKey(db: Db, key: string, other: string, val: string, ttl: int, now: int, later: int)
    requires other != key
    ensures Visible(SetSpec(db, key, val, ttl, now), other, later) == Visible(db, other, later)
  {
  }

  /** After SADD the member is removed by exactly one SREM; a second SREM removes nothing. */
  lemma AddThenRemoveOnce(db: Db, key: string, member: string, now: int)
    requires SAddSpec(db, key, member, now).Some?
    ensures var d1 := SAddSpec(db, key, member, now).value.0;
      SRemSpec(d1, key, member, now).Some? && SRemSpec(d1, key, member, now).value.1 == 1 &&
      var d2 := SRemSpec(d1, key, member, now).value.0;
      SRemSpec(d2, key, member, now) == Some((d2, 0))
  {
    var d1 := SAddSpec(db, key, member, now).value.0;
    assert Visible(d1, key, now) == Some(d1[key].value) by {
      if Visible(db, key, now).Some? {
        assert d1[key].expiry == db[key].expiry;
      }
    }
    var d2 := SRemSpec(d1, key, member, now).value.0;
    var s := d1[key].value.m;
    if s != {member} {
      assert d2[key].value == Members(s - {member});
    }
  }

  /** SREM of a member not added under this key removes nothing and changes nothing. */
  lemma RemoveAbsent(db: Db, key: string, member: string, now: int)
    requires Visible(db, key, now).None? || (Visible(db, key, now).value.Members? && member !in Visible(db, key, now).value.m)
    ensures SRemSpec(db, key, member, now) == Some((db, 0))
  {
  }

  /** SADD and SREM on one key leave every other key as it was. */
  lemma SetCommandsOtherKey(db: Db, key: string, other: string, member: string, now: int, later: int)
    requires other != key
    ensures SAddSpec(db, key, member, now).Some? ==>
      Visible(SAddSpec(db, key, member, now).value.0, other, later) == Visible(db, other, later)
    ensures SRemSpec(db, key, member, now).Some? ==>
      Visible(SRemSpec(db, key, member, now).value.0, other, later) == Visible(db, other, later)
  {
  }

  /** INCR on a missing key, then on the counter it made: 1, 2, ... with the counter kept as decimal text. */
  lemma {:induction false} IncrCounts(db: Db, key: string, now: int, n: nat)
    requires n < MaxInt64
    requires n == 0 ==> Visible(db, key, now).None?
    requires n > 0 ==> Visible(db, key, now) == Some(Text(IntToDecimal(n)))
    ensures IncrSpec(db, key, now).Some? && IncrSpec(db, key, now).value.1 == n + 1
    ensures Visible(IncrSpec(db, key, now).value.0, key, now) == Some(Text(IntToDecimal(n + 1)))
  {
    if n > 0 {
      AtoiRoundTrip(n);
      assert AsInteger(IntToDecimal(n)) == Some(n);
    }
  }

  /** EXPIRE with a positive TTL on a live key moves its deadline and nothing else. */
  lemma ExpireMovesDeadline(db: Db, key: string, ttl: int, now: int, later: int)
    requires Visible(db, key, now).Some? && ttl > 0
    ensures Visible(ExpireSpec(db, key, ttl, now).0, key, later) ==
      if later < now + ttl then Visible(db, key, now) else None
  {
  }
}
