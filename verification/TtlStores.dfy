/** The in-memory TTL stores: the label cache and the quarantine store. Expired
    entries go away lazily on access and proactively in sweeps. */
module TtlStores {
  import opened Basics

  /** A stored value; `None` never expires. */
  datatype Entry = Entry(value: string, expires: Option<nat>)

  predicate Expired(e: Entry, now: nat) {
    e.expires.Some? && now > e.expires.value
  }

  function Stamp(value: string, ttl: int, now: nat): Entry {
    Entry(value, if ttl > 0 then Some(now + ttl) else None)
  }

  type Store = map<string, Entry>

  /** What the store answers for `key` at time `now`. */
  function Visible(rows: Store, key: string, now: nat): Option<string> {
    if key in rows && !Expired(rows[key], now) then Some(rows[key].value) else None
  }

  /** An access to an expired entry removes it. */
  function Touched(rows: Store, key: string, now: nat): Store {
    if key in rows && Expired(rows[key], now) then rows - {key} else rows
  }

  function Swept(rows: Store, at: nat): Store {
    map k | k in rows && !Expired(rows[k], at) :: rows[k]
  }

  function Elements(keys: seq<string>): set<string> {
    set k | k in keys
  }

  class MemoryLabelCache {
    var entries: Store

    constructor ()
      ensures entries == map[]
    {
      entries := map[];
    }

    /** The empty string stands for "absent". */
    method Get(key: string, now: nat) returns (value: string)
      modifies this
      ensures value == match Visible(old(entries), key, now) case Some(v) => v case None => ""
      ensures entries == Touched(old(entries), key, now)
    {
      if key !in entries {
        return "";
      }
      var e := entries[key];
      if e.expires.Some? && now > e.expires.value {
        entries := entries - {key};
        return "";
      }
      value := e.value;
    }

    method Set(key: string, value: string, ttl: int, now: nat)
      modifies this
      ensures entries == old(entries)[key := Stamp(value, ttl, now)]
    {
      var exp := None;
      if ttl > 0 {
        exp := Some(now + ttl);
      }
      entries := entries[key := Entry(value, exp)];
    }

    method SweepExpired(now: nat) returns (removed: nat)
      modifies this
      ensures entries == Swept(old(entries), now)
      ensures removed == |old(entries)| - |entries|
    {
      removed := 0;
      var todo := entries.Keys;
      while todo != {}
        invariant todo <= entries.Keys <= old(entries).Keys
        invariant forall k :: k in entries ==> entries[k] == old(entries)[k]
        invariant forall k :: k in old(entries) && k !in todo ==> (k in entries <==> !Expired(old(entries)[k], now))
        invariant removed + |entries| == |old(entries)|
        decreases todo
      {
        var k :| k in todo;
        if entries[k].expires.Some? && now > entries[k].expires.value {
          assert (entries - {k}).Keys == entries.Keys - {k};
          entries := entries - {k};
          removed := removed + 1;
        }
        todo := todo - {k};
      }
    }
  }

  class MemoryQuarantineStore {
    var rows: Store

    constructor ()
      ensures rows == map[]
    {
      rows := map[];
    }

    method Set(key: string, value: string, ttl: int, now: nat)
      modifies this
      ensures rows == old(rows)[key := Stamp(value, ttl, now)]
    {
      var expires := None;
      if ttl > 0 {
        expires := Some(now + ttl);
      }
      rows := rows[key := Entry(value, expires)];
    }

    method Get(key: string, now: nat) returns (r: Option<string>)
      modifies this
      ensures r == Visible(old(rows), key, now)
      ensures rows == Touched(old(rows), key, now)
    {
      if key !in rows {
        return None;
      }
      var e := rows[key];
      if e.expires.Some? && now > e.expires.value {
        rows := rows - {key};
        return None;
      }
      r := Some(e.value);
    }

    method Del(keys: seq<string>)
      modifies this
      ensures rows == old(rows) - Elements(keys)
    {
      for i := 0 to |keys|
        invariant rows == old(rows) - Elements(keys[..i])
      {
        assert Elements(keys[..i + 1]) == Elements(keys[..i]) + {keys[i]};
        rows := rows - {keys[i]};
      }
      assert keys[..|keys|] == keys;
    }

    /** Reads and removes in one critical section: the caller owns the value. */
    method GetDel(key: string, now: nat) returns (r: Option<string>)
      modifies this
      ensures r == Visible(old(rows), key, now)
      ensures rows == old(rows) - {key}
    {
      if key !in rows {
        return None;
      }
      var e := rows[key];
      if e.expires.Some? && now > e.expires.value {
        rows := rows - {key};
        return None;
      }
      rows := rows - {key};
      r := Some(e.value);
    }
  }

  // ----- traces -----------------------------------------------------------------------

  datatype Op =
    | Set(key: string, value: string, ttl: int)
    | Get(key: string)
    | GetDel(key: string)
    | Del(keys: set<string>)
    | Sweep(at: nat)       // a janitor pass; never ahead of the clock
    | Tick(seconds: nat)

  function Clock(ops: seq<Op>): nat {
    if ops == [] then 0
    else Clock(ops[..|ops| - 1]) + (if ops[|ops| - 1].Tick? then ops[|ops| - 1].seconds else 0)
  }

  /** The store after a trace. */
  function After(ops: seq<Op>): Store {
    if ops == [] then map[]
    else
      var n := |ops| - 1;
      var rows, now := After(ops[..n]), Clock(ops[..n]);
      match ops[n]
      case Set(key, value, ttl) => rows[key := Stamp(value, ttl, now)]
      case Get(key) => Touched(rows, key, now)
      case GetDel(key) => rows - {key}
      case Del(keys) => rows - keys
      case Sweep(at) => if at <= now then Swept(rows, at) else rows
      case Tick(_) => rows
  }

  /** The plain expiring map: what the last Set, Del or GetDel of `key` left, with
      no eviction ever. */
  function Latest(ops: seq<Op>, key: string): Option<Entry> {
    if ops == [] then None
    else
      var n := |ops| - 1;
      match ops[n]
      case Set(k, value, ttl) => if k == key then Some(Stamp(value, ttl, Clock(ops[..n]))) else Latest(ops[..n], key)
      case GetDel(k) => if k == key then None else Latest(ops[..n], key)
      case Del(keys) => if key in keys then None else Latest(ops[..n], key)
      case _ => Latest(ops[..n], key)
  }

  function Reference(ops: seq<Op>, key: string): Option<string> {
    match Latest(ops, key)
    case None => None
    case Some(e) => if Expired(e, Clock(ops)) then None else Some(e.value)
  }

  /** The store holds the latest entry, unless that has already expired. */
  lemma {:induction false} StoreHoldsLatest(ops: seq<Op>, key: string)
    ensures key in After(ops) ==> Latest(ops, key) == Some(After(ops)[key])
    ensures key !in After(ops) && Latest(ops, key).Some? ==> Expired(Latest(ops, key).value, Clock(ops))
  {
    if ops != [] {
      StoreHoldsLatest(ops[..|ops| - 1], key);
    }
  }

  /** Every answer is that of the plain expiring map, wherever lazy evictions and
      sweeps fall in the trace. */
  lemma AnswersIgnoreEviction(ops: seq<Op>, key: string)
    ensures Visible(After(ops), key, Clock(ops)) == Reference(ops, key)
  {
    StoreHoldsLatest(ops, key);
  }

  /** A value is visible for exactly its TTL, for ever when the TTL is not positive, and
      its Set does not disturb other keys. */
  lemma VisibleForItsTtl(ops: seq<Op>, key: string, value: string, ttl: int, wait: nat, other: string)
    ensures var next := ops + [Set(key, value, ttl)] + [Tick(wait)];
            && Visible(After(next), key, Clock(next)) == (if ttl <= 0 || wait <= ttl then Some(value) else None)
            && (other != key && wait == 0 ==>
                  Visible(After(next), other, Clock(next)) == Visible(After(ops), other, Clock(ops)))
  {
    var stored := ops + [Set(key, value, ttl)];
    var next := stored + [Tick(wait)];
    assert stored[..|ops|] == ops && next[..|stored|] == stored;
  }

  /** Claiming or deleting a key hides it until it is set again. */
  lemma RemovedIsHidden(ops: seq<Op>, key: string, keys: set<string>)
    ensures Visible(After(ops + [GetDel(key)]), key, Clock(ops + [GetDel(key)])).None?
    ensures key in keys ==> Visible(After(ops + [Del(keys)]), key, Clock(ops + [Del(keys)])).None?
  {
    assert (ops + [GetDel(key)])[..|ops|] == ops && (ops + [Del(keys)])[..|ops|] == ops;
  }

  ghost predicate IsEviction(op: Op) {
    op.Sweep? || op.Get?
  }

  /** Removing reads and sweeps from a trace changes no later answer. */
  lemma {:induction false} EvictionsAreInvisible(ops: seq<Op>, i: nat, key: string)
    requires i < |ops| && IsEviction(ops[i])
    ensures var without := ops[..i] + ops[i + 1..];
            Visible(After(ops), key, Clock(ops)) == Visible(After(without), key, Clock(without))
  {
    var without := ops[..i] + ops[i + 1..];
    LatestWithout(ops, i, key);
    ClockWithout(ops, i);
    AnswersIgnoreEviction(ops, key);
    AnswersIgnoreEviction(without, key);
  }

  lemma {:induction false} LatestWithout(ops: seq<Op>, i: nat, key: string)
    requires i < |ops| && IsEviction(ops[i])
    ensures var without := ops[..i] + ops[i + 1..];
            Latest(ops, key) == Latest(without, key)
  {
    hide Clock;
    var without := ops[..i] + ops[i + 1..];
    var n := |ops| - 1;
    if i == n {
      assert without == ops[..n];
    } else {
      LatestWithout(ops[..n], i, key);
      ClockWithout(ops[..n], i);
      assert without[..n - 1] == ops[..n][..i] + ops[..n][i + 1..];
      assert without[n - 1] == ops[n];
    }
  }

  lemma {:induction false} ClockWithout(ops: seq<Op>, i: nat)
    requires i < |ops| && IsEviction(ops[i])
    ensures Clock(ops) == Clock(ops[..i] + ops[i + 1..])
  {
    var without := ops[..i] + ops[i + 1..];
    var n := |ops| - 1;
    if i == n {
      assert without == ops[..n];
    } else {
      ClockWithout(ops[..n], i);
      assert without[..n - 1] == ops[..n][..i] + ops[..n][i + 1..];
      assert without[n - 1] == ops[n];
    }
  }

  /** The trace up to and including step `i` served `GetDel(key)` successfully. */
  ghost predicate Claimed(ops: seq<Op>, i: nat, key: string) {
    i < |ops| && ops[i] == GetDel(key) && Visible(After(ops[..i]), key, Clock(ops[..i])).Some?
  }

  lemma {:induction false} LatestNeedsSet(ops: seq<Op>, i: nat, j: nat, key: string)
    requires i < j <= |ops| && Latest(ops[..i + 1], key).None? && Latest(ops[..j], key).Some?
    ensures exists m :: i < m < j && ops[m].Set? && ops[m].key == key
    decreases j
  {
    assert ops[..j][..j - 1] == ops[..j - 1];
    if !(ops[j - 1].Set? && ops[j - 1].key == key) {
      LatestNeedsSet(ops, i, j - 1, key);
    }
  }

  /** A claim is exclusive: between two successful claims of a key lies a Set of it,
      and each claim returns the latest value set and not yet expired. */
  lemma ClaimsAreExclusive(ops: seq<Op>, i: nat, j: nat, key: string)
    requires i < j && Claimed(ops, i, key) && Claimed(ops, j, key)
    ensures exists m :: i < m < j && ops[m].Set? && ops[m].key == key
    ensures Latest(ops[..j], key).Some?
            && Visible(After(ops[..j]), key, Clock(ops[..j])) == Some(Latest(ops[..j], key).value.value)
            && !Expired(Latest(ops[..j], key).value, Clock(ops[..j]))
  {
    AnswersIgnoreEviction(ops[..j], key);
    assert ops[..i + 1][..i] == ops[..i];
    assert Latest(ops[..i + 1], key).None?;
    LatestNeedsSet(ops, i, j, key);
  }
}
