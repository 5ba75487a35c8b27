/** The router's in-memory caches: what is inserted is found for a fixed time, and of
    too many keys the one that was used longest ago gives way. */
module TtlCaches {
  import opened Wrappers

  datatype Entry<+V> = Entry(inserted: nat, value: V)

  /** The contents: the entries, and their keys from least to most recently used. */
  datatype Contents<+V> = Contents(table: map<string, Entry<V>>, order: seq<string>)

  datatype Limits = Limits(capacity: nat, ttl: nat)

  datatype Op<+V> = Get(key: string, now: nat) | Insert(key: string, value: V, now: nat) | Invalidate(key: string)

  ghost predicate Distinct(s: seq<string>) {
    forall i, j | 0 <= i < j < |s| :: s[i] != s[j]
  }

  ghost predicate WellFormed<V>(c: Contents<V>) {
    && Distinct(c.order)
    && (forall key :: key in c.table <==> key in c.order)
  }

  function Remove(order: seq<string>, key: string): seq<string> {
    if order == [] then [] else if order[0] == key then order[1..]
    else [order[0]] + Remove(order[1..], key)
  }

  function Fresh(l: Limits, e: Entry, now: nat): bool { now < e.inserted + l.ttl }

  // ---- The operations, as functions

  function Lookup<V>(l: Limits, c: Contents<V>, key: string, now: nat): Option<V> {
    if key in c.table && Fresh(l, c.table[key], now) then Some(c.table[key].value) else None
  }

  function Pop<V>(c: Contents<V>, key: string): Contents<V> {
    if key in c.table then Contents(c.table - {key}, Remove(c.order, key)) else c
  }

  function Promote(order: seq<string>, key: string): seq<string> { Remove(order, key) + [key] }

  function PopOldest<V>(l: Limits, c: Contents<V>): Contents<V> {
    if |c.order| > l.capacity then Contents(c.table - {c.order[0]}, c.order[1..]) else c
  }

  function Step<V>(l: Limits, c: Contents<V>, op: Op<V>): Contents<V> {
    match op
    case Get(key, now) =>
      if key !in c.table then c
      else if Fresh(l, c.table[key], now) then c.(order := Promote(c.order, key))
      else Pop(c, key)
    case Insert(key, value, now) =>
      PopOldest(l, Contents(c.table[key := Entry(now, value)], Promote(c.order, key)))
    case Invalidate(key) => Pop(c, key)
  }

  // ---- Their order is an LRU order

  lemma TailIsDistinct(s: seq<string>)
    requires s != [] && Distinct(s)
    ensures Distinct(s[1..]) && s[0] !in s[1..]
    ensures forall k :: k in s <==> k == s[0] || k in s[1..]
  {
    assert s == [s[0]] + s[1..];
    forall i | 0 <= i < |s[1..]| ensures s[1..][i] != s[0] {
      assert s[1..][i] == s[i + 1];
    }
  }

  lemma {:induction false} RemoveMembers(s: seq<string>, key: string)
    requires Distinct(s)
    ensures Distinct(Remove(s, key))
    ensures forall k :: k in Remove(s, key) <==> k in s && k != key
    ensures |Remove(s, key)| == |s| - if key in s then 1 else 0
    decreases |s|
  {
    if s != [] {
      TailIsDistinct(s);
      RemoveMembers(s[1..], key);
    }
  }

  lemma StepIsValid<V>(l: Limits, c: Contents<V>, op: Op<V>)
    requires WellFormed(c) && l.capacity >= 1 && |c.order| <= l.capacity
    ensures WellFormed(Step(l, c, op)) && |Step(l, c, op).order| <= l.capacity
  {
    RemoveMembers(c.order, op.key);
    if op.Insert? {
      var c1 := Contents(c.table[op.key := Entry(op.now, op.value)], Promote(c.order, op.key));
      assert WellFormed(c1);
      TailIsDistinct(c1.order);
    }
  }

  /** The cache, which the router mutates in place. */
  class TtlCache<V> {
    var table: map<string, Entry<V>>
    var order: seq<string>
    const limits: Limits

    ghost predicate Valid()
      reads this
    {
      && WellFormed(State())
      && limits.capacity >= 1 && |order| <= limits.capacity
    }

    ghost function State(): Contents<V>
      reads this
    {
      Contents(table, order)
    }

    constructor (capacity: nat, ttl: nat)
      ensures Valid() && State() == Contents(map[], [])
      ensures limits == Limits(if capacity > 1 then capacity else 1, ttl)
    {
      table, order := map[], [];
      limits := Limits(if capacity > 1 then capacity else 1, ttl);
    }

    method Get(key: string, now: nat) returns (r: Option<V>)
      requires Valid()
      modifies this
      ensures Valid() && State() == Step(limits, old(State()), Op<V>.Get(key, now))
      ensures r == Lookup(limits, old(State()), key, now)
    {
      StepIsValid(limits, State(), Op<V>.Get(key, now));
      if key !in table { return None; }
      order := Promote(order, key);
      var entry := table[key];
      if now < entry.inserted + limits.ttl { return Some(entry.value); }
      PromoteThenRemove(old(order), key);
      table, order := table - {key}, Remove(order, key);
      return None;
    }

    method Insert(key: string, value: V, now: nat)
      requires Valid()
      modifies this
      ensures Valid() && State() == Step(limits, old(State()), Op<V>.Insert(key, value, now))
    {
      StepIsValid(limits, State(), Op<V>.Insert(key, value, now));
      table, order := table[key := Entry(now, value)], Promote(order, key);
      if |order| > limits.capacity {
        table, order := table - {order[0]}, order[1..];
      }
    }

    method Invalidate(key: string)
      requires Valid()
      modifies this
      ensures Valid() && State() == Step(limits, old(State()), Op<V>.Invalidate(key))
    {
      StepIsValid(limits, State(), Op<V>.Invalidate(key));
      if key in table {
        table, order := table - {key}, Remove(order, key);
      }
    }
  }

  lemma {:induction false} PromoteThenRemove(order: seq<string>, key: string)
    requires Distinct(order)
    ensures Remove(Promote(order, key), key) == Remove(order, key)
  {
    RemoveMembers(order, key);
    RemoveLast(Remove(order, key), key);
  }

  lemma {:induction false} RemoveLast(s: seq<string>, key: string)
    requires key !in s
    ensures Remove(s + [key], key) == s
    decreases |s|
  {
    if s != [] {
      assert (s + [key])[1..] == s[1..] + [key];
      RemoveLast(s[1..], key);
    }
  }

  // ---- Runs, against a map that never evicts

  function Run<V>(l: Limits, ops: seq<Op<V>>): Contents<V> {
    if ops == [] then Contents(map[], [])
    else Step(l, Run(l, ops[..|ops| - 1]), ops[|ops| - 1])
  }

  /** The latest insert of each key that has not been invalidated since. */
  function Ideal<V>(ops: seq<Op<V>>): map<string, Entry<V>> {
    if ops == [] then map[]
    else
      var before := Ideal(ops[..|ops| - 1]);
      match ops[|ops| - 1]
      case Get(_, _) => before
      case Insert(key, value, now) => before[key := Entry(now, value)]
      case Invalidate(key) => before - {key}
  }

  /** After any operations the size is within the capacity, and every entry is
      the latest insert of its key. */
  lemma {:induction false} RunIsSound<V>(l: Limits, ops: seq<Op<V>>)
    requires l.capacity >= 1
    ensures WellFormed(Run(l, ops)) && |Run(l, ops).order| <= l.capacity
    ensures forall key <- Run(l, ops).table ::
              key in Ideal(ops) && Ideal(ops)[key] == Run(l, ops).table[key]
    decreases |ops|
  {
    if ops != [] {
      var before := ops[..|ops| - 1];
      RunIsSound(l, before);
      StepIsValid(l, Run(l, before), ops[|ops| - 1]);
    }
  }

  /** A lookup only returns the latest insert that was not invalidated and is
      younger than the ttl. */
  lemma LookupIsSound<V>(l: Limits, ops: seq<Op<V>>, key: string, now: nat)
    requires l.capacity >= 1 && Lookup(l, Run(l, ops), key, now).Some?
    ensures key in Ideal(ops) && Fresh(l, Ideal(ops)[key], now)
    ensures Lookup(l, Run(l, ops), key, now) == Some(Ideal(ops)[key].value)
  {
    RunIsSound(l, ops);
  }

  // ---- What is recently used stays

  /** The other keys touched since `key` was last touched. */
  function Recent<V>(ops: seq<Op<V>>, key: string): set<string> {
    if ops == [] then {}
    else
      var last := ops[|ops| - 1];
      if last.Invalidate? then Recent(ops[..|ops| - 1], key)
      else if last.key == key then {}
      else Recent(ops[..|ops| - 1], key) + {last.key}
  }

  /** Operations that leave `key`'s entry from time `inserted` alone and live, and
      touch fewer than `capacity` other keys between touches of `key`. */
  ghost predicate Spares<V>(l: Limits, ops: seq<Op<V>>, key: string, inserted: nat)
    decreases |ops|
  {
    ops == [] ||
    (&& Spares(l, ops[..|ops| - 1], key, inserted)
     && |Recent(ops, key)| < l.capacity
     && var last := ops[|ops| - 1];
        last.key != key || (last.Get? && last.now < inserted + l.ttl))
  }

  /** The keys used more recently than `key`. */
  function NewerThan(order: seq<string>, key: string): seq<string> {
    if order == [] then [] else if order[0] == key then order[1..] else NewerThan(order[1..], key)
  }

  ghost predicate Behind<V>(c: Contents<V>, key: string, newer: set<string>) {
    key in c.order && forall k <- NewerThan(c.order, key) :: k in newer
  }

  lemma {:induction false} NewerAfterRemove(s: seq<string>, key: string, other: string)
    requires Distinct(s) && key in s && other != key
    ensures forall k <- NewerThan(Remove(s, other), key) :: k in NewerThan(s, key)
    decreases |s|
  {
    TailIsDistinct(s);
    if s[0] == key {
      RemoveMembers(s[1..], other);
      assert Remove(s, other)[1..] == Remove(s[1..], other);
    } else if s[0] != other {
      NewerAfterRemove(s[1..], key, other);
      assert Remove(s, other)[1..] == Remove(s[1..], other);
    }
  }

  lemma {:induction false} NewerAfterAppend(s: seq<string>, key: string, other: string)
    requires key in s
    ensures NewerThan(s + [other], key) == NewerThan(s, key) + [other]
    decreases |s|
  {
    assert (s + [other])[1..] == s[1..] + [other];
    if s[0] != key {
      assert s == [s[0]] + s[1..];
      NewerAfterAppend(s[1..], key, other);
    }
  }

  /** Removing another key, or using it, keeps what is newer than `key` known. */
  lemma RemoveOther<V>(c: Contents<V>, key: string, other: string, newer: set<string>)
    requires WellFormed(c) && other != key && Behind(c, key, newer)
    ensures Behind(c.(order := Remove(c.order, other)), key, newer)
    ensures Behind(c.(order := Promote(c.order, other)), key, newer + {other})
  {
    RemoveMembers(c.order, other);
    NewerAfterRemove(c.order, key, other);
    NewerAfterAppend(Remove(c.order, other), key, other);
  }

  lemma {:induction false} NewestHasNoNewer(s: seq<string>, key: string)
    requires key !in s
    ensures NewerThan(s + [key], key) == []
    decreases |s|
  {
    if s != [] {
      assert (s + [key])[1..] == s[1..] + [key];
      NewestHasNoNewer(s[1..], key);
    }
  }

  lemma {:induction false} DistinctSize(s: seq<string>, all: set<string>)
    requires Distinct(s) && forall k <- s :: k in all
    ensures |s| <= |all|
    decreases |s|
  {
    if s != [] {
      TailIsDistinct(s);
      DistinctSize(s[1..], all - {s[0]});
    }
  }

  /** The oldest entry is not `key` while fewer than `capacity` others are newer. */
  lemma OldestIsAnother<V>(l: Limits, c: Contents<V>, key: string, newer: set<string>)
    requires WellFormed(c) && Behind(c, key, newer) && |newer| < l.capacity
    ensures Behind(PopOldest(l, c), key, newer)
    ensures key in c.table ==>
              key in PopOldest(l, c).table && PopOldest(l, c).table[key] == c.table[key]
  {
    if |c.order| > l.capacity {
      TailIsDistinct(c.order);
      if c.order[0] == key { DistinctSize(c.order[1..], newer); }
    }
  }

  ghost predicate Holds<V>(c: Contents<V>, key: string, e: Entry<V>, newer: set<string>) {
    key in c.table && c.table[key] == e && Behind(c, key, newer)
  }

  lemma SparingStep<V>(l: Limits, c: Contents<V>, op: Op<V>, key: string, e: Entry<V>,
                       newer: set<string>, newer': set<string>)
    requires WellFormed(c) && l.capacity >= 1 && Holds(c, key, e, newer)
    requires op.key != key || (op.Get? && op.now < e.inserted + l.ttl)
    requires newer' == (if op.Invalidate? then newer else if op.key == key then {} else newer + {op.key})
    requires |newer'| < l.capacity
    ensures Holds(Step(l, c, op), key, e, newer')
  {
    RemoveMembers(c.order, op.key);
    if op.key == key {
      NewestHasNoNewer(Remove(c.order, key), key);
    } else {
      RemoveOther(c, key, op.key, newer);
      if op.Insert? {
        var c1 := Contents(c.table[op.key := Entry(op.now, op.value)], Promote(c.order, op.key));
        OldestIsAnother(l, c1, key, newer');
      }
    }
  }

  lemma InsertedIsHeld<V>(l: Limits, c: Contents<V>, key: string, value: V, now: nat)
    requires WellFormed(c) && l.capacity >= 1
    ensures Holds(Step(l, c, Insert(key, value, now)), key, Entry(now, value), {})
  {
    RemoveMembers(c.order, key);
    NewestHasNoNewer(Remove(c.order, key), key);
    var c1 := Contents(c.table[key := Entry(now, value)], Promote(c.order, key));
    OldestIsAnother(l, c1, key, {});
  }

  lemma RunStep<V>(l: Limits, ops: seq<Op<V>>, op: Op<V>)
    ensures Run(l, ops + [op]) == Step(l, Run(l, ops), op)
  {
    assert (ops + [op])[..|ops|] == ops;
  }

  /** A live key that was just inserted stays, and is found, for as long as fewer
      than `capacity` distinct other keys are touched between touches of it. */
  lemma {:induction false} SparedKeyStays<V>(l: Limits, first: seq<Op<V>>, ops: seq<Op<V>>)
    requires first != [] && first[|first| - 1].Insert?
    requires var i := first[|first| - 1]; l.capacity >= 1 && Spares(l, ops, i.key, i.now)
    ensures var i := first[|first| - 1];
            Holds(Run(l, first + ops), i.key, Entry(i.now, i.value), Recent(ops, i.key))
    decreases |ops|
  {
    var i := first[|first| - 1];
    if ops == [] {
      assert first + ops == first;
      RunIsSound(l, first[..|first| - 1]);
      InsertedIsHeld(l, Run(l, first[..|first| - 1]), i.key, i.value, i.now);
    } else {
      var n := |ops| - 1;
      var before := Run(l, first + ops[..n]);
      SparedKeyStays(l, first, ops[..n]);
      RunIsSound(l, first + ops[..n]);
      RunStep(l, first + ops[..n], ops[n]);
      assert first + ops == first + ops[..n] + [ops[n]];
      SparingStep(l, before, ops[n], i.key, Entry(i.now, i.value), Recent(ops[..n], i.key), Recent(ops, i.key));
    }
  }

  lemma SparedKeyIsFound<V>(l: Limits, first: seq<Op<V>>, ops: seq<Op<V>>, now: nat)
    requires first != [] && first[|first| - 1].Insert?
    requires var i := first[|first| - 1]; l.capacity >= 1 && Spares(l, ops, i.key, i.now)
    ensures var i := first[|first| - 1];
            Lookup(l, Run(l, first + ops), i.key, now)
            == if now < i.now + l.ttl then Some(i.value) else None
  {
    SparedKeyStays(l, first, ops);
  }
}
