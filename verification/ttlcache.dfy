/** The `cachetools.TTLCache(maxsize=100, ttl=60)` of the coordinator as an
    explicit value with an explicit clock. Every entry carries the instant
    it expires; an entry is live while the clock is strictly before that
    instant. Writing first drops every expired entry and then, if the key is
    new and the cache is full, evicts some live entry; which one is left
    unspecified. */
module TtlCache {
  import opened Common
  import opened Values

  const MaxSize := 100
  const Ttl := 60

  datatype Entry = Entry(value: Value, expires: int)

  datatype Cache = Cache(entries: map<string, Entry>)

  const Empty := Cache(map[])

  /** The cache bound holds. */
  predicate Bounded(c: Cache) {
    |c.entries| <= MaxSize
  }

  /** `key in cache` at time `now`. */
  predicate Live(c: Cache, key: string, now: int) {
    key in c.entries && now < c.entries[key].expires
  }

  /** `cache.get(key)`: the value of a live entry, `None` otherwise. */
  function Get(c: Cache, key: string, now: int): (r: Option<Value>)
    ensures r.Some? <==> Live(c, key, now)
    ensures r.Some? ==> r.value == c.entries[key].value
  {
    if Live(c, key, now) then Some(c.entries[key].value) else None
  }

  /** `expire(now)`: the entries still live at `now`. */
  function Purge(entries: map<string, Entry>, now: int): (r: map<string, Entry>)
    ensures forall k :: k in r <==> k in entries && now < entries[k].expires
    ensures forall k :: k in r ==> r[k] == entries[k]
  {
    map k | k in entries && now < entries[k].expires :: entries[k]
  }

  lemma SubmapSize(a: map<string, Entry>, b: map<string, Entry>)
    requires a.Keys <= b.Keys
    ensures |a| <= |b|
  {
    assert a.Keys <= b.Keys;
    assert |a.Keys| <= |b.Keys| by { SubsetSize(a.Keys, b.Keys); }
  }

  lemma {:induction false} SubsetSize(a: set<string>, b: set<string>)
    requires a <= b
    ensures |a| <= |b|
    decreases |b|
  {
    if a != {} {
      var x :| x in a;
      SubsetSize(a - {x}, b - {x});
    }
  }

  /** `popitem()` repeated until there is room for one more entry; the
      victims are some entries, in an order not modelled. */
  ghost function MakeRoom(entries: map<string, Entry>): (r: map<string, Entry>)
    ensures |r| < MaxSize
    ensures r.Keys <= entries.Keys
    ensures forall k :: k in r ==> r[k] == entries[k]
    ensures |entries| < MaxSize ==> r == entries
    decreases |entries|
  {
    if |entries| < MaxSize then entries
    else
      var victim :| victim in entries;
      var rest := map k | k in entries && k != victim :: entries[k];
      assert rest.Keys == entries.Keys - {victim};
      MakeRoom(rest)
  }

  /** `cache[key] = value` at time `now`: expired entries go; a key that
      is still live is overwritten in place; a new key may evict others
      when the cache is full. The entry is visible for `Ttl` time units. */
  ghost function Put(c: Cache, key: string, value: Value, now: int): (r: Cache)
    ensures key in r.entries && r.entries[key] == Entry(value, now + Ttl)
    ensures forall k :: k in r.entries && k != key ==>
      k in c.entries && r.entries[k] == c.entries[k] && now < c.entries[k].expires
    ensures Bounded(c) ==> Bounded(r)
    ensures Live(c, key, now) || |Purge(c.entries, now)| < MaxSize ==>
      forall k :: Live(c, k, now) ==> k in r.entries
  {
    var live := Purge(c.entries, now);
    SubmapSize(live, c.entries);
    if key in live then
      assert live[key := Entry(value, now + Ttl)].Keys == live.Keys;
      Cache(live[key := Entry(value, now + Ttl)])
    else
      var room := MakeRoom(live);
      assert room.Keys + {key} == room[key := Entry(value, now + Ttl)].Keys;
      Cache(room[key := Entry(value, now + Ttl)])
  }

  /** What a read after a write sees: the written value until `Ttl` time
      units have passed, nothing from then on. */
  lemma GetAfterPut(c: Cache, key: string, value: Value, now: int, later: int)
    ensures Get(Put(c, key, value, now), key, later) ==
      if later < now + Ttl then Some(value) else None
  {
  }

  /** A write never makes another key visible that was not visible before,
      and never changes another visible key's value. */
  lemma PutKeepsOrDrops(c: Cache, key: string, value: Value, now: int, other: string)
    requires other != key
    ensures Get(Put(c, key, value, now), other, now).Some? ==>
      Get(Put(c, key, value, now), other, now) == Get(c, other, now)
  {
  }
}
