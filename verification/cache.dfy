/** The shared cache the controllers drive (`cache-manager` over a Keyv
    store), as an in-memory map with a logical clock, and the conventions
    the controllers follow when they read from it and pick a TTL. */
module Cache {
  import opened Outcomes
  import opened Text
  import opened JsonValues

  /** A stored value and the instant after which it is gone; `None` never
      expires. */
  datatype Entry = Entry(value: string, expiresAt: Option<int>)

  /** An entry is readable up to and including its expiry instant. */
  predicate Live(e: Entry, t: int) {
    e.expiresAt.None? || t <= e.expiresAt.value
  }

  /** The expiry a `set` at time `t` with a TTL in milliseconds records; a
      TTL of 0 stores without expiry. */
  function ExpiryAfter(t: int, ttl: nat): (r: Option<int>)
    ensures r.None? <==> ttl == 0
    ensures r.Some? ==> r.value - t == ttl
  {
    if ttl == 0 then None else Some(t + ttl)
  }

  /** An entry stored with a TTL is readable for exactly that long: at every
      instant up to `t + ttl` and at none after it (forever when the TTL is 0). */
  lemma LiveForTtl(value: string, t: int, ttl: nat, u: int)
    requires t <= u
    ensures Live(Entry(value, ExpiryAfter(t, ttl)), u) <==> ttl == 0 || u <= t + ttl
  {
  }

  /** Liveness only ends: an entry readable at `u` was readable before. */
  lemma LiveEarlier(e: Entry, t: int, u: int)
    requires t <= u && Live(e, u)
    ensures Live(e, t)
  {
  }

  class CacheStore {
    var entries: map<string, Entry>
    var now: int

    constructor()
      ensures entries == map[] && now == 0
    {
      entries := map[];
      now := 0;
    }

    /** What a read of `key` finds now. */
    function Lookup(key: string): (r: Option<string>)
      reads this
      ensures r.Some? <==> key in entries && Live(entries[key], now)
      ensures r.Some? ==> r.value == entries[key].value
    {
      if key in entries && Live(entries[key], now) then Some(entries[key].value) else None
    }

    /** `get`: the live value of the key, if any; a read changes nothing. */
    method Get(key: string) returns (v: Option<string>)
      ensures v == Lookup(key)
    {
      if key in entries && Live(entries[key], now) {
        v := Some(entries[key].value);
      } else {
        v := None;
      }
    }

    /** `set`: the key now maps to the value with the TTL's expiry; no other
      key changes. */
    method Set(key: string, value: string, ttl: nat)
      modifies this
      ensures entries == old(entries)[key := Entry(value, ExpiryAfter(old(now), ttl))]
      ensures now == old(now)
      ensures Lookup(key) == Some(value)
      ensures forall k :: k != key ==> Lookup(k) == old(Lookup(k))
    {
      entries := entries[key := Entry(value, ExpiryAfter(now, ttl))];
    }

    /** `del`: the key is gone; no other key changes. */
    method Del(key: string)
      modifies this
      ensures entries == old(entries) - {key}
      ensures now == old(now)
      ensures Lookup(key) == None
      ensures forall k :: k != key ==> Lookup(k) == old(Lookup(k))
    {
      entries := entries - {key};
    }

    /** The passing of `dt` milliseconds. */
    method Advance(dt: nat)
      modifies this
      ensures entries == old(entries) && now == old(now) + dt
      ensures forall k :: Lookup(k).Some? ==> old(Lookup(k)) == Lookup(k)
    {
      now := now + dt;
    }
  }

  // ---------------------------------------------------------------------
  // How the controllers read and configure the cache
  // ---------------------------------------------------------------------

  /** The TTL used when the setting is unset or empty: 36000 ms. */
  const DefaultTtl: nat := 36000

  /** `Number(config.get(setting) || 36000)` for a setting that is unset, empty
      or a decimal digit string. */
  function CacheTtl(setting: Option<string>): (r: nat)
    requires setting.None? || AllDigits(setting.value)
    ensures setting.None? || setting.value == "" ==> r == DefaultTtl
  {
    if setting.None? || setting.value == "" then DefaultTtl else DigitsValue(setting.value)
  }

  /** A setting written as the decimal digits of `n` configures `n`. */
  lemma CacheTtlOfDigits(n: nat)
    ensures CacheTtl(Some(NatToString(n))) == n
  {
    NatToStringRoundTrip(n);
  }

  /** What `if (cached) { JSON.parse(cached) … }` makes of a read: nothing or
      the empty string is a miss, otherwise the text parses or it does not. */
  datatype CacheRead = Miss | Hit(value: Json) | Corrupt(error: string)

  function ReadCached(cached: Option<string>, codec: Codec): (r: CacheRead)
    ensures r.Miss? <==> cached.None? || cached.value == ""
    ensures r.Hit? ==> codec.parse(cached.value) == Ok(r.value)
    ensures r.Corrupt? ==> codec.parse(cached.value) == Err(r.error)
  {
    if cached.None? || cached.value == "" then Miss
    else match codec.parse(cached.value)
      case Ok(v) => Hit(v)
      case Err(m) => Corrupt(m)
  }

  /** Text that `stringify` produced from a parsed value reads back as
      that value. */
  lemma StringifiedReadsBack(v: Json, codec: Codec)
    requires RoundTrips(codec) && NeverEmpty(codec)
    requires Parsed(codec, v)
    ensures ReadCached(Some(codec.stringify(v)), codec) == Hit(v)
  {
    assert codec.parse(codec.stringify(v)) == Ok(v);
    assert codec.stringify(v) != "";
  }
}
