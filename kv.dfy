/** The key-value namespace behind `env.TOKENS`, with the semantics of the in-memory
    double the tests use: `put` overwrites, `get` returns the stored string or null,
    `delete` removes. The expiration a `put` may carry is recorded per key so that the
    model can say which entries the store is allowed to drop on its own. */
module Kv {
  import opened Optional

  /** The stored strings, and the TTL in seconds of each key last written with one. */
  datatype KvState = KvState(values: map<string, string>, ttls: map<string, nat>)

  const Empty := KvState(map[], map[])

  /** `get`: the stored string, or null. */
  function Lookup(s: KvState, key: string): (r: Option<string>)
    ensures r.Some? <==> key in s.values
    ensures r.Some? ==> r.value == s.values[key]
  {
    if key in s.values then Some(s.values[key]) else None
  }

  /** The TTL the entry under `key` was last written with, if any. */
  function TtlOf(s: KvState, key: string): Option<nat> {
    if key in s.ttls then Some(s.ttls[key]) else None
  }

  /** `put(key, value, { expirationTtl })`: the whole entry is replaced, so a write
      without a TTL also clears an earlier one. */
  function Written(s: KvState, key: string, value: string, ttl: Option<nat>): (s': KvState)
    ensures Lookup(s', key) == Some(value) && TtlOf(s', key) == ttl
    ensures forall k :: k != key ==> Lookup(s', k) == Lookup(s, k) && TtlOf(s', k) == TtlOf(s, k)
  {
    KvState(s.values[key := value], if ttl.Some? then s.ttls[key := ttl.value] else s.ttls - {key})
  }

  /** `delete(key)`. */
  function Removed(s: KvState, key: string): (s': KvState)
    ensures Lookup(s', key) == None && TtlOf(s', key) == None
    ensures forall k :: k != key ==> Lookup(s', k) == Lookup(s, k) && TtlOf(s', k) == TtlOf(s, k)
  {
    KvState(s.values - {key}, s.ttls - {key})
  }

  /** Expiry: the store may drop an entry written with a TTL, at a moment of its own
      choosing; an entry written without one stays. */
  function Expired(s: KvState, key: string): (s': KvState)
    ensures TtlOf(s, key).None? ==> s' == s
    ensures TtlOf(s, key).Some? ==> Lookup(s', key) == None && AgreeOutside(s, s', key)
  {
    if key in s.ttls then Removed(s, key) else s
  }

  /** Every key other than `key` reads the same in `s` and `s'`. */
  ghost predicate AgreeOutside(s: KvState, s': KvState, key: string) {
    forall k :: k != key ==> Lookup(s', k) == Lookup(s, k) && TtlOf(s', k) == TtlOf(s, k)
  }

  /** A handle on a namespace whose entries its methods update in place. */
  class KvNamespace {
    var values: map<string, string>
    var ttls: map<string, nat>

    function State(): KvState
      reads this
    {
      KvState(values, ttls)
    }

    constructor ()
      ensures State() == Empty
    {
      values := map[];
      ttls := map[];
    }

    method Get(key: string) returns (r: Option<string>)
      ensures r == Lookup(State(), key)
    {
      if key in values {
        r := Some(values[key]);
      } else {
        r := None;
      }
    }

    method Put(key: string, value: string, ttl: Option<nat>)
      modifies this
      ensures State() == Written(old(State()), key, value, ttl)
    {
      values := values[key := value];
      if ttl.Some? {
        ttls := ttls[key := ttl.value];
      } else {
        ttls := ttls - {key};
      }
    }

    method Delete(key: string)
      modifies this
      ensures State() == Removed(old(State()), key)
    {
      values := values - {key};
      ttls := ttls - {key};
    }
  }
}
