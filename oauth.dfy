/** The store operations of src/oauth.ts: single-use correlation tokens for account
    linking (`link:` keys) and for the provider's `state` parameter (`todoist:` keys),
    both written with a 600-second TTL and consumed by get-then-delete, and the
    user-to-credential bindings under `token:` keys, written without a TTL.

    Each operation is a method on the shared `KvNamespace`, proved equal to a function of
    the old store content; the properties are lemmas about those functions. */
module OAuth {
  import opened Optional
  import opened Kv
  import opened StatePayload

  const StateTtlSeconds: nat := 600
  const LinkStatePrefix := "link"
  const TodoistStatePrefix := "todoist"

  function LinkKey(state: string): string {
    LinkStatePrefix + ":" + state
  }

  function TodoistKey(key: string): string {
    TodoistStatePrefix + ":" + key
  }

  function TokenKey(userId: string): string {
    "token:" + userId
  }

  /** The store after a consume, and what the consume returned. */
  datatype Consumed<T> = Consumed(store: KvState, result: Option<T>)

  // ---------------------------------------------------------------------------
  // The operations as functions of the store content

  function StoredLinkState(s: KvState, state: string, userId: string): KvState {
    Written(s, LinkKey(state), userId, Some(StateTtlSeconds))
  }

  /** Get, and only when a non-empty value came back, delete. */
  function ConsumedLinkState(s: KvState, state: string): Consumed<string> {
    var userId := Lookup(s, LinkKey(state));
    if !Truthy(userId) then Consumed(s, None)
    else Consumed(Removed(s, LinkKey(state)), userId)
  }

  function RememberedTodoistState(s: KvState, key: string, payload: TodoistStatePayload): KvState {
    Written(s, TodoistKey(key), Encode(payload), Some(StateTtlSeconds))
  }

  /** Get; when a non-empty value came back, delete it first and then parse it. */
  function ConsumedTodoistState(s: KvState, key: string): Consumed<TodoistStatePayload> {
    var stored := Lookup(s, TodoistKey(key));
    if !Truthy(stored) then Consumed(s, None)
    else Consumed(Removed(s, TodoistKey(key)), Decode(stored.value))
  }

  function StoredToken(s: KvState, userId: string, token: string): KvState {
    Written(s, TokenKey(userId), token, None)
  }

  function TokenOf(s: KvState, userId: string): Option<string> {
    Lookup(s, TokenKey(userId))
  }

  function DeletedToken(s: KvState, userId: string): KvState {
    Removed(s, TokenKey(userId))
  }

  // ---------------------------------------------------------------------------
  // The operations as the source performs them

  /** `storeLinkState`. */
  method StoreLinkState(tokens: KvNamespace, state: string, userId: string)
    modifies tokens
    ensures tokens.State() == StoredLinkState(old(tokens.State()), state, userId)
  {
    tokens.Put(LinkKey(state), userId, Some(StateTtlSeconds));
  }

  /** `consumeLinkState`. */
  method ConsumeLinkState(tokens: KvNamespace, state: string) returns (userId: Option<string>)
    modifies tokens
    ensures Consumed(tokens.State(), userId) == ConsumedLinkState(old(tokens.State()), state)
  {
    userId := tokens.Get(LinkKey(state));
    if !Truthy(userId) {
      return None;
    }
    tokens.Delete(LinkKey(state));
  }

  /** `rememberTodoistState`. */
  method RememberTodoistState(tokens: KvNamespace, key: string, payload: TodoistStatePayload)
    modifies tokens
    ensures tokens.State() == RememberedTodoistState(old(tokens.State()), key, payload)
  {
    tokens.Put(TodoistKey(key), Encode(payload), Some(StateTtlSeconds));
  }

  /** `consumeTodoistState`: a stored value that does not parse is still deleted. */
  method ConsumeTodoistState(tokens: KvNamespace, key: string) returns (payload: Option<TodoistStatePayload>)
    modifies tokens
    ensures Consumed(tokens.State(), payload) == ConsumedTodoistState(old(tokens.State()), key)
  {
    var stored := tokens.Get(TodoistKey(key));
    if !Truthy(stored) {
      return None;
    }
    tokens.Delete(TodoistKey(key));
    payload := Decode(stored.value);
  }

  /** `storeToken`. */
  method StoreToken(tokens: KvNamespace, userId: string, token: string)
    modifies tokens
    ensures tokens.State() == StoredToken(old(tokens.State()), userId, token)
  {
    tokens.Put(TokenKey(userId), token, None);
  }

  /** `getToken`: whatever is stored, an empty string included. */
  method GetToken(tokens: KvNamespace, userId: string) returns (token: Option<string>)
    ensures token == TokenOf(tokens.State(), userId)
  {
    token := tokens.Get(TokenKey(userId));
  }

  /** `deleteToken`. */
  method DeleteToken(tokens: KvNamespace, userId: string)
    modifies tokens
    ensures tokens.State() == DeletedToken(old(tokens.State()), userId)
  {
    tokens.Delete(TokenKey(userId));
  }

  // ---------------------------------------------------------------------------
  // Correlation tokens: round trip, single use, misses

  lemma RemovedAfterWritten(s: KvState, key: string, value: string, ttl: Option<nat>)
    ensures Removed(Written(s, key, value, ttl), key) == Removed(s, key)
  {
    assert s.values[key := value] - {key} == s.values - {key};
    assert (if ttl.Some? then s.ttls[key := ttl.value] else s.ttls - {key}) - {key} == s.ttls - {key};
  }

  /** Storing a link state and consuming it returns the user id and removes the key,
      an earlier entry under it included; every other key is as before the store. An
      empty user id is never returned, and its entry stays until it expires. */
  lemma LinkStateRoundTrip(s: KvState, state: string, userId: string)
    ensures var c := ConsumedLinkState(StoredLinkState(s, state, userId), state);
      && (userId != "" ==> c.result == Some(userId) && c.store == Removed(s, LinkKey(state)))
      && (userId == "" ==> c.result == None && c.store == StoredLinkState(s, state, userId))
  {
    RemovedAfterWritten(s, LinkKey(state), userId, Some(StateTtlSeconds));
  }

  /** A successful consume deletes the link state, so consuming it again returns nothing
      and changes nothing. */
  lemma LinkStateSingleUse(s: KvState, state: string)
    ensures var c := ConsumedLinkState(s, state);
      c.result.Some? ==>
        && Lookup(c.store, LinkKey(state)) == None
        && ConsumedLinkState(c.store, state) == Consumed(c.store, None)
  {
  }

  /** Consuming an absent or empty entry returns nothing and leaves the store unchanged,
      for both kinds of correlation token. */
  lemma ConsumeMissChangesNothing(s: KvState, state: string)
    ensures !Truthy(Lookup(s, LinkKey(state))) ==> ConsumedLinkState(s, state) == Consumed(s, None)
    ensures !Truthy(Lookup(s, TodoistKey(state))) ==> ConsumedTodoistState(s, state) == Consumed(s, None)
  {
  }

  /** Remembering a provider state and consuming it returns the same record and removes
      the key, an earlier entry under it included; every other key is as before. */
  lemma TodoistStateRoundTrip(s: KvState, key: string, payload: TodoistStatePayload)
    ensures ConsumedTodoistState(RememberedTodoistState(s, key, payload), key)
      == Consumed(Removed(s, TodoistKey(key)), Some(payload))
  {
    DecodeEncode(payload);
    RemovedAfterWritten(s, TodoistKey(key), Encode(payload), Some(StateTtlSeconds));
  }

  /** A provider state is deleted as soon as a non-empty value is found, even when it then
      fails to parse: a second consume returns nothing. */
  lemma TodoistStateSingleUse(s: KvState, key: string)
    ensures var c := ConsumedTodoistState(s, key);
      Truthy(Lookup(s, TodoistKey(key))) ==>
        && Lookup(c.store, TodoistKey(key)) == None
        && ConsumedTodoistState(c.store, key) == Consumed(c.store, None)
    ensures var stored := Lookup(s, TodoistKey(key));
      Truthy(stored) && Decode(stored.value).None? ==>
        ConsumedTodoistState(s, key) == Consumed(Removed(s, TodoistKey(key)), None)
  {
  }

  // ---------------------------------------------------------------------------
  // Credential bindings

  /** A stored credential reads back, a later store overwrites it, a delete removes it. */
  lemma TokenBindingRoundTrip(s: KvState, userId: string, token: string, token': string)
    ensures TokenOf(StoredToken(s, userId, token), userId) == Some(token)
    ensures StoredToken(StoredToken(s, userId, token), userId, token') == StoredToken(s, userId, token')
    ensures TokenOf(DeletedToken(StoredToken(s, userId, token), userId), userId) == None
  {
    var k := TokenKey(userId);
    assert s.values[k := token][k := token'] == s.values[k := token'];
    assert s.ttls - {k} - {k} == s.ttls - {k};
  }

  // ---------------------------------------------------------------------------
  // Key families

  /** The three key families never share a key (none of `link:`, `todoist:`, `token:` is
      a prefix of another), and within a family the key determines its suffix. */
  lemma KeyFamiliesDisjoint(a: string, b: string)
    ensures LinkKey(a) != TodoistKey(b) && LinkKey(a) != TokenKey(b) && TodoistKey(a) != TokenKey(b)
    ensures LinkKey(a) == LinkKey(b) ==> a == b
    ensures TodoistKey(a) == TodoistKey(b) ==> a == b
    ensures TokenKey(a) == TokenKey(b) ==> a == b
  {
    assert LinkKey(a)[0] == 'l' && TodoistKey(b)[0] == 't' && TokenKey(b)[0] == 't';
    assert TodoistKey(a)[2] == 'd' && TokenKey(b)[2] == 'k';
    if LinkKey(a) == LinkKey(b) {
      assert a == LinkKey(a)[5..] && b == LinkKey(b)[5..];
    }
    if TodoistKey(a) == TodoistKey(b) {
      assert a == TodoistKey(a)[8..] && b == TodoistKey(b)[8..];
    }
    if TokenKey(a) == TokenKey(b) {
      assert a == TokenKey(a)[6..] && b == TokenKey(b)[6..];
    }
  }

  /** Each operation changes the one key it names and no other entry. */
  lemma EachOperationTouchesOneKey(s: KvState, state: string, key: string, userId: string,
                                   payload: TodoistStatePayload, token: string)
    ensures AgreeOutside(s, StoredLinkState(s, state, userId), LinkKey(state))
    ensures AgreeOutside(s, ConsumedLinkState(s, state).store, LinkKey(state))
    ensures AgreeOutside(s, RememberedTodoistState(s, key, payload), TodoistKey(key))
    ensures AgreeOutside(s, ConsumedTodoistState(s, key).store, TodoistKey(key))
    ensures AgreeOutside(s, StoredToken(s, userId, token), TokenKey(userId))
    ensures AgreeOutside(s, DeletedToken(s, userId), TokenKey(userId))
  {
  }

  /** Correlation-token operations never change a credential binding, and credential
      operations never change a correlation token. */
  lemma FamiliesAreIndependent(s: KvState, state: string, key: string, userId: string,
                               payload: TodoistStatePayload, u: string, token: string)
    ensures TokenOf(StoredLinkState(s, state, userId), u) == TokenOf(s, u)
    ensures TokenOf(ConsumedLinkState(s, state).store, u) == TokenOf(s, u)
    ensures TokenOf(RememberedTodoistState(s, key, payload), u) == TokenOf(s, u)
    ensures TokenOf(ConsumedTodoistState(s, key).store, u) == TokenOf(s, u)
    ensures Lookup(StoredToken(s, u, token), LinkKey(state)) == Lookup(s, LinkKey(state))
    ensures Lookup(StoredToken(s, u, token), TodoistKey(key)) == Lookup(s, TodoistKey(key))
    ensures Lookup(DeletedToken(s, u), LinkKey(state)) == Lookup(s, LinkKey(state))
    ensures Lookup(DeletedToken(s, u), TodoistKey(key)) == Lookup(s, TodoistKey(key))
    ensures Lookup(StoredLinkState(s, state, userId), TodoistKey(key)) == Lookup(s, TodoistKey(key))
    ensures Lookup(RememberedTodoistState(s, key, payload), LinkKey(state)) == Lookup(s, LinkKey(state))
  {
    KeyFamiliesDisjoint(state, u);
    KeyFamiliesDisjoint(key, u);
    KeyFamiliesDisjoint(state, key);
  }

  // ---------------------------------------------------------------------------
  // TTLs

  /** Correlation tokens carry the 600-second TTL, credential bindings none. */
  lemma WriteTtls(s: KvState, state: string, key: string, userId: string,
                  payload: TodoistStatePayload, token: string)
    ensures TtlOf(StoredLinkState(s, state, userId), LinkKey(state)) == Some(600)
    ensures TtlOf(RememberedTodoistState(s, key, payload), TodoistKey(key)) == Some(600)
    ensures TtlOf(StoredToken(s, userId, token), TokenKey(userId)) == None
  {
  }

  /** Expiry of any key never drops a credential binding just stored. */
  lemma TokenBindingsDoNotExpire(s: KvState, userId: string, token: string, k: string)
    ensures TokenOf(Expired(StoredToken(s, userId, token), k), userId) == Some(token)
  {
  }

  /** An expired link state reads like one never written: consuming it is rejected. */
  lemma ExpiredLinkStateIsRejected(s: KvState, state: string, userId: string)
    ensures ConsumedLinkState(Expired(StoredLinkState(s, state, userId), LinkKey(state)), state).result == None
  {
  }
}
