/** The provider's authorize URL as `buildTodoistAuthorizeUrl` builds it, and the form of
    the state string `generateState` produces, from src/oauth.ts. */
module AuthorizeUrl {
  import FormUrlencoded

  /** The configuration the authorize URL reads. */
  datatype Env = Env(todoistClientId: string, todoistRedirectUri: string)

  const AuthorizeEndpoint := "https://todoist.com/oauth/authorize?"
  /** The scope `data:read_write`. It is written as a concatenation so that the verifier
      does not unfold `Encode` over it as a literal, character by character. */
  const Scope := "data" + ":" + "read_write"

  function AuthorizeParams(env: Env, todoistState: string): seq<(string, string)> {
    [("client_id", env.todoistClientId), ("scope", Scope), ("state", todoistState),
     ("redirect_uri", env.todoistRedirectUri)]
  }

  /** `buildTodoistAuthorizeUrl`: the endpoint, then the query with `client_id`,
      `scope`, `state` and `redirect_uri` in that order, each value form-encoded. */
  function BuildTodoistAuthorizeUrl(env: Env, todoistState: string): (url: string)
    ensures |url| >= |AuthorizeEndpoint| && url[..|AuthorizeEndpoint|] == AuthorizeEndpoint
    ensures FormUrlencoded.Split(url[|AuthorizeEndpoint|..], '&') ==
      [ "client_id" + "=" + FormUrlencoded.Encode(env.todoistClientId),
        "scope" + "=" + "data%3Aread_write",
        "state" + "=" + FormUrlencoded.Encode(todoistState),
        "redirect_uri" + "=" + FormUrlencoded.Encode(env.todoistRedirectUri) ]
  {
    var query := FormUrlencoded.Serialize(AuthorizeParams(env, todoistState));
    var url := AuthorizeEndpoint + query;
    assert url[|AuthorizeEndpoint|..] == query;
    AuthorizeFields(env, todoistState);
    url
  }

  lemma AuthorizeFields(env: Env, todoistState: string)
    ensures FormUrlencoded.Split(FormUrlencoded.Serialize(AuthorizeParams(env, todoistState)), '&') ==
      [ "client_id" + "=" + FormUrlencoded.Encode(env.todoistClientId),
        "scope" + "=" + "data%3Aread_write",
        "state" + "=" + FormUrlencoded.Encode(todoistState),
        "redirect_uri" + "=" + FormUrlencoded.Encode(env.todoistRedirectUri) ]
  {
    FormUrlencoded.SplitSerializeFour(("client_id", env.todoistClientId), ("scope", Scope),
                                      ("state", todoistState), ("redirect_uri", env.todoistRedirectUri));
    ClientIdField(env.todoistClientId);
    ScopeField();
    StateField(todoistState);
    RedirectUriField(env.todoistRedirectUri);
  }

  /** Each field name is unreserved, so it goes out as written; the lemmas are kept
      apart so that each name literal is checked in a small context. */
  lemma ClientIdField(value: string)
    ensures FormUrlencoded.Field("client_id", value) == "client_id" + "=" + FormUrlencoded.Encode(value)
  {
    var name := "client_id";
    FormUrlencoded.UnreservedNameField(name, value);
  }

  lemma ScopeField()
    ensures FormUrlencoded.Field("scope", Scope) == "scope" + "=" + "data%3Aread_write"
  {
    var name := "scope";
    FormUrlencoded.UnreservedNameField(name, Scope);
    ScopeEncoding();
  }

  lemma StateField(value: string)
    ensures FormUrlencoded.Field("state", value) == "state" + "=" + FormUrlencoded.Encode(value)
  {
    var name := "state";
    FormUrlencoded.UnreservedNameField(name, value);
  }

  lemma RedirectUriField(value: string)
    ensures FormUrlencoded.Field("redirect_uri", value) == "redirect_uri" + "=" + FormUrlencoded.Encode(value)
  {
    var name := "redirect_uri";
    FormUrlencoded.UnreservedNameField(name, value);
  }

  /** The `:` of the scope is percent-encoded. */
  lemma ScopeEncoding()
    ensures FormUrlencoded.Encode(Scope) == "data%3Aread_write"
  {
    ScopeWords();
    FormUrlencoded.EncodeColon();
    assert "data" + "%3A" + "read_write" == "data%3Aread_write";
  }

  /** The scope is two unreserved words around a colon. */
  lemma ScopeWords()
    ensures FormUrlencoded.Encode(Scope) == "data" + FormUrlencoded.EncodeChar(':') + "read_write"
  {
    var resource, access := "data", "read_write";
    FormUrlencoded.EncodeAroundChar(resource, ':', access);
  }

  /** The string part of `generateState`: every `-` removed, every other character kept. */
  function StripHyphens(s: string): (r: string)
    ensures '-' !in r
    ensures forall c {:trigger multiset(r)[c]} :: c != '-' ==> multiset(r)[c] == multiset(s)[c]
  {
    if s == [] then ""
    else
      assert s == [s[0]] + s[1..];
      if s[0] == '-' then StripHyphens(s[1..]) else [s[0]] + StripHyphens(s[1..])
  }

  lemma {:induction false} StripHyphensAppend(a: string, b: string)
    ensures StripHyphens(a + b) == StripHyphens(a) + StripHyphens(b)
  {
    if a == [] {
      assert a + b == b;
    } else {
      var head := if a[0] == '-' then "" else [a[0]];
      assert (a + b)[0] == a[0];
      assert (a + b)[1..] == a[1..] + b;
      calc {
        StripHyphens(a + b);
        head + StripHyphens(a[1..] + b);
        { StripHyphensAppend(a[1..], b); }
        head + (StripHyphens(a[1..]) + StripHyphens(b));
        (head + StripHyphens(a[1..])) + StripHyphens(b);
      }
    }
  }

  predicate IsLowerHex(c: char) {
    ('0' <= c <= '9') || ('a' <= c <= 'f')
  }

  predicate IsHyphenPosition(i: int) {
    i == 8 || i == 13 || i == 18 || i == 23
  }

  /** The text form of a UUID: 8-4-4-4-12 lower-case hex digits joined by hyphens. */
  predicate IsUuidText(u: string) {
    && |u| == 36
    && forall i :: 0 <= i < 36 ==> if IsHyphenPosition(i) then u[i] == '-' else IsLowerHex(u[i])
  }

  /** How many of the first `k` positions of a UUID hold a hyphen. */
  function HyphensBefore(k: nat): nat {
    if k <= 8 then 0 else if k <= 13 then 1 else if k <= 18 then 2 else if k <= 23 then 3 else 4
  }

  lemma {:induction false} StripUuidPrefix(u: string, k: nat)
    requires IsUuidText(u) && k <= 36
    ensures |StripHyphens(u[..k])| == k - HyphensBefore(k)
    ensures forall i :: 0 <= i < |StripHyphens(u[..k])| ==> IsLowerHex(StripHyphens(u[..k])[i])
  {
    if k > 0 {
      StripUuidPrefix(u, k - 1);
      assert u[..k] == u[..k - 1] + [u[k - 1]];
      StripHyphensAppend(u[..k - 1], [u[k - 1]]);
      assert [u[k - 1]][1..] == [];
    }
  }

  /** For a UUID, the generated state is 32 lower-case hex digits, so it is URL-safe and
      appears in the authorize URL exactly as generated. */
  lemma GeneratedStateFromUuid(u: string)
    requires IsUuidText(u)
    ensures |StripHyphens(u)| == 32
    ensures forall i :: 0 <= i < 32 ==> IsLowerHex(StripHyphens(u)[i])
    ensures FormUrlencoded.Encode(StripHyphens(u)) == StripHyphens(u)
  {
    StripUuidPrefix(u, 36);
    assert u[..36] == u;
    FormUrlencoded.EncodeUnreserved(StripHyphens(u));
  }
}
