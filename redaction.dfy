/** The log-redaction helpers of src/index.ts: `sanitizePayload` over a parsed JSON body,
    `sanitizeHeaders` over a header list, and the string maskers they use
    (`maskSensitiveValue`, `maskToken`, `truncate`). */
module Redaction {
  import opened Optional
  import opened Text
  import Webhook

  /** A value produced by `JSON.parse`. Object members are kept in `Object.entries`
      order. Numbers are opaque here: `sanitizePayload` never looks inside a scalar. */
  datatype Json =
    | JNull
    | JBool(b: bool)
    | JNumber(n: real)
    | JString(s: string)
    | JArray(items: seq<Json>)
    | JObject(fields: seq<Member>)

  datatype Member = Member(key: string, value: Json)

  const RedactedMarker := "[REDACTED]"

  const SensitiveHeaderKeys: set<string> := {"authorization", "proxy-authorization"}

  const SensitiveBodyKeys: set<string> :=
    {"access_token", "refresh_token", "token", "authorization", "password", "secret"}

  predicate IsSensitiveBodyKey(key: string) {
    KeyLower(key) in SensitiveBodyKeys
  }

  predicate IsSensitiveHeaderKey(key: string) {
    KeyLower(key) in SensitiveHeaderKeys
  }

  // ---------------------------------------------------------------------------
  // sanitizePayload

  /** The tree `sanitizePayload` returns: every member under a sensitive key replaced
      by the marker, everything else rebuilt unchanged. */
  function Redacted(j: Json): Json
    decreases j, 1
  {
    match j
    case JArray(items) => JArray(seq(|items|, i requires 0 <= i < |items| => Redacted(items[i])))
    case JObject(fields) => JObject(seq(|fields|, i requires 0 <= i < |fields| => RedactedMember(fields[i])))
    case _ => j
  }

  function RedactedMember(f: Member): Member
    decreases f, 0
  {
    if IsSensitiveBodyKey(f.key) then Member(f.key, JString(RedactedMarker))
    else Member(f.key, Redacted(f.value))
  }

  /** No member under a sensitive key, at any depth, holds anything but the marker. */
  predicate Clean(j: Json)
    decreases j, 1
  {
    match j
    case JArray(items) => forall i :: 0 <= i < |items| ==> Clean(items[i])
    case JObject(fields) => forall i :: 0 <= i < |fields| ==> CleanMember(fields[i])
    case _ => true
  }

  predicate CleanMember(f: Member)
    decreases f, 0
  {
    if IsSensitiveBodyKey(f.key) then f.value == JString(RedactedMarker) else Clean(f.value)
  }

  /** `a` and `b` have the same shape (arrays of the same length, objects with the same
      keys in the same order) and the same scalars, except below sensitive keys. */
  predicate SameOutsideSensitive(a: Json, b: Json)
    decreases a, 1
  {
    match a
    case JArray(xs) =>
      b.JArray? && |b.items| == |xs| && forall i :: 0 <= i < |xs| ==> SameOutsideSensitive(xs[i], b.items[i])
    case JObject(fs) =>
      b.JObject? && |b.fields| == |fs| && forall i :: 0 <= i < |fs| ==> SameMemberOutsideSensitive(fs[i], b.fields[i])
    case _ => b == a
  }

  predicate SameMemberOutsideSensitive(f: Member, g: Member)
    decreases f, 0
  {
    f.key == g.key && (IsSensitiveBodyKey(f.key) || SameOutsideSensitive(f.value, g.value))
  }

  /** `sanitizePayload`: arrays are mapped element by element, objects are rebuilt
      member by member into a fresh result, scalars are returned as they are. */
  method SanitizePayload(payload: Json) returns (result: Json)
    ensures result == Redacted(payload)
    decreases payload
  {
    match payload {
      case JArray(items) =>
        var out: seq<Json> := [];
        for i := 0 to |items|
          invariant |out| == i
          invariant forall k :: 0 <= k < i ==> out[k] == Redacted(items[k])
        {
          var item := SanitizePayload(items[i]);
          out := out + [item];
        }
        result := JArray(out);
      case JObject(fields) =>
        var out: seq<Member> := [];
        for i := 0 to |fields|
          invariant |out| == i
          invariant forall k :: 0 <= k < i ==> out[k] == RedactedMember(fields[k])
        {
          var key := fields[i].key;
          if IsSensitiveBodyKey(key) {
            out := out + [Member(key, JString(RedactedMarker))];
          } else {
            var value := SanitizePayload(fields[i].value);
            out := out + [Member(key, value)];
          }
        }
        result := JObject(out);
      case _ =>
        result := payload;
    }
  }

  /** Every sensitive member of the sanitised tree holds the marker, at every depth. */
  lemma {:induction false} RedactedIsClean(j: Json)
    ensures Clean(Redacted(j))
    decreases j
  {
    match j
    case JArray(items) =>
      forall i | 0 <= i < |items|
        ensures Clean(Redacted(items[i]))
      {
        RedactedIsClean(items[i]);
      }
    case JObject(fields) =>
      forall i | 0 <= i < |fields|
        ensures CleanMember(RedactedMember(fields[i]))
      {
        if !IsSensitiveBodyKey(fields[i].key) {
          RedactedIsClean(fields[i].value);
        }
      }
    case _ =>
  }

  /** Sanitising keeps array lengths and order, object keys and their order, and every
      scalar outside a sensitive member. */
  lemma {:induction false} RedactedKeepsShape(j: Json)
    ensures SameOutsideSensitive(j, Redacted(j))
    decreases j
  {
    match j
    case JArray(items) =>
      forall i | 0 <= i < |items|
        ensures SameOutsideSensitive(items[i], Redacted(items[i]))
      {
        RedactedKeepsShape(items[i]);
      }
    case JObject(fields) =>
      forall i | 0 <= i < |fields|
        ensures SameMemberOutsideSensitive(fields[i], RedactedMember(fields[i]))
      {
        if !IsSensitiveBodyKey(fields[i].key) {
          RedactedKeepsShape(fields[i].value);
        }
      }
    case _ =>
  }

  /** The two lemmas above pin the result down: the sanitised tree is the only clean
      tree that agrees with the input outside sensitive members. */
  lemma {:induction false} RedactedIsUnique(j: Json, r: Json)
    requires SameOutsideSensitive(j, r) && Clean(r)
    ensures r == Redacted(j)
    decreases j
  {
    match j
    case JArray(items) =>
      forall i | 0 <= i < |items|
        ensures r.items[i] == Redacted(items[i])
      {
        RedactedIsUnique(items[i], r.items[i]);
      }
    case JObject(fields) =>
      forall i | 0 <= i < |fields|
        ensures r.fields[i] == RedactedMember(fields[i])
      {
        assert CleanMember(r.fields[i]);
        if !IsSensitiveBodyKey(fields[i].key) {
          RedactedIsUnique(fields[i].value, r.fields[i].value);
        }
      }
    case _ =>
  }

  lemma {:induction false} SameOutsideSensitiveReflexive(j: Json)
    ensures SameOutsideSensitive(j, j)
    decreases j
  {
    match j
    case JArray(items) =>
      forall i | 0 <= i < |items|
        ensures SameOutsideSensitive(items[i], items[i])
      {
        SameOutsideSensitiveReflexive(items[i]);
      }
    case JObject(fields) =>
      forall i | 0 <= i < |fields|
        ensures SameMemberOutsideSensitive(fields[i], fields[i])
      {
        SameOutsideSensitiveReflexive(fields[i].value);
      }
    case _ =>
  }

  /** A tree that is already clean is left exactly as it is. */
  lemma CleanIsFixpoint(j: Json)
    requires Clean(j)
    ensures Redacted(j) == j
  {
    SameOutsideSensitiveReflexive(j);
    RedactedIsUnique(j, j);
  }

  /** Sanitising twice is sanitising once. */
  lemma RedactedIdempotent(j: Json)
    ensures Redacted(Redacted(j)) == Redacted(j)
  {
    RedactedIsClean(j);
    CleanIsFixpoint(Redacted(j));
  }

  /** `w` is ASCII with no upper-case letter, as every sensitive word is. */
  predicate LowerWord(w: string) {
    forall i :: 0 <= i < |w| ==> w[i] as int < 0x80 && !('A' <= w[i] <= 'Z')
  }

  lemma SensitiveWordsAreLower()
    ensures forall w :: w in SensitiveBodyKeys ==> LowerWord(w)
    ensures forall w :: w in SensitiveHeaderKeys ==> LowerWord(w)
  {
  }

  /** For a key without the Kelvin sign, lowercasing it gives a lower-case word exactly
      when the key spells that word in some mix of cases. */
  lemma KeyLowerMatchesIgnoringCase(k: string, w: string)
    requires LowerWord(w) && '\U{212A}' !in k
    ensures KeyLower(k) == w <==> EqualsIgnoreAsciiCase(k, w)
  {
    if KeyLower(k) == w {
      forall i | 0 <= i < |k| ensures AsciiLower(k[i]) == AsciiLower(w[i]) {
        assert k[i] != '\U{212A}';
      }
    }
    if EqualsIgnoreAsciiCase(k, w) {
      SpellingIgnoringCase(k, w);
    }
  }

  /** Sensitive body keys are matched after lowercasing: every spelling of a sensitive
      word in any mix of cases is redacted, and (Kelvin sign aside) nothing else is. */
  lemma SensitiveKeysIgnoreCase(k: string)
    ensures (exists w :: w in SensitiveBodyKeys && EqualsIgnoreAsciiCase(k, w)) ==> IsSensitiveBodyKey(k)
    ensures '\U{212A}' !in k && IsSensitiveBodyKey(k) ==>
      exists w :: w in SensitiveBodyKeys && EqualsIgnoreAsciiCase(k, w)
  {
    SensitiveWordsAreLower();
    if w :| w in SensitiveBodyKeys && EqualsIgnoreAsciiCase(k, w) {
      SpellingIgnoringCase(k, w);
    }
    if '\U{212A}' !in k && IsSensitiveBodyKey(k) {
      KeyLowerMatchesIgnoringCase(k, KeyLower(k));
    }
  }

  /** Header names are matched the same way. */
  lemma SensitiveHeaderKeysIgnoreCase(k: string)
    ensures (exists w :: w in SensitiveHeaderKeys && EqualsIgnoreAsciiCase(k, w)) ==> IsSensitiveHeaderKey(k)
    ensures '\U{212A}' !in k && IsSensitiveHeaderKey(k) ==>
      exists w :: w in SensitiveHeaderKeys && EqualsIgnoreAsciiCase(k, w)
  {
    SensitiveWordsAreLower();
    if w :| w in SensitiveHeaderKeys && EqualsIgnoreAsciiCase(k, w) {
      SpellingIgnoringCase(k, w);
    }
    if '\U{212A}' !in k && IsSensitiveHeaderKey(k) {
      KeyLowerMatchesIgnoringCase(k, KeyLower(k));
    }
  }

  /** A spelling of a lower-case word in any mix of cases lowercases to that word. The
      Kelvin sign cannot occur in such a spelling: it equals no ASCII letter. */
  lemma SpellingIgnoringCase(k: string, w: string)
    requires LowerWord(w) && EqualsIgnoreAsciiCase(k, w)
    ensures KeyLower(k) == w
  {
    forall i | 0 <= i < |k| ensures KeyLower(k)[i] == w[i] {
      assert AsciiLower(w[i]) == w[i];
    }
  }

  // ---------------------------------------------------------------------------
  // maskToken, maskSensitiveValue, truncate

  /** The default `maxLength` of `truncate`, the only limit its callers use. */
  const DefaultMaxLength: nat := 1024

  /** `maskToken`: four stars for a short token, otherwise its first two and last two
      characters around an ellipsis. */
  function MaskToken(token: string): (r: string)
    ensures |token| <= 4 ==> r == "****"
    ensures |token| > 4 ==> |r| == 7 && r[..2] == token[..2] && r[2..5] == "..." && r[5..] == token[|token| - 2..]
  {
    if |token| <= 4 then "****" else token[..2] + "..." + token[|token| - 2..]
  }

  /** `t1` and `t2` are both short, or both long with the same first two and last two
      characters. */
  predicate SameEnds(t1: string, t2: string) {
    || (|t1| <= 4 && |t2| <= 4)
    || (|t1| > 4 && |t2| > 4 && t1[..2] == t2[..2] && t1[|t1| - 2..] == t2[|t2| - 2..])
  }

  /** What a masked token shows depends only on the first two and last two characters
      of the token (and on whether it is longer than four): the middle never leaks. */
  lemma MaskTokenHidesMiddle(t1: string, t2: string)
    requires SameEnds(t1, t2)
    ensures MaskToken(t1) == MaskToken(t2)
  {
  }

  /** `s` matches `/^([A-Za-z]+)\s+(.+)$/` with groups `s[..i]` and `s[j..]`. */
  ghost predicate SchemeSplitAt(s: string, i: int, j: int) {
    && 0 < i < j < |s|
    && AllLetters(s[..i])
    && AllSpace(s[i..j])
    && NoLineTerminator(s[j..])
  }

  /** The scheme match of `maskSensitiveValue`, as the positions where the two groups
      start and end: the match exists exactly when some split does, and the regular
      expression's backtracking picks the one with the longest whitespace run. */
  function SchemeMatch(s: string): (r: Option<(nat, nat)>)
    ensures r.Some? ==> SchemeSplitAt(s, r.value.0, r.value.1)
    ensures r.Some? ==> forall i, j {:trigger SchemeSplitAt(s, i, j)} ::
      SchemeSplitAt(s, i, j) ==> i == r.value.0 && j <= r.value.1
    ensures r.None? ==> forall i, j {:trigger SchemeSplitAt(s, i, j)} :: !SchemeSplitAt(s, i, j)
  {
    var a := LeadingLetterCount(s);
    var rest := s[a..];
    var run := LeadingSpaceCount(rest);
    // `\s+` gives one character back to `.+` when the run reaches the end
    var w := if run == |rest| then run - 1 else run;
    assert forall i, j {:trigger SchemeSplitAt(s, i, j)} ::
      SchemeSplitAt(s, i, j) ==> i == a && j - i <= w && NoLineTerminator(rest[w..]) by {
      forall i, j | SchemeSplitAt(s, i, j) {
        SchemeSplitBound(s, i, j);
      }
    }
    if a == 0 || w <= 0 || !NoLineTerminator(rest[w..]) then None
    else
      assert s[a..a + w] == rest[..w];
      assert AllSpace(rest[..w]) by {
        forall k | 0 <= k < w ensures IsSpace(rest[..w][k]) {
          assert rest[..w][k] == rest[..run][k];
        }
      }
      assert s[a + w..] == rest[w..];
      Some((a, a + w))
  }

  lemma SchemeSplitBound(s: string, i: int, j: int)
    requires SchemeSplitAt(s, i, j)
    ensures var a := LeadingLetterCount(s);
      var rest := s[a..];
      var run := LeadingSpaceCount(rest);
      var w := if run == |rest| then run - 1 else run;
      i == a && j - i <= w && NoLineTerminator(rest[w..])
  {
    var a := LeadingLetterCount(s);
    assert IsSpace(s[i..j][0]);
    assert i == a;
    var rest := s[a..];
    var run := LeadingSpaceCount(rest);
    assert rest[..j - i] == s[i..j];
    var w := if run == |rest| then run - 1 else run;
    assert rest[w..] == s[a + w..];
  }

  /** `maskSensitiveValue`: the trimmed value with a leading alphabetic scheme word kept
      and the rest masked, or the whole trimmed value masked, or `""` for a blank value.
      The result never grows with the credential: it is at most the scheme plus eight
      characters. */
  function MaskSensitiveValue(value: string): (r: string)
    ensures r == "" <==> AllSpace(value)
    ensures |r| <= LeadingLetterCount(Trim(value)) + 8
    ensures var tr := Trim(value);
      tr != "" && SchemeMatch(tr).Some? ==>
        r == tr[..SchemeMatch(tr).value.0] + " " + MaskToken(tr[SchemeMatch(tr).value.1..])
    ensures var tr := Trim(value); tr != "" && SchemeMatch(tr).None? ==> r == MaskToken(tr)
  {
    var trimmed := Trim(value);
    if trimmed == "" then trimmed
    else
      match SchemeMatch(trimmed)
      case Some((i, j)) => trimmed[..i] + " " + MaskToken(trimmed[j..])
      case None => MaskToken(trimmed)
  }

  /** The same for whole header values: two values with the same scheme word whose
      credentials have the same ends are logged alike, and so are two values without a
      scheme word whose trimmed texts have the same ends. */
  lemma MaskedValueHidesMiddle(v1: string, v2: string)
    requires Trim(v1) != "" && Trim(v2) != ""
    requires
      || (&& SchemeMatch(Trim(v1)).Some? && SchemeMatch(Trim(v2)).Some?
          && SchemeMatch(Trim(v1)).value.0 == SchemeMatch(Trim(v2)).value.0
          && Trim(v1)[..SchemeMatch(Trim(v1)).value.0] == Trim(v2)[..SchemeMatch(Trim(v2)).value.0]
          && SameEnds(Trim(v1)[SchemeMatch(Trim(v1)).value.1..], Trim(v2)[SchemeMatch(Trim(v2)).value.1..]))
      || (SchemeMatch(Trim(v1)).None? && SchemeMatch(Trim(v2)).None? && SameEnds(Trim(v1), Trim(v2)))
    ensures MaskSensitiveValue(v1) == MaskSensitiveValue(v2)
  {
    var tr1, tr2 := Trim(v1), Trim(v2);
    if SchemeMatch(tr1).Some? && SchemeMatch(tr2).Some? {
      MaskTokenHidesMiddle(tr1[SchemeMatch(tr1).value.1..], tr2[SchemeMatch(tr2).value.1..]);
    } else {
      MaskTokenHidesMiddle(tr1, tr2);
    }
  }

  /** An `Authorization: Bearer <t>` header that the request handler accepts is logged as
      its scheme word and the masked token, never the token itself. */
  lemma LoggedBearerIsMasked(h: string, t: string)
    requires Webhook.IsBearerHeader(h, t)
    ensures MaskSensitiveValue(h) == h[..6] + " " + MaskToken(t)
  {
    BearerHeaderIsTrimmed(h, t);
    BearerSchemeMatch(h, t);
    assert h[|h| - |t|..] == t;
  }

  /** An accepted bearer header neither starts nor ends with whitespace. */
  lemma BearerHeaderIsTrimmed(h: string, t: string)
    requires Webhook.IsBearerHeader(h, t)
    ensures Trim(h) == h
  {
    assert !IsSpace(h[0]) by {
      assert AsciiLower(h[..6][0]) == AsciiLower("Bearer"[0]);
      assert h[..6][0] == h[0];
    }
    assert !IsSpace(h[|h| - 1]) by {
      assert h[|h| - |t|..][|t| - 1] == h[|h| - 1];
    }
    TrimKeepsTrimmed(h);
  }

  /** The scheme regular expression splits an accepted bearer header exactly at the
      scheme word and the token. */
  lemma BearerSchemeMatch(h: string, t: string)
    requires Webhook.IsBearerHeader(h, t)
    ensures SchemeMatch(h) == Some((6, |h| - |t|))
  {
    assert AllLetters(h[..6]) by {
      forall k | 0 <= k < 6 ensures IsAsciiLetter(h[..6][k]) {
        assert AsciiLower(h[..6][k]) == AsciiLower("Bearer"[k]);
      }
    }
    assert h[|h| - |t|..] == t;
    assert SchemeSplitAt(h, 6, |h| - |t|);
    var r := SchemeMatch(h);
    assert r.Some? && r.value.0 == 6;
    var j := r.value.1;
    assert forall k :: 6 <= k < j ==> IsSpace(h[k]) by {
      forall k | 6 <= k < j ensures IsSpace(h[k]) {
        assert h[6..j][k - 6] == h[k];
      }
    }
    assert !IsSpace(h[|h| - |t|]) by {
      assert h[|h| - |t|] == t[0];
    }
  }

  /** `truncate`: a value within the limit is kept; a longer one is cut to the limit and
      marked with an ellipsis character. */
  function Truncate(value: string, maxLength: nat): (r: string)
    ensures |value| <= maxLength ==> r == value
    ensures |value| > maxLength ==>
      |r| == maxLength + 1 && r[..maxLength] == value[..maxLength] && r[maxLength] == '…'
  {
    if |value| <= maxLength then value else value[..maxLength] + "…"
  }

  /** Every call site uses the default limit of 1024: a logged value is at most 1025
      characters, and a value within the limit is logged whole. */
  lemma LoggedValueBound(value: string)
    ensures |Truncate(value, DefaultMaxLength)| <= DefaultMaxLength + 1
    ensures |value| <= DefaultMaxLength ==> Truncate(value, DefaultMaxLength) == value
  {
  }

  /** Truncating a truncated value changes nothing. */
  lemma TruncateIdempotent(value: string, maxLength: nat)
    ensures Truncate(Truncate(value, maxLength), maxLength) == Truncate(value, maxLength)
  {
    if |value| > maxLength {
      var once := Truncate(value, maxLength);
      assert once[..maxLength] + "…" == once;
    }
  }

  // ---------------------------------------------------------------------------
  // sanitizeHeaders

  datatype Header = Header(name: string, value: string)

  /** The value `sanitizeHeaders` records for one header. */
  function SanitizedHeaderValue(h: Header): string {
    if IsSensitiveHeaderKey(h.name) then MaskSensitiveValue(h.value) else h.value
  }

  /** No header after `headers[i]` and before position `n` has the same name. */
  predicate LastWithNameBefore(headers: seq<Header>, i: int, n: int)
    requires 0 <= i < |headers| && n <= |headers|
  {
    forall j :: i < j < n ==> headers[j].name != headers[i].name
  }

  /** The names of the first `n` headers. */
  function NamesBefore(headers: seq<Header>, n: int): set<string>
    requires 0 <= n <= |headers|
  {
    set i | 0 <= i < n :: headers[i].name
  }

  /** `sanitizeHeaders`: a record with one entry per header name, where a repeated name
      holds its last value, sensitive headers masked and the others copied. */
  method SanitizeHeaders(headers: seq<Header>) returns (sanitized: map<string, string>)
    ensures sanitized.Keys == NamesBefore(headers, |headers|)
    ensures forall i :: 0 <= i < |headers| && LastWithNameBefore(headers, i, |headers|) ==>
      sanitized[headers[i].name] == SanitizedHeaderValue(headers[i])
  {
    sanitized := map[];
    for n := 0 to |headers|
      invariant sanitized.Keys == NamesBefore(headers, n)
      invariant forall i :: 0 <= i < n && LastWithNameBefore(headers, i, n) ==>
        sanitized[headers[i].name] == SanitizedHeaderValue(headers[i])
    {
      ghost var before := sanitized;
      var h := headers[n];
      if IsSensitiveHeaderKey(h.name) {
        sanitized := sanitized[h.name := MaskSensitiveValue(h.value)];
      } else {
        sanitized := sanitized[h.name := h.value];
      }
      SanitizeHeadersStep(headers, n, before, sanitized);
    }
  }

  /** One header more: its name joins the keys and takes its value; every earlier header
      that is still the last with its name keeps its entry. */
  lemma SanitizeHeadersStep(headers: seq<Header>, n: int, before: map<string, string>, after: map<string, string>)
    requires 0 <= n < |headers|
    requires before.Keys == NamesBefore(headers, n)
    requires forall i :: 0 <= i < n && LastWithNameBefore(headers, i, n) ==>
      before[headers[i].name] == SanitizedHeaderValue(headers[i])
    requires after == before[headers[n].name := SanitizedHeaderValue(headers[n])]
    ensures after.Keys == NamesBefore(headers, n + 1)
    ensures forall i :: 0 <= i < n + 1 && LastWithNameBefore(headers, i, n + 1) ==>
      after[headers[i].name] == SanitizedHeaderValue(headers[i])
  {
    assert NamesBefore(headers, n + 1) == NamesBefore(headers, n) + {headers[n].name};
    forall i | 0 <= i < n + 1 && LastWithNameBefore(headers, i, n + 1)
      ensures after[headers[i].name] == SanitizedHeaderValue(headers[i])
    {
      if i < n {
        assert headers[n].name != headers[i].name;
        assert LastWithNameBefore(headers, i, n);
      }
    }
  }
}
