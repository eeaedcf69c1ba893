/** The provider-state record `{ userId }` as `rememberTodoistState` stores it: the text
    `JSON.stringify` produces for it, and the part of `JSON.parse` that reads it back.
    Decoding accepts exactly `{"userId":"<JSON string characters>"}`; other JSON texts
    read as unparseable here. */
module StatePayload {
  import opened Optional

  datatype TodoistStatePayload = TodoistStatePayload(userId: string)

  const Prefix := "{\"userId\":\""
  const Suffix := "\"}"

  function LowerHexDigit(n: nat): (c: char)
    requires n < 16
    ensures HexValue(c) == Some(n)
  {
    if n < 10 then ('0' as int + n) as char else ('a' as int + n - 10) as char
  }

  /** The value of a hexadecimal digit of either case. */
  function HexValue(c: char): (r: Option<nat>)
    ensures r.Some? ==> r.value < 16
  {
    if '0' <= c <= '9' then Some(c as int - '0' as int)
    else if 'a' <= c <= 'f' then Some(c as int - 'a' as int + 10)
    else if 'A' <= c <= 'F' then Some(c as int - 'A' as int + 10)
    else None
  }

  /** How `JSON.stringify` writes one character inside a string literal. */
  function EscapeChar(c: char): string {
    if c == '"' then "\\\""
    else if c == '\\' then "\\\\"
    else if c == '\U{0008}' then "\\b"
    else if c == '\t' then "\\t"
    else if c == '\n' then "\\n"
    else if c == '\U{000C}' then "\\f"
    else if c == '\r' then "\\r"
    else if c < ' ' then "\\u00" + [LowerHexDigit(c as int / 16), LowerHexDigit(c as int % 16)]
    else [c]
  }

  function Escape(s: string): string {
    if s == [] then "" else EscapeChar(s[0]) + Escape(s[1..])
  }

  /** `JSON.stringify({ userId })`. */
  function Encode(p: TodoistStatePayload): (text: string)
    ensures |text| >= |Prefix| + |Suffix| && text[..|Prefix|] == Prefix
  {
    Prefix + Escape(p.userId) + Suffix
  }

  function Cons(c: char, r: Option<string>): Option<string> {
    match r
    case Some(t) => Some([c] + t)
    case None => None
  }

  /** The value of four hexadecimal digits, if they are four. */
  function Hex4(s: string): (r: Option<nat>)
    requires |s| == 4
    ensures r.Some? ==> r.value < 0x10000
  {
    match (HexValue(s[0]), HexValue(s[1]), HexValue(s[2]), HexValue(s[3]))
    case (Some(a), Some(b), Some(c), Some(d)) => Some(((a * 16 + b) * 16 + c) * 16 + d)
    case _ => None
  }

  /** The characters of a JSON string literal between its quotes, unescaped; None when
      they are not valid there (a raw quote or control character, a bad escape). A
      `\u` escape of a surrogate half is refused: strings here hold only scalar values. */
  function Unescape(s: string): Option<string>
    decreases |s|
  {
    if s == [] then Some("")
    else if s[0] == '"' || s[0] < ' ' then None
    else if s[0] != '\\' then Cons(s[0], Unescape(s[1..]))
    else if |s| < 2 then None
    else
      var e := s[1];
      if e == '"' || e == '\\' || e == '/' then Cons(e, Unescape(s[2..]))
      else if e == 'b' then Cons('\U{0008}', Unescape(s[2..]))
      else if e == 't' then Cons('\t', Unescape(s[2..]))
      else if e == 'n' then Cons('\n', Unescape(s[2..]))
      else if e == 'f' then Cons('\U{000C}', Unescape(s[2..]))
      else if e == 'r' then Cons('\r', Unescape(s[2..]))
      else if e == 'u' && |s| >= 6 then
        match Hex4(s[2..6])
        case Some(n) =>
          if 0xD800 <= n < 0xE000 then None else Cons(n as char, Unescape(s[6..]))
        case None => None
      else None
  }

  /** `JSON.parse(stored)` read as a `{ userId }` record; None stands for a throw. */
  function Decode(text: string): (r: Option<TodoistStatePayload>)
    ensures r.Some? ==>
      && |text| >= |Prefix| + |Suffix| && text[..|Prefix|] == Prefix && text[|text| - |Suffix|..] == Suffix
      && Unescape(text[|Prefix|..|text| - |Suffix|]) == Some(r.value.userId)
    ensures |text| < |Prefix| + |Suffix| ==> r.None?
  {
    if |text| >= |Prefix| + |Suffix| && text[..|Prefix|] == Prefix && text[|text| - |Suffix|..] == Suffix then
      match Unescape(text[|Prefix|..|text| - |Suffix|])
      case Some(u) => Some(TodoistStatePayload(u))
      case None => None
    else None
  }

  /** Unescaping an escaped character in front of a rest reads that character back and
      continues with the rest. */
  lemma UnescapeEscapeChar(c: char, rest: string)
    ensures Unescape(EscapeChar(c) + rest) == Cons(c, Unescape(rest))
  {
    var e := EscapeChar(c);
    var s := e + rest;
    if c == '"' || c == '\\' || c == '\U{0008}' || c == '\t' || c == '\n' || c == '\U{000C}' || c == '\r' {
      assert s[2..] == rest;
    } else if c < ' ' {
      UnescapeControlChar(c, rest);
    } else {
      assert s[1..] == rest;
    }
  }

  /** A control character without a short escape is written `\u00XX` and read back. */
  lemma UnescapeControlChar(c: char, rest: string)
    requires c < ' ' && c != '\U{0008}' && c != '\t' && c != '\n' && c != '\U{000C}' && c != '\r'
    ensures Unescape(EscapeChar(c) + rest) == Cons(c, Unescape(rest))
  {
    var s := EscapeChar(c) + rest;
    var hi, lo := c as int / 16, c as int % 16;
    assert s[2..6] == ['0', '0', LowerHexDigit(hi), LowerHexDigit(lo)];
    assert Hex4(s[2..6]) == Some(c as int);
    assert s[6..] == rest;
  }

  lemma {:induction false} UnescapeEscape(u: string)
    ensures Unescape(Escape(u)) == Some(u)
  {
    if u != [] {
      UnescapeEscape(u[1..]);
      UnescapeEscapeChar(u[0], Escape(u[1..]));
      assert [u[0]] + u[1..] == u;
    }
  }

  /** Parsing what was stringified gives back the same record. */
  lemma DecodeEncode(p: TodoistStatePayload)
    ensures Decode(Encode(p)) == Some(p)
  {
    var text := Encode(p);
    assert text[|text| - |Suffix|..] == Suffix;
    assert text[|Prefix|..|text| - |Suffix|] == Escape(p.userId);
    UnescapeEscape(p.userId);
  }

  /** Different records are stored as different texts. */
  lemma EncodeInjective(p: TodoistStatePayload, q: TodoistStatePayload)
    requires Encode(p) == Encode(q)
    ensures p == q
  {
    DecodeEncode(p);
    DecodeEncode(q);
  }
}
