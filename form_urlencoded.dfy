/** The application/x-www-form-urlencoded serializer of the WHATWG URL Standard, as
    `URLSearchParams.toString` applies it: each name and value is UTF-8 encoded, space
    becomes `+`, ASCII alphanumerics and `*-._` stay, every other byte becomes `%XX`
    with upper-case hex; pairs are joined as `name=value` with `&`. */
module FormUrlencoded {

  type Byte = b: nat | b < 256

  /** The bytes the serializer leaves as they are. */
  predicate IsUnreservedByte(b: nat) {
    || (0x30 <= b <= 0x39) || (0x41 <= b <= 0x5A) || (0x61 <= b <= 0x7A)
    || b == 0x2A || b == 0x2D || b == 0x2E || b == 0x5F
  }

  /** The characters an encoded component can contain. */
  predicate IsEncodedChar(c: char) {
    IsUnreservedByte(c as int) || c == '+' || c == '%'
  }

  predicate AllEncodedChars(s: string) {
    forall i :: 0 <= i < |s| ==> IsEncodedChar(s[i])
  }

  /** UTF-8 encoding of one scalar value outside ASCII. */
  function Utf8(c: char): (bytes: seq<Byte>)
    requires c as int >= 0x80
    ensures 2 <= |bytes| <= 4
  {
    var n := c as int;
    if n < 0x800 then [0xC0 + n / 64, 0x80 + n % 64]
    else if n < 0x10000 then [0xE0 + n / 4096, 0x80 + (n / 64) % 64, 0x80 + n % 64]
    else [0xF0 + n / 262144, 0x80 + (n / 4096) % 64, 0x80 + (n / 64) % 64, 0x80 + n % 64]
  }

  function UpperHexDigit(n: nat): char
    requires n < 16
  {
    if n < 10 then ('0' as int + n) as char else ('A' as int + n - 10) as char
  }

  function EncodeByte(b: Byte): (r: string)
    ensures 1 <= |r| <= 3
  {
    if b == 0x20 then "+"
    else if IsUnreservedByte(b) then [b as char]
    else "%" + [UpperHexDigit(b / 16), UpperHexDigit(b % 16)]
  }

  function EncodeBytes(bytes: seq<Byte>): (r: string)
    ensures |r| >= |bytes|
  {
    if bytes == [] then "" else EncodeByte(bytes[0]) + EncodeBytes(bytes[1..])
  }

  /** One character: its UTF-8 bytes, encoded; an ASCII character is its own byte. */
  function EncodeChar(c: char): (r: string)
    ensures |r| >= 1
  {
    if c as int < 0x80 then EncodeByte(c as int) else EncodeBytes(Utf8(c))
  }

  /** The encoding of a name or a value: never shorter than the text, and empty only
      for the empty text. */
  function Encode(s: string): (r: string)
    ensures |r| >= |s| && (r == "" <==> s == "")
  {
    if s == [] then "" else EncodeChar(s[0]) + Encode(s[1..])
  }

  lemma EncodeByteIsEncoded(b: Byte)
    ensures AllEncodedChars(EncodeByte(b))
  {
  }

  lemma {:induction false} EncodeBytesIsEncoded(bytes: seq<Byte>)
    ensures AllEncodedChars(EncodeBytes(bytes))
  {
    if bytes != [] {
      EncodeByteIsEncoded(bytes[0]);
      EncodeBytesIsEncoded(bytes[1..]);
    }
  }

  /** An encoded name or value holds only unreserved characters, `+` and `%`: never
      `&` or `=`. */
  lemma {:induction false} EncodeIsEncoded(s: string)
    ensures AllEncodedChars(Encode(s))
  {
    if s != [] {
      if s[0] as int < 0x80 {
        EncodeByteIsEncoded(s[0] as int);
      } else {
        EncodeBytesIsEncoded(Utf8(s[0]));
      }
      EncodeIsEncoded(s[1..]);
    }
  }

  /** A string of unreserved ASCII characters is its own encoding. */
  lemma {:induction false} EncodeUnreserved(s: string)
    requires forall i :: 0 <= i < |s| ==> IsUnreservedByte(s[i] as int)
    ensures Encode(s) == s
  {
    if s != [] {
      EncodeUnreserved(s[1..]);
      assert EncodeChar(s[0]) == [s[0]];
      assert [s[0]] + s[1..] == s;
    }
  }

  /** Encoding works character by character, so it distributes over concatenation. */
  lemma {:induction false} EncodeAppend(a: string, b: string)
    ensures Encode(a + b) == Encode(a) + Encode(b)
  {
    if a == [] {
      assert a + b == b;
    } else {
      var head := EncodeChar(a[0]);
      assert (a + b)[0] == a[0];
      assert (a + b)[1..] == a[1..] + b;
      calc {
        Encode(a + b);
        head + Encode(a[1..] + b);
        { EncodeAppend(a[1..], b); }
        head + (Encode(a[1..]) + Encode(b));
        (head + Encode(a[1..])) + Encode(b);
      }
    }
  }

  /** A `:` is not unreserved: it is written `%3A`. */
  lemma EncodeColon()
    ensures EncodeChar(':') == "%3A"
  {
  }

  /** Between two unreserved words only the character joining them is rewritten. */
  lemma EncodeAroundChar(a: string, c: char, b: string)
    requires forall i :: 0 <= i < |a| ==> IsUnreservedByte(a[i] as int)
    requires forall i :: 0 <= i < |b| ==> IsUnreservedByte(b[i] as int)
    ensures Encode(a + [c] + b) == a + EncodeChar(c) + b
  {
    EncodeAround(a, c, b);
    EncodeUnreserved(a);
    EncodeUnreserved(b);
  }

  lemma EncodeAround(a: string, c: char, b: string)
    ensures Encode(a + [c] + b) == Encode(a) + EncodeChar(c) + Encode(b)
  {
    assert a + [c] + b == a + ([c] + b);
    EncodeAppend(a, [c] + b);
    EncodeCons(c, b);
  }

  lemma EncodeCons(c: char, b: string)
    ensures Encode([c] + b) == EncodeChar(c) + Encode(b)
  {
    assert ([c] + b)[1..] == b;
  }

  /** `name=value`, both encoded. */
  function Field(name: string, value: string): string {
    Encode(name) + "=" + Encode(value)
  }

  /** A field whose name is unreserved starts with the name as it is. */
  lemma UnreservedNameField(name: string, value: string)
    requires forall i :: 0 <= i < |name| ==> IsUnreservedByte(name[i] as int)
    ensures Field(name, value) == name + "=" + Encode(value)
  {
    EncodeUnreserved(name);
  }

  /** `URLSearchParams.toString` over the pairs, in their order. */
  function Serialize(pairs: seq<(string, string)>): (r: string)
    ensures r == "" <==> pairs == []
  {
    if pairs == [] then ""
    else if |pairs| == 1 then Field(pairs[0].0, pairs[0].1)
    else Field(pairs[0].0, pairs[0].1) + "&" + Serialize(pairs[1..])
  }

  /** `s` cut at every `sep`, as `String.prototype.split` with a one-character separator. */
  function Split(s: string, sep: char): (r: seq<string>)
    ensures |r| >= 1
  {
    if s == [] then [""]
    else
      var rest := Split(s[1..], sep);
      if s[0] == sep then [""] + rest else [[s[0]] + rest[0]] + rest[1..]
  }

  lemma {:induction false} SplitWithout(a: string, sep: char)
    requires sep !in a
    ensures Split(a, sep) == [a]
  {
    if a != [] {
      SplitWithout(a[1..], sep);
      assert [a[0]] + a[1..] == a;
    }
  }

  lemma {:induction false} SplitAt(a: string, sep: char, b: string)
    requires sep !in a
    ensures Split(a + [sep] + b, sep) == [a] + Split(b, sep)
  {
    if a == [] {
      assert a + [sep] + b == [sep] + b;
      assert ([sep] + b)[1..] == b;
    } else {
      SplitAt(a[1..], sep, b);
      assert (a + [sep] + b)[1..] == a[1..] + [sep] + b;
      assert [a[0]] + a[1..] == a;
    }
  }

  lemma FieldHasNoAmpersand(name: string, value: string)
    ensures '&' !in Field(name, value)
  {
    var f := Field(name, value);
    var en, ev := Encode(name), Encode(value);
    EncodeIsEncoded(name);
    EncodeIsEncoded(value);
    assert f == en + "=" + ev;
    forall i | 0 <= i < |f| ensures f[i] != '&' {
      if i < |en| {
        assert f[i] == en[i];
      } else if i > |en| {
        assert f[i] == ev[i - |en| - 1];
      }
    }
  }

  /** The `name=value` field of each pair, in order. */
  function Fields(pairs: seq<(string, string)>): (r: seq<string>)
    ensures |r| == |pairs|
  {
    if pairs == [] then [] else [Field(pairs[0].0, pairs[0].1)] + Fields(pairs[1..])
  }

  /** Splitting a serialized query at `&` gives back one `name=value` field per pair,
      in order: no encoded name or value can contain the separator. */
  lemma {:induction false} SplitSerialize(pairs: seq<(string, string)>)
    requires |pairs| > 0
    ensures Split(Serialize(pairs), '&') == Fields(pairs)
  {
    var f, rest := Field(pairs[0].0, pairs[0].1), pairs[1..];
    FieldHasNoAmpersand(pairs[0].0, pairs[0].1);
    if |pairs| == 1 {
      SplitWithout(f, '&');
    } else {
      SplitSerialize(rest);
      assert Serialize(pairs) == f + ['&'] + Serialize(rest);
      SplitAt(f, '&', Serialize(rest));
    }
  }

  /** The same for a query of four pairs, field by field. */
  lemma SplitSerializeFour(p0: (string, string), p1: (string, string), p2: (string, string), p3: (string, string))
    ensures Split(Serialize([p0, p1, p2, p3]), '&')
      == [Field(p0.0, p0.1), Field(p1.0, p1.1), Field(p2.0, p2.1), Field(p3.0, p3.1)]
  {
    var ps := [p0, p1, p2, p3];
    SplitSerialize(ps);
    assert Fields([p3]) == [Field(p3.0, p3.1)] by { assert [p3][1..] == []; }
    assert Fields([p2, p3]) == [Field(p2.0, p2.1)] + Fields([p3]) by { assert [p2, p3][1..] == [p3]; }
    assert Fields([p1, p2, p3]) == [Field(p1.0, p1.1)] + Fields([p2, p3]) by { assert [p1, p2, p3][1..] == [p2, p3]; }
    assert Fields(ps) == [Field(p0.0, p0.1)] + Fields([p1, p2, p3]) by { assert ps[1..] == [p1, p2, p3]; }
  }
}
