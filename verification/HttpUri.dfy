/** URI coding of http.c. */
module HttpUri {
  import opened Basics
  import opened EvBuffer
  import H = HttpChunked

  const PERCENT: Byte := 37
  const PLUS: Byte := 43
  const QUESTION: Byte := 63

  /** The table uri_chars: characters that need no coding. */
  predicate UriChar(c: Byte) {
    || c == 33 || c == 36 || 39 <= c <= 58 || c == 61 || 64 <= c <= 90 || c == 95 || 97 <= c <= 122 || c == 126
  }

  /** printf with %X of one digit */
  function UpperDigit(d: nat): Byte
    requires d < 16
  {
    if d < 10 then 48 + d else 55 + d
  }

  lemma {:induction false} UpperIs(d: nat)
    requires d < 16
    ensures UpperDigit(d) == "0123456789ABCDEF"[d] as int
  {
  }

  function EncodeChar(c: Byte): seq<Byte> {
    if UriChar(c) then [c] else [PERCENT, UpperDigit(c / 16), UpperDigit(c % 16)]
  }

  /** Letters, digits, and the marks of the table; every other byte is coded by its value in upper-case base 16. */
  lemma {:induction false} EncodeCharIs(c: Byte)
    ensures var letter, digit := 'A' as int <= c <= 'Z' as int
      || 'a' as int <= c <= 'z' as int, '0' as int <= c <= '9' as int;
      var mark := c in {'!' as int, '$' as int, '\'' as int, '(' as int, ')' as int, '*' as int, '+' as int, ',' as int,
        '-' as int, '.' as int, '/' as int, ':' as int, '=' as int, '@' as int, '_' as int, '~' as int};
      EncodeChar(c) == if letter || digit || mark then [c]
        else ['%' as int, "0123456789ABCDEF"[c / 16] as int, "0123456789ABCDEF"[c % 16] as int]
  {
    UpperIs(c / 16);
    UpperIs(c % 16);
  }

  /** evhttp_encode_uri */
  function Encode(uri: seq<Byte>): seq<Byte> {
    if uri == [] then [] else EncodeChar(uri[0]) + Encode(uri[1..])
  }

  /**
    The next character, how many were read for it, and whether the query has begun; there a plus stands for a
    space.
   */
  function Next(s: seq<Byte>, inQuery: bool): (r: (Byte, nat, bool))
    requires s != []
    ensures 1 <= r.1 <= |s|
  {
    if s[0] == QUESTION then (QUESTION, 1, true)
    else if s[0] == PLUS && inQuery then (H.SPACE, 1, inQuery)
    else if s[0] == PERCENT && |s| >= 3 && H.IsDigit(s[1]) && H.IsDigit(s[2]) then
      (H.DigitValue(s[1]) * 16 + H.DigitValue(s[2]), 3, inQuery)
    else (s[0], 1, inQuery)
  }

  /** evhttp_decode_uri */
  function Decode(s: seq<Byte>, inQuery: bool): seq<Byte> {
    if s == [] then []
    else
      var (c, k, q) := Next(s, inQuery);
      [c] + Decode(s[k..], q)
  }

  /**
    Decoding: a question mark begins the query; a plus is a space in the query only; a percent sign with two digits of
    base 16 is the byte they name; everything else stays.
   */
  lemma {:induction false} DecodeIs(c: Byte, rest: seq<Byte>, inQuery: bool)
    ensures var r := Decode([c] + rest, inQuery);
      var coded := c == '%' as int && |rest| >= 2 && H.IsDigit(rest[0]) && H.IsDigit(rest[1]);
      r == if c == '?' as int then [c] + Decode(rest, true)
           else if c == '+' as int && inQuery then [' ' as int] + Decode(rest, inQuery)
           else if coded then [16 * H.DigitValue(rest[0]) + H.DigitValue(rest[1])] + Decode(rest[2..], inQuery)
           else [c] + Decode(rest, inQuery)
  {
    var s := [c] + rest;
    assert s[1..] == rest && (|rest| >= 2 ==> s[3..] == rest[2..]);
  }

  lemma {:induction false} UpperDigitIs(d: nat)
    requires d < 16
    ensures H.IsDigit(UpperDigit(d)) && H.DigitValue(UpperDigit(d)) == d
  {
  }

  /**
    Decoding undoes encoding for every byte string: the question mark itself is coded, so no plus is taken for a
    space.
   */
  lemma {:induction false} UriReadBack(uri: seq<Byte>)
    ensures Decode(Encode(uri), false) == uri
  {
    if uri != [] {
      var c, rest := uri[0], Encode(uri[1..]);
      UriReadBack(uri[1..]);
      var s := EncodeChar(c) + rest;
      if UriChar(c) {
        assert s[1..] == rest;
      } else {
        UpperDigitIs(c / 16);
        UpperDigitIs(c % 16);
        assert s[3..] == rest;
        assert c / 16 * 16 + c % 16 == c;
      }
    }
  }

  /** evhttp_encode_uri */
  method EncodeUri(uri: seq<Byte>) returns (r: seq<Byte>)
    ensures r == Encode(uri)
  {
    r := [];
    var i := 0;
    assert uri[0..] == uri;
    while i < |uri|
      invariant 0 <= i <= |uri| && r + Encode(uri[i..]) == Encode(uri)
    {
      assert uri[i..][1..] == uri[i + 1..];
      assert (r + EncodeChar(uri[i])) + Encode(uri[i + 1..]) == r + (EncodeChar(uri[i]) + Encode(uri[i + 1..]));
      r := r + EncodeChar(uri[i]);
      i := i + 1;
    }
  }

  /** evhttp_decode_uri */
  method DecodeUri(uri: seq<Byte>) returns (r: seq<Byte>)
    ensures r == Decode(uri, false)
  {
    hide Next;
    r := [];
    var i, inQuery := 0, false;
    assert uri[0..] == uri;
    while i < |uri|
      invariant 0 <= i <= |uri| && r + Decode(uri[i..], inQuery) == Decode(uri, false)
    {
      var (c, k, q) := Next(uri[i..], inQuery);
      assert uri[i..][k..] == uri[i + k..];
      assert r + ([c] + Decode(uri[i + k..], q)) == (r + [c]) + Decode(uri[i + k..], q);
      r := r + [c];
      i, inQuery := i + k, q;
    }
  }
}
