/** Chunked transfer coding, section 3.6.1 of RFC 2616, as http.c writes and reads it. */
module HttpChunked {
  import opened Basics
  import opened EvBuffer

  const LLONG_MAX := 0x7fff_ffff_ffff_ffff
  const CRLF: seq<Byte> := [CR, LF]
  const SPACE: Byte := 32

  // ----- numbers in base 16 -----

  function Digit(d: nat): Byte
    requires d < 16
  {
    if d < 10 then 48 + d else 87 + d
  }

  /** printf with %x */
  function Hex(n: nat): (r: seq<Byte>)
    ensures r != []
  {
    if n < 16 then [Digit(n)] else Hex(n / 16) + [Digit(n % 16)]
  }

  function DigitValue(c: Byte): (v: int)
    ensures -1 <= v < 16
  {
    if 48 <= c <= 57 then c - 48 else if 97 <= c <= 102 then c - 87 else if 65 <= c <= 70 then c - 55 else -1
  }

  predicate IsDigit(c: Byte) {
    DigitValue(c) >= 0
  }

  /** How many digits there are from the start. */
  function DigitCount(s: seq<Byte>): (n: nat)
    ensures n <= |s| && (forall i :: 0 <= i < n ==> IsDigit(s[i])) && (n < |s| ==> !IsDigit(s[n]))
  {
    if s == [] || !IsDigit(s[0]) then 0 else 1 + DigitCount(s[1..])
  }

  function NumberOf(s: seq<Byte>): nat
    requires forall i :: 0 <= i < |s| ==> IsDigit(s[i])
  {
    if s == [] then 0
    else
      assert IsDigit(s[|s| - 1]);
      16 * NumberOf(s[..|s| - 1]) + DigitValue(s[|s| - 1])
  }

  function SpaceCount(s: seq<Byte>): (n: nat)
    ensures n <= |s|
  {
    if s != [] && (s[0] == SPACE || 9 <= s[0] <= 13) then 1 + SpaceCount(s[1..]) else 0
  }

  /** strtoll in base 16: the number, and where it ends; at the start if there is none. */
  function StrToLL(s: seq<Byte>): (r: (int, nat))
    ensures r.1 <= |s|
  {
    var i := SpaceCount(s);
    var signed := i < |s| && (s[i] == 43 || s[i] == 45);
    var j := if signed then i + 1 else i;
    var k := if j + 2 < |s| && s[j] == 48 && (s[j + 1] == 120 || s[j + 1] == 88) && IsDigit(s[j + 2]) then j + 2 else j;
    var n := DigitCount(s[k..]);
    if n == 0 then (0, 0)
    else
      var v: int := NumberOf(s[k..][..n]);
      (if signed && s[i] == 45 then (if v > LLONG_MAX + 1 then -LLONG_MAX - 1 else 0 - v)
        else if v > LLONG_MAX then LLONG_MAX else v, k + n)
  }

  // ----- writing -----

  /** evhttp_send_reply_chunk; the length is printed as an unsigned int. */
  function Chunk(data: seq<Byte>): seq<Byte> {
    Hex(|data| % TWO32) + CRLF + data + CRLF
  }

  /** evhttp_send_reply_end */
  const LAST: seq<Byte> := [48] + CRLF + CRLF

  /** A reply sent in chunks. */
  function Message(chunks: seq<seq<Byte>>): seq<Byte> {
    if chunks == [] then LAST else Chunk(chunks[0]) + Message(chunks[1..])
  }

  function Body(chunks: seq<seq<Byte>>): seq<Byte> {
    if chunks == [] then [] else chunks[0] + Body(chunks[1..])
  }

  // ----- reading -----

  /**
    The state of a request being read: the bytes of the chunk to come or -1, the connection's buffer, the body so
    far.
   */
  datatype Reading = Reading(ntoread: int, buf: seq<Byte>, body: seq<Byte>)

  /** A size line: the size, or nothing if it is no number. */
  function SizeOf(line: seq<Byte>): Option<int> {
    var (v, end) := StrToLL(line);
    if line == [] || (end < |line| && line[end] != SPACE) then None else Some(v)
  }

  /** What the loop of evhttp_handle_chunked_read sees of the length. */
  function IntLength(n: nat): int {
    if n % TWO32 >= TWO31 then n % TWO32 - TWO32 else n % TWO32
  }

  /** The low 32 bits, as a signed number. */
  lemma {:induction false} IntLengthIs(n: nat)
    ensures -0x8000_0000 <= IntLength(n) < 0x8000_0000 && (n - IntLength(n)) % 0x1_0000_0000 == 0
  {
  }

  /** evhttp_handle_chunked_read: 1 when all is read, 0 when more is expected, -1 when the data is corrupted. */
  function Read(s: Reading): (r: (Reading, int))
    decreases |s.buf|, s.ntoread + 1
  {
    if IntLength(|s.buf|) <= 0 then (s, 0)
    else if s.ntoread < 0 then
      var line := ReadLine(s.buf);
      if line.None? then (s, 0)
      else
        var s1 := s.(buf := line.value.1);
        var text := CString(line.value.0);
        if text == [] then Read(s1)
        else
          var size := SizeOf(text);
          if size.None? then (s1.(ntoread := StrToLL(text).0), -1)
          else if size.value == 0 then (s1.(ntoread := 0), 1)
          else Read(s1.(ntoread := size.value))
    else if IntLength(|s.buf|) < s.ntoread then (s, 0)
    else Read(Reading(-1, s.buf[s.ntoread..], s.body + s.buf[..s.ntoread]))
  }

  // ----- size lines are read back -----

  lemma {:induction false} DigitIs(d: nat)
    requires d < 16
    ensures Digit(d) == "0123456789abcdef"[d] as int
    ensures IsDigit(Digit(d)) && DigitValue(Digit(d)) == d && 48 <= Digit(d) <= 102
  {
  }

  lemma {:induction false} HexDigits(n: nat)
    ensures forall i :: 0 <= i < |Hex(n)| ==> IsDigit(Hex(n)[i]) && 48 <= Hex(n)[i] <= 102
    ensures NumberOf(Hex(n)) == n
    ensures n > 0 ==> Hex(n)[0] != 48
  {
    DigitIs(n % 16);
    if n >= 16 {
      HexDigits(n / 16);
      assert Hex(n)[..|Hex(n)| - 1] == Hex(n / 16);
    } else {
      assert Hex(n)[..0] == [];
    }
  }

  lemma {:induction false} AllDigits(s: seq<Byte>)
    requires forall i :: 0 <= i < |s| ==> IsDigit(s[i])
    ensures DigitCount(s) == |s|
  {
    if s != [] { AllDigits(s[1..]); }
  }

  /** Digits that start neither with a space, a sign nor a prefix. */
  lemma {:induction false} PrintedNumber(s: seq<Byte>)
    requires s != [] && (forall i :: 0 <= i < |s| ==> IsDigit(s[i]) && 48 <= s[i] <= 102) && (s[0] != 48 || |s| == 1)
    requires NumberOf(s) <= LLONG_MAX
    ensures StrToLL(s) == (NumberOf(s), |s|)
  {
    hide NumberOf;
    AllDigits(s);
    assert SpaceCount(s) == 0;
    assert s[0..] == s && s[..|s|] == s;
  }

  lemma {:induction false} NoZeros(s: seq<Byte>)
    requires forall i :: 0 <= i < |s| ==> s[i] != 0
    ensures CString(s) == s
  {
    if s != [] { NoZeros(s[1..]); }
  }

  /** A printed size is read back. */
  lemma {:induction false} SizeReadBack(n: nat)
    requires n <= LLONG_MAX
    ensures SizeOf(Hex(n)) == Some(n) && CString(Hex(n)) == Hex(n)
  {
    var s := Hex(n);
    HexDigits(n);
    if n == 0 { assert s == [48]; }
    hide Hex, CString;
    NoZeros(s);
    PrintedNumber(s);
    hide StrToLL;
  }

  // ----- size lines of any form -----

  predicate IsSpace(c: Byte) {
    c == SPACE || 9 <= c <= 13
  }

  lemma {:induction false} SpacesSkipped(spaces: seq<Byte>, rest: seq<Byte>)
    requires (forall i :: 0 <= i < |spaces| ==> IsSpace(spaces[i])) && (rest == [] || !IsSpace(rest[0]))
    ensures SpaceCount(spaces + rest) == |spaces|
  {
    if spaces == [] {
      assert spaces + rest == rest;
    } else {
      SpacesSkipped(spaces[1..], rest);
      assert (spaces + rest)[1..] == spaces[1..] + rest;
    }
  }

  lemma {:induction false} DigitsCounted(digits: seq<Byte>, rest: seq<Byte>)
    requires (forall i :: 0 <= i < |digits| ==> IsDigit(digits[i])) && (rest == [] || !IsDigit(rest[0]))
    ensures DigitCount(digits + rest) == |digits|
  {
    if digits == [] {
      assert digits + rest == rest;
    } else {
      DigitsCounted(digits[1..], rest);
      assert (digits + rest)[1..] == digits[1..] + rest;
    }
  }

  /** A number with its sign, within 64 bits. */
  function Saturated(minus: bool, n: nat): (v: int)
    ensures -0x8000_0000_0000_0000 <= v < 0x8000_0000_0000_0000
    ensures n < 0x8000_0000_0000_0000 ==> v == if minus then 0 - n else n
  {
    if minus then (if n > LLONG_MAX + 1 then -LLONG_MAX - 1 else 0 - n) else if n > LLONG_MAX then LLONG_MAX else n
  }

  /** A line in its parts: spaces, a sign, 0x or nothing, digits, and what follows them. */
  datatype SizeText = SizeText(spaces: seq<Byte>, sign: seq<Byte>, prefix: seq<Byte>, digits: seq<Byte>,
    rest: seq<Byte>)

  function Spelled(t: SizeText): seq<Byte> {
    t.spaces + (t.sign + (t.prefix + (t.digits + t.rest)))
  }

  predicate PartsOk(t: SizeText) {
    && (forall i :: 0 <= i < |t.spaces| ==> IsSpace(t.spaces[i])) && t.sign in {[], [43], [45]}
    && t.prefix in {[], [48, 120], [48, 88]} && (forall i :: 0 <= i < |t.digits| ==> IsDigit(t.digits[i]))
    && (t.rest == [] || !IsDigit(t.rest[0]))
    && (t.prefix == [] && t.digits == [48] && |t.rest| >= 2 && t.rest[0] in {120, 88} ==> !IsDigit(t.rest[1]))
  }

  /** Where the parts of a line stand. */
  lemma {:induction false} PartsStand(t: SizeText)
    ensures var s, i := Spelled(t), |t.spaces|; var j := i + |t.sign|; var k := j + |t.prefix|;
      && |s| == k + |t.digits| + |t.rest| && s[..i] == t.spaces && s[i..j] == t.sign && s[j..k] == t.prefix
      && s[k..] == t.digits + t.rest && s[i..] == t.sign + (t.prefix + (t.digits + t.rest))
      && s[k + |t.digits|..] == t.rest
  {
    var s, i := Spelled(t), |t.spaces|;
    var j := i + |t.sign|;
    assert s[i..] == t.sign + (t.prefix + (t.digits + t.rest));
    assert s[i..][|t.sign|..] == t.prefix + (t.digits + t.rest);
    assert s[j..] == s[i..][|t.sign|..];
    assert s[j..][|t.prefix|..] == t.digits + t.rest;
    assert s[j + |t.prefix|..] == s[j..][|t.prefix|..];
  }

  /** Digits without a prefix do not look like one with a prefix. */
  lemma {:induction false} NoPrefix(t: SizeText)
    requires PartsOk(t) && t.prefix == [] && t.digits != []
    ensures var d := t.digits + t.rest;
      |d| > 2 && d[0] == 48 && d[1] in {120, 88} ==> !IsDigit(d[2])
  {
    var d := t.digits + t.rest;
    if |t.digits| > 1 {
      assert IsDigit(t.digits[1]) && t.digits[1] == d[1];
    } else if |d| > 2 && d[0] == 48 && d[1] in {120, 88} {
      assert t.digits == [48] && t.rest[0] == d[1] && t.rest[1] == d[2];
    }
  }

  predicate Begins(t: SizeText) {
    t.digits == [] ==>
      && t.prefix == []
      && (t.sign == [] && t.rest != [] ==> !IsSpace(t.rest[0]) && t.rest[0] != 43 && t.rest[0] != 45)
  }

  lemma {:induction false} SpacesCounted(t: SizeText)
    requires PartsOk(t) && Begins(t)
    ensures SpaceCount(Spelled(t)) == |t.spaces|
  {
    hide SpaceCount;
    var d := t.digits + t.rest;
    var after := t.sign + (t.prefix + d);
    if t.digits != [] { assert IsDigit(t.digits[0]) && d[0] == t.digits[0]; }
    assert after != [] ==>
      after[0] == if t.sign != [] then t.sign[0] else if t.prefix != [] then t.prefix[0] else d[0];
    SpacesSkipped(t.spaces, after);
  }

  /** strtoll, given where its parts stand. */
  lemma {:induction false} NumberAt(s: seq<Byte>, j: nat, k: nat, n: nat)
    requires var i := SpaceCount(s);
      j == if i < |s| && (s[i] == 43 || s[i] == 45) then i + 1 else i
    requires j <= |s| && k <= |s|
    requires k == if j + 2 < |s| && s[j] == 48 && (s[j + 1] == 120 || s[j + 1] == 88)
      && IsDigit(s[j + 2]) then j + 2 else j
    requires n == DigitCount(s[k..])
    ensures n == 0 ==> StrToLL(s) == (0, 0)
    ensures n != 0 ==> var i := SpaceCount(s);
      StrToLL(s) == (Saturated(i < |s| && s[i] == 45, NumberOf(s[k..][..n])), k + n)
  {
    hide NumberOf, SpaceCount, DigitCount, IsDigit;
  }

  /** Sign and prefix, if any, are where strtoll looks for them, and nothing else looks like them. */
  lemma {:induction false} SignSeen(t: SizeText)
    requires PartsOk(t) && t.digits != []
    ensures var s, i := Spelled(t), |t.spaces|;
      && i < |s| && (s[i] == 43 || s[i] == 45 <==> t.sign != []) && (s[i] == 45 <==> t.sign == [45])
  {
    hide Spelled;
    var s, i := Spelled(t), |t.spaces|;
    PartsStand(t);
    var d := t.digits + t.rest;
    assert IsDigit(t.digits[0]) && d[0] == t.digits[0];
    assert s[i] == s[i..][0];
    assert s[i] == if t.sign != [] then t.sign[0] else if t.prefix != [] then t.prefix[0] else d[0];
  }

  lemma {:induction false} PrefixSeen(t: SizeText)
    requires PartsOk(t) && t.digits != []
    ensures var s, j := Spelled(t), |t.spaces| + |t.sign|;
      j + 2 < |s| && s[j] == 48 && (s[j + 1] == 120 || s[j + 1] == 88) && IsDigit(s[j + 2]) <==> t.prefix != []
  {
    hide Spelled;
    var s, j := Spelled(t), |t.spaces| + |t.sign|;
    var k := j + |t.prefix|;
    PartsStand(t);
    var d := t.digits + t.rest;
    assert IsDigit(t.digits[0]) && d[0] == t.digits[0] && s[k..] == d;
    if t.prefix == [] {
      NoPrefix(t);
      assert s[k] == d[0];
      if k + 2 < |s| { assert s[k + 1] == d[1] && s[k + 2] == d[2]; }
    } else {
      assert s[j] == s[j..k][0] && s[j + 1] == s[j..k][1] && s[k] == d[0];
    }
  }

  /** strtoll reads the digits behind spaces, a sign and a prefix, and stops where they end. */
  lemma {:induction false} NumberRead(t: SizeText)
    requires PartsOk(t) && t.digits != []
    ensures StrToLL(Spelled(t))
      == (Saturated(t.sign == [45], NumberOf(t.digits)), |t.spaces| + |t.sign| + |t.prefix| + |t.digits|)
  {
    hide NumberOf, SpaceCount, DigitCount, StrToLL, Spelled, Saturated, IsDigit;
    var s, j := Spelled(t), |t.spaces| + |t.sign|;
    var k := j + |t.prefix|;
    PartsStand(t);
    SignSeen(t);
    PrefixSeen(t);
    SpacesCounted(t);
    DigitsCounted(t.digits, t.rest);
    assert (t.digits + t.rest)[..|t.digits|] == t.digits;
    NumberAt(s, j, k, |t.digits|);
  }

  /**
    A size line is a number in base 16, maybe behind spaces and a sign, up to the end or to a space; a line without
    digits is the number zero if it begins with a space.
   */
  lemma {:induction false} SizeLine(t: SizeText)
    requires PartsOk(t) && t.digits != []
    ensures SizeOf(Spelled(t)) ==
      if t.rest == [] || t.rest[0] == 32 then Some(Saturated(t.sign == [45], NumberOf(t.digits))) else None
  {
    hide NumberOf, StrToLL, PartsOk;
    NumberRead(t);
    PartsStand(t);
    var s, end := Spelled(t), |t.spaces| + |t.sign| + |t.prefix| + |t.digits|;
    if t.rest != [] { assert s[end] == s[end..][0]; }
  }

  lemma {:induction false} NoSize(t: SizeText)
    requires PartsOk(t) && Begins(t) && t.digits == []
    ensures var line := Spelled(t); SizeOf(line) == if line != [] && line[0] == 32 then Some(0) else None
  {
    hide SpaceCount, DigitCount, StrToLL, NumberOf, Spelled;
    var s, i := Spelled(t), |t.spaces|;
    var j := i + |t.sign|;
    PartsStand(t);
    SpacesCounted(t);
    DigitsCounted([], t.rest);
    assert [] + t.rest == t.rest;
    if t.sign != [] { assert s[i] == s[i..j][0]; }
    if t.rest != [] { assert s[j] == s[j..][0]; }
    NumberAt(s, j, j, 0);
  }

  /** A round of the loop on an empty line. */
  lemma {:induction false} ReadEmpty(b: seq<Byte>, rest: seq<Byte>, was: int, body: seq<Byte>)
    requires was < 0 && b != [] && |b| < TWO31 && ReadLine(b) == Some(([], rest))
    ensures Read(Reading(was, b, body)) == Read(Reading(was, rest, body))
  {
    hide StrToLL, SizeOf, ReadLine;
    assert IntLength(|b|) == |b|;
  }

  /** A round of the loop on a size line. */
  lemma {:induction false} ReadSizeLine(b: seq<Byte>, line: seq<Byte>, rest: seq<Byte>, was: int, body: seq<Byte>)
    requires was < 0 && |b| < TWO31 && ReadLine(b) == Some((line, rest)) && line != [] && CString(line) == line
    ensures var r := Read(Reading(was, b, body));
      match SizeOf(line)
      case None => r.1 == -1 && r.0.buf == rest && r.0.body == body
      case Some(n) => if n == 0 then r == (Reading(0, rest, body), 1) else r == Read(Reading(n, rest, body))
  {
    hide StrToLL, SizeOf, ReadLine, CString;
    assert b != [] && IntLength(|b|) == |b|;
  }

  /** What a call makes of a size line. */
  lemma {:induction false} LineJudged(line: seq<Byte>, more: seq<Byte>, was: int, body: seq<Byte>)
    requires line != [] && (forall i :: 0 <= i < |line| ==> !IsBreak(line[i]) && line[i] != 0)
    requires was < 0 && |line + CRLF + more| < TWO31
    ensures var r := Read(Reading(was, line + CRLF + more, body));
      match SizeOf(line)
      case None => r.1 == -1 && r.0.buf == more && r.0.body == body
      case Some(n) => if n == 0 then r == (Reading(0, more, body), 1) else r == Read(Reading(n, more, body))
  {
    var b := line + CRLF + more;
    LineEndIs(b, |line|);
    assert b[..|line|] == line && b[|line| + 2..] == more;
    NoZeros(line);
    ReadSizeLine(b, line, more, was, body);
  }

  // ----- positions in the stream of a message -----

  /** Before the line end `p` and a size line; or before the data of a chunk, with the line end `p` behind it. */
  datatype Pos = Size(p: seq<Byte>, ks: seq<seq<Byte>>) | Data(p: seq<Byte>, ks: seq<seq<Byte>>)

  /** The line end of a chunk of line feeds that was read one byte early. */
  const LATE: seq<Byte> := [LF, CR, LF]

  ghost predicate PosOk(pos: Pos) {
    && (forall i :: 0 <= i < |pos.ks| ==> 0 < |pos.ks[i]| < TWO31)
    && (if pos.Data? then pos.ks != [] && pos.p in {CRLF, LATE} else pos.p in {[], [LF], CRLF, LATE})
  }

  function Rest(pos: Pos): seq<Byte>
    requires pos.Data? ==> pos.ks != []
  {
    if pos.Size? then pos.p + Message(pos.ks) else pos.ks[0] + (pos.p + Message(pos.ks[1..]))
  }

  function ToRead(pos: Pos): int
    requires pos.Data? ==> pos.ks != []
  {
    if pos.Size? then -1 else |pos.ks[0]|
  }

  /** The size line that comes next. */
  function Line(ks: seq<seq<Byte>>): seq<Byte> {
    if ks == [] then [48] else Hex(|ks[0]| % TWO32)
  }

  predicate LineFeeds(k: seq<Byte>) {
    forall i :: 0 <= i < |k| ==> k[i] == LF
  }

  /** A cut after `n` bytes is not between CR and LF of a size line, except for a chunk of line feeds only. */
  predicate Safe(pos: Pos, n: int)
    requires pos.Data? ==> pos.ks != []
    decreases |pos.ks|, if pos.Size? then 1 else 0
  {
    if pos.Size? then
      var h := |pos.p| + |Line(pos.ks)|;
      && (n == h + 1 ==> pos.ks != [] && LineFeeds(pos.ks[0]))
      && (pos.ks != [] && n >= h + 2 ==> Safe(Data(CRLF, pos.ks), n - h - 2))
    else n > |pos.ks[0]| ==> Safe(Size(pos.p, pos.ks[1..]), n - |pos.ks[0]|)
  }

  /**
    From `pos` with `n` bytes at hand to `pos'` with `n'`: what is between was read, and later cuts are as safe as
    before.
   */
  ghost predicate Leads(pos: Pos, n: nat, pos': Pos, n': nat) {
    && PosOk(pos) && PosOk(pos') && n' <= n <= |Rest(pos)|
    && Rest(pos)[n - n'..] == Rest(pos')
    && forall m :: n <= m ==> (Safe(pos, m) <==> Safe(pos', m - (n - n')))
  }

  lemma {:induction false} LeadsTrans(a: Pos, n: nat, b: Pos, n1: nat, c: Pos, n2: nat)
    requires Leads(a, n, b, n1) && Leads(b, n1, c, n2)
    ensures Leads(a, n, c, n2)
  {
    hide Rest, Safe;
    assert Rest(a)[n - n1..][n1 - n2..] == Rest(a)[n - n2..];
    forall m | n <= m ensures Safe(a, m) <==> Safe(c, m - (n - n2)) {
      assert Safe(a, m) <==> Safe(b, m - (n - n1));
      assert Safe(b, m - (n - n1)) <==> Safe(c, m - (n - n1) - (n1 - n2));
    }
  }

  function Hold(pos: Pos, n: nat, body: seq<Byte>): Reading
    requires (pos.Data? ==> pos.ks != []) && n <= |Rest(pos)|
  {
    Reading(ToRead(pos), Rest(pos)[..n], body)
  }

  // ----- one turn of the loop at each position -----

  lemma {:induction false} MessageIs(ks: seq<seq<Byte>>)
    requires ks != []
    ensures Message(ks) == Line(ks) + CRLF + Rest(Data(CRLF, ks))
  {
    assert Hex(|ks[0]| % TWO32) + CRLF + ks[0] + CRLF + Message(ks[1..])
      == Hex(|ks[0]| % TWO32) + CRLF + (ks[0] + (CRLF + Message(ks[1..])));
  }

  /** Every message starts with a digit. */
  lemma {:induction false} Starts(ks: seq<seq<Byte>>)
    ensures Line(ks) != [] && Message(ks) != [] && Message(ks)[0] == Line(ks)[0] && !IsBreak(Message(ks)[0])
    ensures |Message(ks)| >= |Line(ks)| + 2
    ensures Message(ks)[..|Line(ks)| + 2] == Line(ks) + CRLF
  {
    if ks != [] {
      MessageIs(ks);
      HexDigits(|ks[0]| % TWO32);
    }
  }

  lemma {:induction false} Parts(a: seq<Byte>, b: seq<Byte>, n: nat)
    requires |a| <= n <= |a + b|
    ensures (a + b)[|a|..] == b && (a + b)[..n][..|a|] == a
  {
  }

  lemma {:induction false} SafeData(p: seq<Byte>, ks: seq<seq<Byte>>)
    requires ks != []
    ensures forall m :: m >= |ks[0]| ==> (Safe(Data(p, ks), m) <==> Safe(Size(p, ks[1..]), m - |ks[0]|))
  {
    hide Line;
    Starts(ks[1..]);
  }

  lemma {:induction false} DropTake(b: seq<Byte>, n: nat, k: nat)
    requires k <= n <= |b|
    ensures b[..n][k..] == b[k..][..n - k]
  {
  }

  lemma {:induction false} DataLeads(p: seq<Byte>, ks: seq<seq<Byte>>, n: nat)
    requires PosOk(Data(p, ks)) && |ks[0]| <= n <= |Rest(Data(p, ks))|
    ensures var k := |ks[0]|;
      && Leads(Data(p, ks), n, Size(p, ks[1..]), n - k)
      && Rest(Data(p, ks))[..n][k..] == Rest(Size(p, ks[1..]))[..n - k] && Rest(Data(p, ks))[..n][..k] == ks[0]
  {
    hide Message, Line;
    var k, b := |ks[0]|, Rest(Data(p, ks));
    assert b[k..] == Rest(Size(p, ks[1..])) && b[..n][..k] == ks[0] by { Parts(ks[0], p + Message(ks[1..]), n); }
    hide Rest;
    DropTake(b, n, k);
    SafeData(p, ks);
  }

  lemma {:induction false} LeadsLength(a: Pos, n: nat, b: Pos, n1: nat)
    requires Leads(a, n, b, n1)
    ensures n1 <= |Rest(b)|
  {
    hide Rest, Safe;
  }

  lemma {:induction false} AtData(p: seq<Byte>, ks: seq<seq<Byte>>, n: nat, body: seq<Byte>)
    requires PosOk(Data(p, ks)) && n <= |Rest(Data(p, ks))| && n < TWO31
    ensures n < |ks[0]| ==> Read(Hold(Data(p, ks), n, body)) == (Hold(Data(p, ks), n, body), 0)
    ensures n >= |ks[0]| ==>
      && n - |ks[0]| <= |Rest(Size(p, ks[1..]))| && Leads(Data(p, ks), n, Size(p, ks[1..]), n - |ks[0]|)
      && Read(Hold(Data(p, ks), n, body)) == Read(Hold(Size(p, ks[1..]), n - |ks[0]|, body + ks[0]))
  {
    hide Rest, Leads, Safe;
    assert IntLength(n) == n;
    if n >= |ks[0]| {
      DataLeads(p, ks, n);
      LeadsLength(Data(p, ks), n, Size(p, ks[1..]), n - |ks[0]|);
    }
  }

  lemma {:induction false} DropPrefix(p: seq<Byte>, m: seq<Byte>, k: nat)
    requires k <= |p|
    ensures (p + m)[k..] == p[k..] + m
  {
  }

  lemma {:induction false} SafeLater(p: seq<Byte>, ks: seq<seq<Byte>>, k: nat)
    requires k <= |p|
    ensures forall m :: Safe(Size(p, ks), m) <==> Safe(Size(p[k..], ks), m - k)
  {
    hide Line;
  }

  lemma {:induction false} EndOfLine(p: seq<Byte>, k: nat)
    requires p in {[LF], CRLF, LATE} && 0 < k <= |p|
    ensures p[k..] in {[], [LF], CRLF}
  {
    assert LATE[1..] == CRLF && LATE[2..] == [LF] == CRLF[1..];
    assert p[|p|..] == [];
  }

  lemma {:induction false} LineEndRest(p: seq<Byte>, ks: seq<seq<Byte>>, k: nat)
    requires k <= |p|
    ensures k <= |Rest(Size(p, ks))| && Rest(Size(p, ks))[k..] == Rest(Size(p[k..], ks))
  {
    hide Message;
    DropPrefix(p, Message(ks), k);
  }

  lemma {:induction false} LineEndLeads(p: seq<Byte>, ks: seq<seq<Byte>>, n: nat, k: nat)
    requires PosOk(Size(p, ks)) && p != [] && 0 < k <= |p| && k <= n <= |Rest(Size(p, ks))|
    ensures PosOk(Size(p[k..], ks)) && Leads(Size(p, ks), n, Size(p[k..], ks), n - k)
    ensures Rest(Size(p, ks))[..n][k..] == Rest(Size(p[k..], ks))[..n - k]
  {
    hide Message, Rest, Line, Safe;
    EndOfLine(p, k);
    LineEndRest(p, ks, k);
    DropTake(Rest(Size(p, ks)), n, k);
    SafeLater(p, ks, k);
  }

  /** How much of a line end is read as one empty line. */
  function Taken(p: seq<Byte>, n: nat): nat {
    if n < 2 && n < |p| then n else if |p| < 2 then |p| else 2
  }

  lemma {:induction false} EmptyLine(v: seq<Byte>, p: seq<Byte>, k: nat)
    requires p in {[LF], CRLF, LATE} && v != [] && k == Taken(p, |v|) && v[..k] == p[..k]
    requires |v| > |p| ==> !IsBreak(v[|p|])
    ensures ReadLine(v) == Some(([], v[k..]))
  {
    assert v[0] == v[..k][0] == p[0];
    if k == 2 { assert v[1] == v[..k][1] == p[1]; }
    LineEndIs(v, 0);
    assert v[..0] == [];
  }

  /** At the end of a chunk: the line end counts as empty lines, in as many pieces as it comes. */
  lemma {:induction false} AtLineEnd(p: seq<Byte>, ks: seq<seq<Byte>>, n: nat, body: seq<Byte>)
    requires PosOk(Size(p, ks)) && p != [] && 0 < n <= |Rest(Size(p, ks))| && n < TWO31
    ensures var k := Taken(p, n);
      && PosOk(Size(p[k..], ks)) && n - k <= |Rest(Size(p[k..], ks))| && Leads(Size(p, ks), n, Size(p[k..], ks), n - k)
      && Read(Hold(Size(p, ks), n, body)) == Read(Hold(Size(p[k..], ks), n - k, body))
  {
    hide Message, Safe, Leads, Read, ReadLine;
    var k := Taken(p, n);
    LineEndLeads(p, ks, n, k);
    var v := Rest(Size(p, ks))[..n];
    Starts(ks);
    if n > |p| { assert v[|p|] == Message(ks)[0]; }
    assert v[..k] == p[..k];
    EmptyLine(v, p, k);
    ReadEmpty(v, v[k..], -1, body);
    LeadsLength(Size(p, ks), n, Size(p[k..], ks), n - k);
  }

  lemma {:induction false} LineDigits(ks: seq<seq<Byte>>)
    ensures forall i :: 0 <= i < |Line(ks)| ==> !IsBreak(Line(ks)[i])
    ensures PosOk(Size([], ks)) ==>
      SizeOf(Line(ks)) == Some(if ks == [] then 0 else |ks[0]|) && CString(Line(ks)) == Line(ks)
  {
    hide SizeOf, CString, NumberOf;
    if ks == [] {
      assert Hex(0) == [48];
      SizeReadBack(0);
    } else {
      hide Hex;
      HexDigits(|ks[0]| % TWO32);
      SizeReadBack(|ks[0]| % TWO32);
    }
  }

  /** A size line that is not complete. */
  lemma {:induction false} AtPartialLine(ks: seq<seq<Byte>>, n: nat, body: seq<Byte>)
    requires PosOk(Size([], ks)) && n <= |Line(ks)| && n < TWO31
    ensures n < |Rest(Size([], ks))| && Read(Hold(Size([], ks), n, body)) == (Hold(Size([], ks), n, body), 0)
  {
    hide Message;
    Starts(ks);
    var b := Rest(Size([], ks));
    assert b == Message(ks);
    var v := b[..n];
    LineDigits(ks);
    forall i | 0 <= i < n ensures !IsBreak(v[i]) { assert v[i] == Message(ks)[..|Line(ks)| + 2][i] == Line(ks)[i]; }
    LineEndIs(v, n);
  }

  /** A complete size line. */
  lemma {:induction false} AtLine(ks: seq<seq<Byte>>, n: nat, body: seq<Byte>)
    requires PosOk(Size([], ks)) && |Line(ks)| + 2 <= n <= |Rest(Size([], ks))| && n < TWO31
    ensures var k := |Line(ks)| + 2; var v := Rest(Size([], ks))[..n];
      && Read(Hold(Size([], ks), n, body)) ==
         (if ks == [] then (Reading(0, v[k..], body), 1) else Read(Reading(|ks[0]|, v[k..], body)))
  {
    hide Message, SizeOf, CString, Read;
    Starts(ks);
    LineDigits(ks);
    var b, h := Rest(Size([], ks)), |Line(ks)|;
    assert b == Message(ks);
    var v := b[..n];
    assert v[..h + 2] == Line(ks) + CRLF;
    forall i | 0 <= i < h ensures !IsBreak(v[i]) { assert v[i] == v[..h + 2][i] == Line(ks)[i]; }
    assert v[h] == v[..h + 2][h] == CR && v[h + 1] == v[..h + 2][h + 1] == LF;
    LineEndIs(v, h);
    assert v[..h] == v[..h + 2][..h] == Line(ks);
    assert ReadLine(v) == Some((Line(ks), v[h + 2..]));
    ReadSizeLine(v, Line(ks), v[h + 2..], -1, body);
  }

  lemma {:induction false} LineRest(ks: seq<seq<Byte>>)
    requires ks != []
    ensures |Line(ks)| + 2 <= |Rest(Size([], ks))| && Rest(Size([], ks))[|Line(ks)| + 2..] == Rest(Data(CRLF, ks))
  {
    hide Message, Line;
    MessageIs(ks);
    assert Rest(Size([], ks)) == Message(ks);
    assert |Line(ks) + CRLF| == |Line(ks)| + 2;
    hide Rest;
    Parts(Line(ks) + CRLF, Rest(Data(CRLF, ks)), |Message(ks)|);
  }

  lemma {:induction false} SafeLine(ks: seq<seq<Byte>>)
    requires ks != []
    ensures forall m :: m >= |Line(ks)| + 2 ==> (Safe(Size([], ks), m) <==> Safe(Data(CRLF, ks), m - (|Line(ks)| + 2)))
  {
    hide Line, LineFeeds;
  }

  lemma {:induction false} LineLeads(ks: seq<seq<Byte>>, n: nat)
    requires PosOk(Size([], ks)) && ks != [] && |Line(ks)| + 2 <= n <= |Rest(Size([], ks))|
    ensures var k := |Line(ks)| + 2;
      && Leads(Size([], ks), n, Data(CRLF, ks), n - k)
      && Rest(Size([], ks))[..n][k..] == Rest(Data(CRLF, ks))[..n - k]
  {
    hide Message, Line, Rest, Safe;
    LineRest(ks);
    SafeLine(ks);
    DropTake(Rest(Size([], ks)), n, |Line(ks)| + 2);
  }

  lemma {:induction false} CutLine(l: seq<Byte>)
    requires forall i :: 0 <= i < |l| ==> !IsBreak(l[i])
    ensures ReadLine(l + [CR]) == Some((l, []))
  {
    var v := l + [CR];
    LineEndIs(v, |l|);
    assert v[..|l|] == l && v[|l| + 1..] == [];
  }

  /** What such a call returns. */
  function Cut(ks: seq<seq<Byte>>, body: seq<Byte>): (Reading, int) {
    if ks == [] then (Reading(0, [], body), 1) else (Reading(|ks[0]|, [], body), 0)
  }

  lemma {:induction false} ReadCut(v: seq<Byte>, body: seq<Byte>, ks: seq<seq<Byte>>)
    requires PosOk(Size([], ks)) && 0 < |v| < TWO31 && ReadLine(v) == Some((Line(ks), []))
    requires CString(Line(ks)) == Line(ks) != []
    requires SizeOf(Line(ks)) == Some(if ks == [] then 0 else |ks[0]|)
    ensures Read(Reading(-1, v, body)) == Cut(ks, body)
  {
    hide Message, SizeOf, CString, ReadLine, Line;
  }

  /** A size line that is complete but for its line feed: the line is taken, and the line feed is left for the data. */
  lemma {:induction false} AtCutLine(ks: seq<seq<Byte>>, body: seq<Byte>)
    requires PosOk(Size([], ks)) && |Line(ks)| + 1 < TWO31
    ensures |Line(ks)| + 1 < |Rest(Size([], ks))|
    ensures Read(Hold(Size([], ks), |Line(ks)| + 1, body)) == Cut(ks, body)
  {
    hide Message, SizeOf, CString, Line, Read;
    Starts(ks);
    LineDigits(ks);
    var b, l := Rest(Size([], ks)), Line(ks);
    assert b == Message(ks);
    var v := b[..|l| + 1];
    assert v == b[..|l| + 2][..|l| + 1];
    assert v == l + [CR];
    CutLine(l);
    ReadCut(v, body, ks);
  }

  lemma {:induction false} LateBytes(l: seq<Byte>, k: seq<Byte>, m: seq<Byte>)
    requires [LF] + k == k + [LF]
    ensures (l + CRLF + (k + (CRLF + m)))[|l| + 1..] == k + (LATE + m)
  {
    assert LATE == [LF] + CRLF && CRLF == [CR] + [LF];
    assert (l + CRLF + (k + (CRLF + m)))[|l| + 1..] == [LF] + k + CRLF + m;
    assert k + [LF] + CRLF + m == k + (LATE + m);
  }

  lemma {:induction false} LateRest(ks: seq<seq<Byte>>)
    requires ks != [] && LineFeeds(ks[0])
    ensures |Line(ks)| + 1 <= |Rest(Size([], ks))| && Rest(Size([], ks))[|Line(ks)| + 1..] == Rest(Data(LATE, ks))
  {
    hide Message, Line;
    MessageIs(ks);
    var l, k, m := Line(ks), ks[0], Message(ks[1..]);
    assert [LF] + k == k + [LF];
    LateBytes(l, k, m);
    assert Rest(Size([], ks)) == [] + Message(ks) == Message(ks);
  }

  lemma {:induction false} SafeLate(ks: seq<seq<Byte>>)
    requires ks != [] && LineFeeds(ks[0])
    ensures forall m :: m > |Line(ks)| ==> (Safe(Size([], ks), m) <==> Safe(Data(LATE, ks), m - |Line(ks)| - 1))
  {
    hide Line, LineFeeds;
    var h, k := |Line(ks)|, |ks[0]|;
    SafeData(CRLF, ks);
    SafeData(LATE, ks);
    SafeLater(LATE, ks[1..], 1);
    assert LATE[1..] == CRLF;
    Starts(ks[1..]);
    forall m | m > h ensures Safe(Size([], ks), m) <==> Safe(Data(LATE, ks), m - h - 1) {
      if m > h + 1 && m - h - 2 >= k {
        assert Safe(Data(CRLF, ks), m - h - 2) <==> Safe(Size(CRLF, ks[1..]), m - h - 2 - k);
        assert Safe(Size(LATE, ks[1..]), m - h - 1 - k) <==> Safe(Size(CRLF, ks[1..]), m - h - 2 - k);
      }
    }
  }

  /** For a chunk of line feeds it does not matter which of them comes first. */
  lemma {:induction false} CutLeads(ks: seq<seq<Byte>>)
    requires PosOk(Size([], ks)) && ks != [] && LineFeeds(ks[0])
    ensures Leads(Size([], ks), |Line(ks)| + 1, Data(LATE, ks), 0)
  {
    hide Safe, Rest, LineFeeds, Line;
    LateRest(ks);
    SafeLate(ks);
  }

  // ----- a call on what is at hand -----

  /** What a call achieves at a safe cut: it reads on to a later position, or to the end of the message. */
  ghost predicate Reads(pos: Pos, n: nat, body: seq<Byte>, r: (Reading, int), pos': Pos, n': nat)
    requires PosOk(pos) && n <= |Rest(pos)|
  {
    if r.1 == 1 then
      && r.0.body == body + Body(pos.ks) && n + 2 >= |Rest(pos)| && r.0.buf == CRLF[..n + 2 - |Rest(pos)|]
      && forall m :: n <= m ==> Safe(pos, m)
    else
      && r.1 == 0 && Leads(pos, n, pos', n') && n' < |Rest(pos')| && r.0 == Hold(pos', n', r.0.body)
      && r.0.body + Body(pos'.ks) == body + Body(pos.ks)
  }

  /** What it does at any other cut: it takes a size line for complete, and its line feed is still to come. */
  ghost predicate Strays(pos: Pos, n: nat, body: seq<Byte>, r: (Reading, int), pos': Pos)
    requires PosOk(pos) && n <= |Rest(pos)|
  {
    && pos'.Size? && pos'.p == [] && Leads(pos, n, pos', |Line(pos'.ks)| + 1)
    && r == Cut(pos'.ks, r.0.body) && r.0.body + Body(pos'.ks) == body + Body(pos.ks)
  }

  ghost predicate Outcome(pos: Pos, n: nat, body: seq<Byte>, r: (Reading, int), pos': Pos, n': nat)
    requires PosOk(pos) && n <= |Rest(pos)|
  {
    if Safe(pos, n) then Reads(pos, n, body, r, pos', n') else Strays(pos, n, body, r, pos')
  }

  lemma {:induction false} OutcomeAfter(a: Pos, n: nat, body: seq<Byte>, b: Pos, n1: nat, body1: seq<Byte>,
                                        r: (Reading, int), c: Pos, n2: nat)
    requires Leads(a, n, b, n1) && Outcome(b, n1, body1, r, c, n2) && body1 + Body(b.ks) == body + Body(a.ks)
    ensures Outcome(a, n, body, r, c, n2)
  {
    hide Rest, Safe, Body, Line;
    assert Safe(a, n) <==> Safe(b, n - (n - n1));
    if !Safe(a, n) {
      LeadsTrans(a, n, b, n1, c, |Line(c.ks)| + 1);
    } else if r.1 == 1 {
      forall m | n <= m ensures Safe(a, m) { assert Safe(a, m) <==> Safe(b, m - (n - n1)); }
    } else {
      LeadsTrans(a, n, b, n1, c, n2);
    }
    assert |Rest(b)| == |Rest(a)| - (n - n1);
  }

  lemma {:induction false} Stay(pos: Pos, n: nat, body: seq<Byte>)
    requires PosOk(pos) && n < |Rest(pos)|
    ensures Reads(pos, n, body, (Hold(pos, n, body), 0), pos, n)
  {
    assert Rest(pos)[0..] == Rest(pos);
  }

  /** A call that needs more bytes. */
  lemma {:induction false} StayHere(pos: Pos, n: nat, body: seq<Byte>)
    requires PosOk(pos) && n < |Rest(pos)|
    requires (if pos.Data? then n <= |pos.ks[0]| else n == 0 || (pos.p == [] && n <= |Line(pos.ks)|))
    ensures Outcome(pos, n, body, (Hold(pos, n, body), 0), pos, n)
  {
    hide Rest, Line, Reads;
    Stay(pos, n, body);
  }

  lemma {:induction false} LeadsSelf(pos: Pos, n: nat)
    requires PosOk(pos) && n <= |Rest(pos)|
    ensures Leads(pos, n, pos, n)
  {
    hide Rest, Safe;
    assert Rest(pos)[0..] == Rest(pos);
  }

  lemma {:induction false} DataLonger(p: seq<Byte>, ks: seq<seq<Byte>>)
    requires ks != []
    ensures |Rest(Data(p, ks))| > |ks[0]|
  {
    Starts(ks[1..]);
  }

  lemma {:induction false} ReadsCut(ks: seq<seq<Byte>>, body: seq<Byte>) returns (pos': Pos, n': nat)
    requires PosOk(Size([], ks)) && |Line(ks)| + 1 <= |Rest(Size([], ks))| && |Line(ks)| + 1 < TWO31
    ensures Outcome(Size([], ks), |Line(ks)| + 1, body, Read(Hold(Size([], ks), |Line(ks)| + 1, body)), pos', n')
  {
    hide Read, Message, Leads, Rest, Body, LineFeeds;
    var pos, n := Size([], ks), |Line(ks)| + 1;
    AtCutLine(ks, body);
    if ks != [] && LineFeeds(ks[0]) {
      pos', n' := Data(LATE, ks), 0;
      CutLeads(ks);
      DataLonger(LATE, ks);
      assert Hold(pos', 0, body) == Reading(|ks[0]|, [], body);
    } else {
      pos', n' := pos, n;
      LeadsSelf(pos, n);
    }
  }

  lemma {:induction false} LastReads(n: nat, body: seq<Byte>)
    requires 3 <= n <= |Rest(Size([], []))|
    ensures Outcome(Size([], []), n, body, (Reading(0, Rest(Size([], []))[..n][3..], body), 1), Size([], []), n)
  {
    var b := Rest(Size([], []));
    assert b == LAST && |b| == 5 && b[3..] == CRLF;
    assert b[..n][3..] == b[3..][..n - 3];
  }

  lemma {:induction false} LeadsRest(a: Pos, n: nat, b: Pos, n1: nat)
    requires Leads(a, n, b, n1)
    ensures PosOk(b) && n1 <= |Rest(b)| <= |Rest(a)|
  {
    hide Rest, Safe;
  }

  lemma {:induction false} SizeLonger(p: seq<Byte>, ks: seq<seq<Byte>>)
    ensures |Rest(Size(p, ks))| > 0
  {
    Starts(ks);
  }

  lemma {:induction false} ReadNothing(pos: Pos, body: seq<Byte>)
    requires PosOk(pos)
    ensures Read(Hold(pos, 0, body)) == (Hold(pos, 0, body), 0)
  {
    hide Rest, ReadLine, SizeOf, StrToLL, CString;
    assert Rest(pos)[..0] == [];
  }

  lemma {:induction false} BodyMore(body: seq<Byte>, ks: seq<seq<Byte>>)
    requires ks != []
    ensures body + ks[0] + Body(ks[1..]) == body + Body(ks)
  {
  }

  lemma {:induction false} ReadsLine(ks: seq<seq<Byte>>, n: nat, body: seq<Byte>) returns (pos': Pos, n': nat)
    requires PosOk(Size([], ks)) && |Line(ks)| + 2 <= n <= |Rest(Size([], ks))| && n < TWO31
    ensures Outcome(Size([], ks), n, body, Read(Hold(Size([], ks), n, body)), pos', n')
    decreases n, 0
  {
    hide Read, Message, Leads, Reads, Outcome;
    var pos, k := Size([], ks), |Line(ks)| + 2;
    AtLine(ks, n, body);
    pos', n' := pos, n;
    if ks == [] {
      LastReads(n, body);
    } else {
      LineLeads(ks, n);
      LeadsRest(pos, n, Data(CRLF, ks), n - k);
      pos', n' := ReadsOn(Data(CRLF, ks), n - k, body);
      OutcomeAfter(pos, n, body, Data(CRLF, ks), n - k, body, Read(Hold(pos, n, body)), pos', n');
    }
  }

  /** One call, at any cut. */
  lemma {:induction false} ReadsOn(pos: Pos, n: nat, body: seq<Byte>) returns (pos': Pos, n': nat)
    requires PosOk(pos) && n <= |Rest(pos)| && n < TWO31
    ensures Outcome(pos, n, body, Read(Hold(pos, n, body)), pos', n')
    decreases n
  {
    hide Rest, Read, Message, Leads, Reads, Outcome;
    pos', n' := pos, n;
    match pos
    case Data(p, ks) =>
      AtData(p, ks, n, body);
      if n < |ks[0]| {
        DataLonger(p, ks);
        StayHere(pos, n, body);
      } else {
        var next, k := Size(p, ks[1..]), n - |ks[0]|;
        LeadsRest(pos, n, next, k);
        pos', n' := ReadsOn(next, k, body + ks[0]);
        BodyMore(body, ks);
        OutcomeAfter(pos, n, body, next, k, body + ks[0], Read(Hold(pos, n, body)), pos', n');
      }
    case Size(p, ks) =>
      if n == 0 {
        SizeLonger(p, ks);
        ReadNothing(pos, body);
        StayHere(pos, n, body);
      } else if p != [] {
        var k := Taken(p, n);
        AtLineEnd(p, ks, n, body);
        LeadsRest(pos, n, Size(p[k..], ks), n - k);
        pos', n' := ReadsOn(Size(p[k..], ks), n - k, body);
        OutcomeAfter(pos, n, body, Size(p[k..], ks), n - k, body, Read(Hold(pos, n, body)), pos', n');
      } else if n <= |Line(ks)| {
        AtPartialLine(ks, n, body);
        StayHere(pos, n, body);
      } else if n == |Line(ks)| + 1 {
        pos', n' := ReadsCut(ks, body);
      } else {
        pos', n' := ReadsLine(ks, n, body);
      }
  }

  // ----- any fragmentation -----

  function Concat(fs: seq<seq<Byte>>): seq<Byte> {
    if fs == [] then [] else fs[0] + Concat(fs[1..])
  }

  /** The connection reads fragment after fragment until the message is complete or corrupted. */
  function Feed(s: Reading, fs: seq<seq<Byte>>): (Reading, int, seq<seq<Byte>>)
    decreases |fs|
  {
    if fs == [] then (s, 0, [])
    else
      var r := Read(s.(buf := s.buf + fs[0]));
      if r.1 != 0 then (r.0, r.1, fs[1..]) else Feed(r.0, fs[1..])
  }

  /** No call finds 2^31 bytes or more in the buffer: the loop keeps the length in an int. */
  predicate CallsFit(s: Reading, fs: seq<seq<Byte>>)
    decreases |fs|
  {
    fs != [] ==>
      var r := Read(s.(buf := s.buf + fs[0]));
      |s.buf| + |fs[0]| < TWO31 && (r.1 == 0 ==> CallsFit(r.0, fs[1..]))
  }

  /** No call leaves more in the buffer than it found. */
  lemma {:induction false} ReadShrinks(s: Reading)
    ensures |Read(s).0.buf| <= |s.buf|
    decreases |s.buf|, s.ntoread + 1
  {
    hide LineEnd, CString, SizeOf, StrToLL;
    if IntLength(|s.buf|) <= 0 {
    } else if s.ntoread < 0 {
      var line := ReadLine(s.buf);
      if line.Some? {
        var s1 := s.(buf := line.value.1);
        var text := CString(line.value.0);
        if text == [] {
          ReadShrinks(s1);
        } else if SizeOf(text).Some? && SizeOf(text).value != 0 {
          ReadShrinks(s1.(ntoread := SizeOf(text).value));
        }
      }
    } else if IntLength(|s.buf|) >= s.ntoread {
      ReadShrinks(Reading(-1, s.buf[s.ntoread..], s.body + s.buf[..s.ntoread]));
    }
  }

  /** That is so for every stream of less than 2^31 bytes, in any fragments. */
  lemma {:induction false} ShortStream(s: Reading, fs: seq<seq<Byte>>)
    requires |s.buf| + |Concat(fs)| < TWO31
    ensures CallsFit(s, fs)
    decreases |fs|
  {
    hide Read;
    if fs != [] {
      var s1 := s.(buf := s.buf + fs[0]);
      ReadShrinks(s1);
      ShortStream(Read(s1).0, fs[1..]);
    }
  }

  /** After `n` bytes the stream goes on in these fragments, and every cut is safe. */
  predicate SafeCuts(pos: Pos, n: nat, fs: seq<seq<Byte>>)
    requires pos.Data? ==> pos.ks != []
    decreases |fs|
  {
    fs != [] ==> Safe(pos, n + |fs[0]|) && SafeCuts(pos, n + |fs[0]|, fs[1..])
  }

  lemma {:induction false} CutsLead(a: Pos, n: nat, b: Pos, n1: nat, fs: seq<seq<Byte>>, m: nat)
    requires Leads(a, n, b, n1) && m >= n
    ensures SafeCuts(a, m, fs) <==> SafeCuts(b, m - (n - n1), fs)
    decreases |fs|
  {
    hide Rest, Safe;
    if fs != [] {
      assert Safe(a, m + |fs[0]|) <==> Safe(b, m + |fs[0]| - (n - n1));
      CutsLead(a, n, b, n1, fs[1..], m + |fs[0]|);
    }
  }

  lemma {:induction false} CutsEnd(pos: Pos, n: nat, fs: seq<seq<Byte>>)
    requires PosOk(pos) && forall m :: n <= m ==> Safe(pos, m)
    ensures SafeCuts(pos, n, fs)
    decreases |fs|
  {
    hide Safe;
    if fs != [] { CutsEnd(pos, n + |fs[0]|, fs[1..]); }
  }

  /** The message is over, the body is this, and only the final line end is left. */
  predicate Complete(r: (Reading, int, seq<seq<Byte>>), body: seq<Byte>) {
    r.1 == 1 && r.0.body == body && r.0.buf + Concat(r.2) == CRLF
  }

  lemma {:induction false} NoFragments()
    ensures Concat([]) == []
  {
  }

  /** The next fragment joins what is at hand. */
  lemma {:induction false} Arrives(pos: Pos, n: nat, body: seq<Byte>, fs: seq<seq<Byte>>)
    requires PosOk(pos) && n < |Rest(pos)| && fs != [] && Rest(pos)[..n] + Concat(fs) == Rest(pos)
    ensures n + |fs[0]| <= |Rest(pos)| && Rest(pos)[..n] + fs[0] == Rest(pos)[..n + |fs[0]|]
    ensures Rest(pos)[..n + |fs[0]|] + Concat(fs[1..]) == Rest(pos)
    ensures Hold(pos, n, body).(buf := Hold(pos, n, body).buf + fs[0]) == Hold(pos, n + |fs[0]|, body)
  {
    hide Rest;
    var b, m := Rest(pos), n + |fs[0]|;
    assert b == (b[..n] + fs[0]) + Concat(fs[1..]);
    assert |b| == n + |fs[0]| + |Concat(fs[1..])|;
    assert b[..m] == b[..n] + fs[0];
  }

  lemma {:induction false} LastTwo(a: seq<Byte>, m: seq<Byte>)
    requires |m| >= 2
    ensures |a + m| >= 2 && (a + m)[|a + m| - 2..] == m[|m| - 2..]
  {
  }

  lemma {:induction false} MessageEnds(ks: seq<seq<Byte>>)
    ensures |Message(ks)| >= 2 && Message(ks)[|Message(ks)| - 2..] == CRLF
  {
    if ks != [] {
      MessageEnds(ks[1..]);
      var b := Message(ks);
      assert b == Chunk(ks[0]) + Message(ks[1..]);
      assert b[|b| - 2..] == Message(ks[1..])[|Message(ks[1..])| - 2..];
    }
  }

  lemma {:induction false} EndsWithCRLF(pos: Pos)
    requires PosOk(pos)
    ensures |Rest(pos)| >= 2 && Rest(pos)[|Rest(pos)| - 2..] == CRLF
  {
    hide Message;
    if pos.Size? {
      MessageEnds(pos.ks);
      LastTwo(pos.p, Message(pos.ks));
    } else {
      MessageEnds(pos.ks[1..]);
      LastTwo(pos.p, Message(pos.ks[1..]));
      LastTwo(pos.ks[0], pos.p + Message(pos.ks[1..]));
    }
  }

  lemma {:induction false} FinalLeft(pos: Pos, m: nat, body: seq<Byte>, r: (Reading, int), pos': Pos, n': nat,
                                     fs: seq<seq<Byte>>)
    requires PosOk(pos) && m <= |Rest(pos)| && Reads(pos, m, body, r, pos', n') && r.1 == 1
    requires Rest(pos)[..m] + Concat(fs) == Rest(pos)
    ensures r.0.buf + Concat(fs) == CRLF && r.0.body == body + Body(pos.ks) && SafeCuts(pos, m, fs)
  {
    hide Body, Rest, Concat, Safe;
    var b, more := Rest(pos), Concat(fs);
    var k := |b| - 2;
    EndsWithCRLF(pos);
    CutsEnd(pos, m, fs);
    assert more == b[m..];
    assert b[m..] == b[k..][m - k..];
    assert CRLF[..m - k] + CRLF[m - k..] == CRLF;
  }

  /** As long as the message is not complete there are fragments to come. */
  lemma {:induction false} StillReads(pos: Pos, m: nat, body: seq<Byte>, r: (Reading, int), pos': Pos, n': nat,
                                      fs: seq<seq<Byte>>)
    requires PosOk(pos) && m <= |Rest(pos)| && Reads(pos, m, body, r, pos', n') && r.1 != 1
    requires Rest(pos)[..m] + Concat(fs) == Rest(pos)
    ensures PosOk(pos') && n' < |Rest(pos')| && r.1 == 0 && r.0 == Hold(pos', n', r.0.body)
    ensures Rest(pos')[..n'] + Concat(fs) == Rest(pos') && (SafeCuts(pos, m, fs) <==> SafeCuts(pos', n', fs))
    ensures r.0.body + Body(pos'.ks) == body + Body(pos.ks)
  {
    hide Rest, Safe, Body;
    CutsLead(pos, m, pos', n', fs, m);
    var b, c := Rest(pos), m - n';
    assert Concat(fs) == b[m..];
    assert b[c..][..n'] + b[m..] == b[c..];
  }

  lemma {:induction false} PlainRest(ks: seq<seq<Byte>>)
    ensures Rest(Size([], ks)) == Message(ks)[..]
  {
  }

  lemma {:induction false} LeadsSafe(pos: Pos, m: nat, pos': Pos, h: nat)
    requires Leads(pos, m, pos', h) && pos'.Size? && pos'.p == [] && h == |Line(pos'.ks)| + 1 && !Safe(pos, m)
    ensures pos'.ks != [] ==> !LineFeeds(pos'.ks[0])
    ensures h <= m <= |Rest(pos)| && Rest(pos') == Rest(pos)[m - h..] && PosOk(pos')
  {
    hide Rest, Line;
    assert Safe(pos, m) <==> Safe(pos', m - (m - h));
  }

  lemma {:induction false} Waits(s: Reading)
    requires 0 <= |s.buf| < s.ntoread < TWO31
    ensures Read(s) == (s, 0)
  {
  }

  // ----- what comes of a cut that is not safe -----

  ghost predicate Prefix(a: seq<Byte>, b: seq<Byte>) {
    |a| <= |b| && b[..|a|] == a
  }

  lemma {:induction false} PrefixTrans(a: seq<Byte>, b: seq<Byte>, c: seq<Byte>)
    requires Prefix(a, b) && Prefix(b, c)
    ensures Prefix(a, c)
  {
    assert c[..|a|] == c[..|b|][..|a|];
  }

  /** The body only grows. */
  lemma {:induction false} ReadGrows(s: Reading)
    ensures Prefix(s.body, Read(s).0.body)
    decreases |s.buf|, s.ntoread + 1
  {
    hide LineEnd, CString, SizeOf, StrToLL;
    if IntLength(|s.buf|) <= 0 {
    } else if s.ntoread < 0 {
      var line := ReadLine(s.buf);
      if line.Some? {
        var s1 := s.(buf := line.value.1);
        var text := CString(line.value.0);
        if text == [] {
          ReadGrows(s1);
        } else if SizeOf(text).Some? && SizeOf(text).value != 0 {
          ReadGrows(s1.(ntoread := SizeOf(text).value));
        }
      }
    } else if IntLength(|s.buf|) >= s.ntoread {
      var s1 := Reading(-1, s.buf[s.ntoread..], s.body + s.buf[..s.ntoread]);
      ReadGrows(s1);
      assert Prefix(s.body, s1.body);
      PrefixTrans(s.body, s1.body, Read(s1).0.body);
    }
  }

  lemma {:induction false} Takes(s: Reading)
    requires 0 < s.ntoread <= |s.buf| < TWO31
    ensures Prefix(s.body + s.buf[..s.ntoread], Read(s).0.body)
  {
    hide Prefix;
    ReadGrows(Reading(-1, s.buf[s.ntoread..], s.body + s.buf[..s.ntoread]));
    assert IntLength(|s.buf|) == |s.buf|;
  }

  lemma {:induction false} FeedGrows(s: Reading, fs: seq<seq<Byte>>)
    ensures Prefix(s.body, Feed(s, fs).0.body)
    decreases |fs|
  {
    hide Read;
    if fs == [] {
      assert s.body[..|s.body|] == s.body;
    } else {
      var s1 := s.(buf := s.buf + fs[0]);
      ReadGrows(s1);
      if Read(s1).1 == 0 {
        FeedGrows(Read(s1).0, fs[1..]);
        PrefixTrans(s.body, Read(s1).0.body, Feed(s, fs).0.body);
      }
    }
  }

  /** With a chunk to come, the next bytes of the stream go to the body, or the message does not end. */
  lemma {:induction false} TakesNext(s: Reading, fs: seq<seq<Byte>>)
    requires 0 <= |s.buf| < s.ntoread <= |s.buf + Concat(fs)| && s.ntoread < TWO31 && CallsFit(s, fs)
    ensures Feed(s, fs).1 == 1 ==> Prefix(s.body + (s.buf + Concat(fs))[..s.ntoread], Feed(s, fs).0.body)
    decreases |fs|
  {
    hide Read, Prefix;
    if fs != [] {
      var b, s1 := s.buf + Concat(fs), s.(buf := s.buf + fs[0]);
      assert b == s1.buf + Concat(fs[1..]);
      if |s1.buf| < s.ntoread {
        Waits(s1);
        TakesNext(s1, fs[1..]);
      } else {
        assert s1.buf[..s.ntoread] == b[..s.ntoread];
        Takes(s1);
        var r := Read(s1);
        FeedGrows(r.0, fs[1..]);
        if r.1 == 0 { PrefixTrans(s.body + b[..s.ntoread], r.0.body, Feed(s, fs).0.body); }
      }
    }
  }

  /** A chunk is its own shift by one line feed only if it has nothing else. */
  lemma {:induction false} ShiftedFeeds(k: seq<Byte>)
    requires ([LF] + k)[..|k|] == k
    ensures LineFeeds(k)
  {
    var i := 0;
    while i < |k|
      invariant 0 <= i <= |k| && forall j :: 0 <= j < i ==> k[j] == LF
    {
      assert k[i] == ([LF] + k)[..|k|][i];
      i := i + 1;
    }
  }

  lemma {:induction false} WrongBody(s: Reading, fs: seq<seq<Byte>>, ks: seq<seq<Byte>>, body: seq<Byte>)
    requires ks != [] && ks[0] != [] && s.ntoread == |ks[0]| && s.buf == [] && s.body + Body(ks) == body
    requires !LineFeeds(ks[0])
    requires |ks[0]| < |Concat(fs)| && Concat(fs)[..|ks[0]| + 1] == [LF] + ks[0]
    requires |ks[0]| < TWO31 && CallsFit(s, fs)
    ensures !Complete(Feed(s, fs), body)
  {
    hide Feed, Concat, LineFeeds;
    var k := ks[0];
    assert s.buf + Concat(fs) == Concat(fs);
    TakesNext(s, fs);
    var got := Concat(fs)[..|k|];
    assert got == Concat(fs)[..|k| + 1][..|k|] == ([LF] + k)[..|k|];
    if Complete(Feed(s, fs), body) {
      assert body[..|s.body + got|] == s.body + got;
      assert body == s.body + k + Body(ks[1..]);
      assert got == body[..|s.body| + |k|][|s.body|..] == k;
      ShiftedFeeds(k);
    }
  }

  /** What comes after a size line cut before its line feed. */
  lemma {:induction false} AfterCut(ks: seq<seq<Byte>>)
    ensures var b := Message(ks)[..]; var h := |Line(ks)| + 1;
      && h < |b| && |b[h..]| >= 3 && (ks != [] ==> |b[h..]| > |ks[0]| && b[h..][..|ks[0]| + 1] == [LF] + ks[0])
  {
    hide Hex;
    if ks == [] {
      assert Message(ks) == LAST;
    } else {
      hide Message;
      MessageIs(ks);
      var h, k := |Line(ks)|, ks[0];
      var b := Message(ks);
      assert b == Line(ks) + CRLF + (k + (CRLF + Message(ks[1..])));
      assert b[h + 1..] == ([LF] + k) + (CRLF + Message(ks[1..]));
    }
  }

  lemma {:induction false} Astray(pos: Pos, m: nat, body: seq<Byte>, r: (Reading, int), pos': Pos, fs: seq<seq<Byte>>)
    requires PosOk(pos) && m <= |Rest(pos)| && !Safe(pos, m) && Strays(pos, m, body, r, pos')
    requires r.1 == 0 ==> CallsFit(r.0, fs)
    requires Rest(pos)[..m] + Concat(fs) == Rest(pos)
    ensures r.1 in {0, 1}
    ensures r.1 == 1 ==> |r.0.buf + Concat(fs)| != 2
    ensures r.1 == 0 ==> !Complete(Feed(r.0, fs), body + Body(pos.ks))
  {
    hide Rest, Feed, Concat;
    var ks := pos'.ks;
    var h := |Line(ks)| + 1;
    LeadsSafe(pos, m, pos', h);
    var b := Rest(pos);
    assert Concat(fs) == b[m..];
    assert b[m..] == b[m - h..][h..] == Rest(pos')[h..];
    PlainRest(ks);
    AfterCut(ks);
    hide Safe, Strays;
    if ks != [] {
      WrongBody(r.0, fs, ks, body + Body(pos.ks));
    }
  }

  lemma {:induction false} FeedReads(pos: Pos, n: nat, body: seq<Byte>, fs: seq<seq<Byte>>)
    requires PosOk(pos) && n < |Rest(pos)| && Rest(pos)[..n] + Concat(fs) == Rest(pos)
    requires CallsFit(Hold(pos, n, body), fs)
    ensures Complete(Feed(Hold(pos, n, body), fs), body + Body(pos.ks)) <==> SafeCuts(pos, n, fs)
    decreases |fs|
  {
    hide Rest, Safe, Body, Read, Leads, Reads, Strays, Concat, IntLength;
    if fs == [] {
      assert Concat(fs) == [] by { NoFragments(); }
    } else {
      var m := n + |fs[0]|;
      Arrives(pos, n, body, fs);
      var pos', n' := ReadsOn(pos, m, body);
      var r := Read(Hold(pos, m, body));
      if !Safe(pos, m) {
        Astray(pos, m, body, r, pos', fs[1..]);
      } else if r.1 == 1 {
        FinalLeft(pos, m, body, r, pos', n', fs[1..]);
      } else {
        assert Reads(pos, m, body, r, pos', n');
        StillReads(pos, m, body, r, pos', n', fs[1..]);
        FeedReads(pos', n', r.0.body, fs[1..]);
      }
    }
  }

  /**
    Any list of non-empty chunks, sent as a message and received in any fragments, is read completely (the body is
    the chunks in order, and only the final line end is left) if and only if no cut is between CR and LF of a size
    line, the size lines of chunks made of line feeds only excepted. The message may have any length.
   */
  lemma {:induction false} ChunksReadBack(chunks: seq<seq<Byte>>, fs: seq<seq<Byte>>)
    requires (forall i :: 0 <= i < |chunks| ==> 0 < |chunks[i]| < TWO31)
    requires Concat(fs) == Message(chunks) && CallsFit(Reading(-1, [], []), fs)
    ensures Complete(Feed(Reading(-1, [], []), fs), Body(chunks)) <==> SafeCuts(Size([], chunks), 0, fs)
  {
    hide Message, SafeCuts, Concat, Body, Complete;
    var pos := Size([], chunks);
    Starts(chunks);
    assert Rest(pos) == Message(chunks);
    assert Rest(pos)[..0] + Concat(fs) == Rest(pos);
    FeedReads(pos, 0, [], fs);
    assert Hold(pos, 0, []) == Reading(-1, [], []);
    assert [] + Body(chunks) == Body(chunks);
  }

  /** An empty chunk would be taken for the end of the message. */
  lemma {:induction false} EmptyChunkEnds()
    ensures Chunk([]) == LAST
  {
    assert Hex(0) == [48];
  }

  /** Where the message with the one chunk "a" is cut: between CR and LF of its size line. */
  const HEAD: seq<Byte> := [49, CR]

  const TAIL: seq<Byte> := [LF, 97, CR, LF, 48, CR, LF, CR, LF]

  lemma {:induction false} CutMessage()
    ensures Message([[97]]) == HEAD + TAIL && Body([[97]]) == [97]
  {
    assert Hex(1) == [49];
    var ks: seq<seq<Byte>> := [[97]];
    assert ks[1..] == [] && ks[0] == [97];
  }

  lemma {:induction false} FirstCut()
    ensures Read(Reading(-1, HEAD, [])) == (Reading(1, [], []), 0)
  {
    hide SizeOf, LineEnd, CString;
    var b: seq<Byte> := [49, CR];
    assert Hex(1) == [49];
    SizeReadBack(1);
    LineEndIs(b, 1);
    assert b[..1] == [49] && b[2..] == [];
  }

  lemma {:induction false} SecondCut()
    ensures Read(Reading(1, TAIL, [])) == (Reading(10, [48, CR, LF, CR, LF], [LF]), 0)
  {
    hide SizeOf, LineEnd, CString;
    var b: seq<Byte> := [97, CR, LF, 48, CR, LF, CR, LF];
    assert TAIL[0] == LF;
    assert TAIL[1..] == b;
    assert TAIL[..1] == [LF];
    var s := Reading(-1, b, [LF]);
    assert [] + TAIL[..1] == [LF];
    assert Read(Reading(1, TAIL, [])) == Read(s);
    assert Hex(10) == [97];
    SizeReadBack(10);
    LineEndIs(b, 1);
    assert b[..1] == [97] && b[3..] == [48, CR, LF, CR, LF];
    assert ReadLine(b) == Some(([97], [48, CR, LF, CR, LF]));
    assert Read(s) == Read(Reading(10, [48, CR, LF, CR, LF], [LF]));
  }

  /** Cut there, the chunk is read as a line feed, and the message never ends. */
  lemma {:induction false} UnsafeCut()
    ensures Message([[97]]) == HEAD + TAIL && Body([[97]]) == [97]
    ensures Feed(Reading(-1, [], []), [HEAD, TAIL]) == (Reading(10, [48, CR, LF, CR, LF], [LF]), 0, [])
  {
    hide Read;
    CutMessage();
    FirstCut();
    SecondCut();
    var s := Reading(1, [], []);
    assert [] + HEAD == HEAD && [] + TAIL == TAIL;
    assert [HEAD, TAIL][1..] == [TAIL] && [TAIL][1..] == [];
    assert Feed(s, [TAIL]) == Feed(Read(Reading(1, TAIL, [])).0, []);
  }

  // ----- the code on buffers -----

  lemma {:induction false} Halves(s: seq<Byte>, a: seq<Byte>, b: seq<Byte>)
    requires s == a + b
    ensures s[..|a|] == a && s[|a|..] == b
  {
  }

  lemma {:induction false} SizeIs(line: seq<Byte>)
    ensures SizeOf(line).Some? ==> SizeOf(line).value == StrToLL(line).0
  {
  }

  /** The part of `struct evhttp_request` that reading a chunked body uses. */
  class Request {
    var ntoread: int
    const inputBuffer: Buffer

    constructor ()
      ensures ntoread == -1 && fresh(inputBuffer) && fresh(inputBuffer.data) && inputBuffer.Valid()
      ensures inputBuffer.Contents() == []
    {
      ntoread := -1;
      inputBuffer := new Buffer();
    }

    ghost function Value(buf: Buffer): Reading
      reads this, buf, buf.data, inputBuffer, inputBuffer.data
      requires buf.Valid() && inputBuffer.Valid()
    {
      Reading(ntoread, buf.Contents(), inputBuffer.Contents())
    }

    /** The bytes of the chunk leave the connection's buffer. */
    method TakeData(buf: Buffer) returns (bytes: seq<Byte>)
      requires buf.Valid() && 0 <= ntoread <= |buf.Contents()|
      modifies buf`misalign, buf`off
      ensures buf.Valid() && bytes == old(buf.Contents()[..ntoread])
      ensures buf.Contents() == old(buf.Contents()[ntoread..])
    {
      hide Capacity, Buffer.Contents;
      ghost var was := buf.Contents();
      bytes := buf.Remove(ntoread);
      Halves(was, bytes, buf.Contents());
    }

    /** A completed chunk moves to the body. */
    method TakeChunk(buf: Buffer)
      requires buf.Valid() && inputBuffer.Valid() && buf != inputBuffer && buf.data != inputBuffer.data
      requires 0 <= ntoread <= |buf.Contents()|
      modifies this, buf`misalign, buf`off, inputBuffer, inputBuffer.data
      ensures buf.Valid() && inputBuffer.Valid() && buf.data != inputBuffer.data
      ensures inputBuffer.data == old(inputBuffer.data) || fresh(inputBuffer.data)
      ensures Value(buf) == Reading(-1, old(buf.Contents())[old(ntoread)..],
        old(inputBuffer.Contents()) + old(buf.Contents())[..old(ntoread)])
    {
      hide Capacity, Buffer.Contents;
      var bytes := TakeData(buf);
      var _ := inputBuffer.Add(bytes, true);
      ntoread := -1;
    }

    /** A size line is read: 1 at the last chunk, -1 if it is no number, 2 to go on, 0 if it is not complete. */
    method ReadSize(buf: Buffer) returns (res: int)
      requires buf.Valid() && ntoread < 0 && IntLength(|buf.Contents()|) > 0 && inputBuffer.Valid()
      requires buf != inputBuffer
      modifies this, buf`misalign, buf`off
      ensures buf.Valid() && res in {-1, 0, 1, 2} && (res == 2 ==> |buf.Contents()| < |old(buf.Contents())|)
      ensures Read(old(Value(buf))) == if res == 2 then Read(Value(buf)) else (Value(buf), res)
    {
      hide Capacity, SizeOf, StrToLL, ReadLine, LineEnd;
      var line := buf.Readline(true);
      if line.None? {
        return 0;
      }
      var text := CString(line.value);
      if text == [] {
        return 2;
      }
      ntoread := StrToLL(text).0;
      var size := SizeOf(text);
      SizeIs(text);
      if size.None? {
        return -1;
      }
      return if ntoread == 0 then 1 else 2;
    }

    /** evhttp_handle_chunked_read without a chunk callback. */
    method HandleChunkedRead(buf: Buffer) returns (res: int)
      requires buf.Valid() && inputBuffer.Valid() && buf != inputBuffer && buf.data != inputBuffer.data
      modifies this, buf`misalign, buf`off, inputBuffer, inputBuffer.data
      ensures buf.Valid() && inputBuffer.Valid()
      ensures (inputBuffer.data == old(inputBuffer.data) || fresh(inputBuffer.data))
      ensures (Value(buf), res) == Read(old(Value(buf)))
    {
      hide Capacity, SizeOf, StrToLL, ReadLine, CString;
      while IntLength(buf.off) > 0
        invariant buf.Valid() && inputBuffer.Valid() && buf.data == old(buf.data) && buf.data != inputBuffer.data
        invariant inputBuffer.data == old(inputBuffer.data) || fresh(inputBuffer.data)
        invariant Read(old(Value(buf))) == Read(Value(buf))
        decreases |buf.Contents()|, ntoread + 1
      {
        if ntoread < 0 {
          var r := ReadSize(buf);
          if r != 2 {
            return r;
          }
        } else {
          if IntLength(buf.off) < ntoread {
            return 0;
          }
          TakeChunk(buf);
        }
      }
      return 0;
    }
  }

  /** The size line of a chunk, and its data. */
  method SendHead(output: Buffer, databuf: Buffer)
    requires output.Valid() && databuf.Valid() && output != databuf && output.data != databuf.data
    modifies output, output.data, databuf, databuf.data
    ensures output.Valid() && databuf.Valid() && databuf.Contents() == []
    ensures output.data in {old(output.data), old(databuf.data)} || fresh(output.data)
    ensures databuf.data != output.data
    ensures output.Contents() == old(output.Contents()) + (Hex(|old(databuf.Contents())| % TWO32) + CRLF)
      + old(databuf.Contents())
  {
    hide Capacity, Hex;
    var _ := output.Add(Hex(databuf.off % TWO32) + CRLF, true);
    var _ := AddBuffer(output, databuf, true);
  }

  lemma {:induction false} Assoc(a: seq<Byte>, b: seq<Byte>, c: seq<Byte>, d: seq<Byte>)
    ensures a + b + c + d == a + (b + c + d)
  {
  }

  lemma {:induction false} ChunkParts(was: seq<Byte>, data: seq<Byte>)
    ensures was + (Hex(|data| % TWO32) + CRLF) + data + CRLF == was + Chunk(data)
  {
    hide Hex;
    Assoc(was, Hex(|data| % TWO32) + CRLF, data, CRLF);
  }

  /** evhttp_send_reply_chunk of a chunked reply: the chunk goes to the connection's output. */
  method SendReplyChunk(output: Buffer, databuf: Buffer)
    requires output.Valid() && databuf.Valid() && output != databuf && output.data != databuf.data
    modifies output, output.data, databuf, databuf.data
    ensures output.Valid() && databuf.Valid() && databuf.Contents() == []
    ensures output.Contents() == old(output.Contents()) + Chunk(old(databuf.Contents()))
  {
    hide Capacity, Hex, Chunk;
    ChunkParts(output.Contents(), databuf.Contents());
    SendHead(output, databuf);
    var _ := output.Add(CRLF, true);
  }
}
