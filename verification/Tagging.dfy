/**
  The tagged serialization of event_tagging.c: integers by nibbles, tags by seven bits, and length-prefixed
  payloads.
 */
module Tagging {
  import opened Basics
  import opened EvBuffer

  /** How many of `n` bytes a decoder sees: it keeps the length in an int. */
  function VisibleLength(n: nat): (v: nat)
    ensures v <= n && v < TWO31 && (n < TWO31 ==> v == n)
  {
    if n % TWO32 >= TWO31 then 0 else n % TWO32
  }

  /** What a decoder sees of a buffer. */
  function Visible(b: seq<Byte>): (v: seq<Byte>)
    ensures |b| < TWO31 ==> v == b
    ensures |v| == VisibleLength(|b|) && v == b[..|v|]
  {
    b[..VisibleLength(|b|)]
  }

  // ----- integers -----

  /** The significant nibbles, lowest first. */
  function Nibbles(n: nat): (r: seq<nat>)
    ensures forall i :: 0 <= i < |r| ==> r[i] < 16
  {
    if n == 0 then [] else [n % 16] + Nibbles(n / 16)
  }

  function At(nibbles: seq<nat>, i: nat): nat {
    if i < |nibbles| then nibbles[i] else 0
  }

  /** Byte `j` of an encoding: nibble `i` stands at half-byte `i + 1`, the first half-byte is the header. */
  function Packed(header: nat, nibbles: seq<nat>, j: nat): (r: Byte)
    requires header < 16 && forall i :: 0 <= i < |nibbles| ==> nibbles[i] < 16
  {
    (if j == 0 then header else At(nibbles, 2 * j - 1)) * 16 + At(nibbles, 2 * j)
  }

  function Header(count: nat): nat {
    if count > 1 then count - 1 else 0
  }

  function Pack(header: nat, nibbles: seq<nat>, len: nat): (r: seq<Byte>)
    requires header < 16 && forall i :: 0 <= i < |nibbles| ==> nibbles[i] < 16
    ensures |r| == len && forall j :: 0 <= j < len ==> r[j] == Packed(header, nibbles, j)
  {
    seq(len, j requires 0 <= j < len => Packed(header, nibbles, j))
  }

  function Pow16(k: nat): nat {
    if k == 0 then 1 else 16 * Pow16(k - 1)
  }

  lemma {:induction false} NibblesCount(n: nat, k: nat)
    requires n < Pow16(k)
    ensures |Nibbles(n)| <= k
  {
    if n > 0 { NibblesCount(n / 16, k - 1); }
  }

  lemma {:induction false} NibblesOf32(n: nat)
    requires n < TWO32
    ensures |Nibbles(n)| <= 8
  {
    assert Pow16(2) == 256 && Pow16(4) == 65536 && Pow16(6) == 16777216 && Pow16(8) == TWO32;
    NibblesCount(n, 8);
  }

  /** encode_int */
  function IntBytes(n: nat): (r: seq<Byte>)
    requires n < TWO32
  {
    NibblesOf32(n);
    var nibbles := Nibbles(n);
    Pack(Header(|nibbles|), nibbles, (|nibbles| + 2) / 2)
  }

  /** Half-byte `p`. */
  function HalfByte(b: seq<Byte>, p: nat): (h: nat)
    requires p / 2 < |b|
    ensures h < 16
  {
    if p % 2 == 0 then b[p / 2] / 16 else b[p / 2] % 16
  }

  /** The number in the half-bytes from `p` to `last`, lowest first. */
  function Number(b: seq<Byte>, p: nat, last: nat): nat
    requires last / 2 < |b|
    decreases last + 1 - p
  {
    if p > last then 0 else HalfByte(b, p) + 16 * Number(b, p + 1, last)
  }

  lemma {:induction false} PowMono(j: nat, k: nat)
    requires j <= k
    ensures Pow16(j) <= Pow16(k)
  {
    if j < k { PowMono(j, k - 1); }
  }

  lemma {:induction false} NumberBound(b: seq<Byte>, p: nat, last: nat)
    requires last / 2 < |b| && 1 <= p && last <= 8
    ensures p <= last ==> Number(b, p, last) < Pow16(last + 1 - p)
    ensures p > last ==> Number(b, p, last) == 0
    ensures Pow16(8) == TWO32 && (1 <= last && p == 1 ==> Number(b, p, last) < TWO32)
    decreases last + 1 - p
  {
    assert Pow16(2) == 256 && Pow16(4) == 65536 && Pow16(6) == 16777216 && Pow16(8) == TWO32;
    if p <= last {
      NumberBound(b, p + 1, last);
      PowMono(last + 1 - p, 8);
    }
  }

  /** decode_int_internal: the number and the length of its encoding. */
  function DecodeInt(b: seq<Byte>): (r: Option<(nat, nat)>)
    ensures r.Some? ==> 0 < r.value.1 <= |b| && r.value.0 < TWO32
  {
    var v := Visible(b);
    if v == [] then None
    else
      var nibbles := v[0] / 16 + 1;
      if nibbles > 8 || nibbles / 2 + 1 > |v| then None
      else
        NumberBound(v, 1, nibbles);
        Some((Number(v, 1, nibbles), nibbles / 2 + 1))
  }

  function ValueOf(nibbles: seq<nat>): nat {
    if nibbles == [] then 0 else nibbles[0] + 16 * ValueOf(nibbles[1..])
  }

  lemma {:induction false} ValueOfNibbles(n: nat)
    ensures ValueOf(Nibbles(n)) == n
  {
    if n > 0 { ValueOfNibbles(n / 16); }
  }

  lemma {:induction false} NumberIs(b: seq<Byte>, nibbles: seq<nat>, p: nat)
    requires 1 <= p <= |nibbles| + 1 && |nibbles| / 2 < |b|
    requires forall q :: 1 <= q <= |nibbles| ==> HalfByte(b, q) == nibbles[q - 1]
    ensures Number(b, p, |nibbles|) == ValueOf(nibbles[p - 1..])
    decreases |nibbles| + 1 - p
  {
    if p <= |nibbles| {
      NumberIs(b, nibbles, p + 1);
      assert nibbles[p - 1..][1..] == nibbles[p..];
    }
  }

  lemma {:induction false} PackedHalf(header: nat, nibbles: seq<nat>, len: nat, q: nat)
    requires header < 16 && (forall i :: 0 <= i < |nibbles| ==> nibbles[i] < 16) && q / 2 < len
    ensures HalfByte(Pack(header, nibbles, len), q) == if q == 0 then header else At(nibbles, q - 1)
  {
    var j := q / 2;
    var hi, lo := if j == 0 then header else At(nibbles, 2 * j - 1), At(nibbles, 2 * j);
    assert (hi * 16 + lo) / 16 == hi && (hi * 16 + lo) % 16 == lo;
  }

  /** An encoding that is cut short is rejected. */
  lemma {:induction false} IntUnseen(n: nat, k: nat)
    requires n < TWO32 && k < |IntBytes(n)|
    ensures DecodeInt(IntBytes(n)[..k]) == None
  {
    hide Number, Nibbles;
    NibblesOf32(n);
    PackedHalf(Header(|Nibbles(n)|), Nibbles(n), |IntBytes(n)|, 0);
    if k > 0 { assert IntBytes(n)[..k][0] == IntBytes(n)[0]; }
  }

  lemma {:induction false} NoNibbles(n: nat)
    requires Nibbles(n) == []
    ensures n == 0
  {
  }

  lemma {:induction false} NumberZero(b: seq<Byte>)
    requires b != [] && HalfByte(b, 1) == 0
    ensures Number(b, 1, 1) == 0
  {
    assert Number(b, 2, 1) == 0;
  }

  lemma {:induction false} IntSeen(n: nat, rest: seq<Byte>)
    requires n < TWO32 && |IntBytes(n) + rest| < TWO31
    ensures DecodeInt(IntBytes(n) + rest) == Some((n, |IntBytes(n)|))
  {
    hide Number, Nibbles, ValueOf;
    NibblesOf32(n);
    var nibbles, b := Nibbles(n), IntBytes(n) + rest;
    var count := |nibbles|;
    var last := if count == 0 then 1 else count;
    forall q | 0 <= q <= last ensures HalfByte(b, q) == if q == 0 then Header(count) else At(nibbles, q - 1) {
      PackedHalf(Header(count), nibbles, (count + 2) / 2, q);
      assert b[q / 2] == IntBytes(n)[q / 2];
    }
    assert b[0] / 16 == HalfByte(b, 0);
    ValueOfNibbles(n);
    if count == 0 {
      NumberZero(b);
      NoNibbles(n);
    } else {
      NumberIs(b, nibbles, 1);
      assert nibbles[0..] == nibbles;
    }
  }

  /** Digit `k` of `n` in base `base`, the lowest first. */
  function DigitOf(n: nat, base: nat, k: nat): nat
    requires base > 0
    decreases k
  {
    if k == 0 then n % base else DigitOf(n / base, base, k - 1)
  }

  /** evtag_encode_tag */
  function TagBytes(tag: nat): (r: seq<Byte>)
    ensures r != []
  {
    if tag < 128 then [tag] else [tag % 128 + 128] + TagBytes(tag / 128)
  }

  /** The format of a tag: its digits in base 128, lowest first, all but the last with the high bit set, and no more. */
  lemma {:induction false} TagFormat(tag: nat, j: nat)
    requires j < |TagBytes(tag)|
    ensures var e := TagBytes(tag);
      && e[j] == DigitOf(tag, 128, j) + (if j < |e| - 1 then 128 else 0)
      && (|e| > 1 ==> e[|e| - 1] != 0)
  {
    if tag >= 128 {
      var e, m := TagBytes(tag), TagBytes(tag / 128);
      assert e[|e| - 1] == m[|m| - 1];
      TagFormat(tag / 128, if j > 0 then j - 1 else 0);
    }
  }

  /** The seven-bit groups up to the first byte without the high bit. */
  function Groups(b: seq<Byte>): (r: Option<(nat, nat)>)
    ensures r.Some? ==> 0 < r.value.1 <= |b|
  {
    if b == [] then None
    else if b[0] < 128 then Some((b[0], 1))
    else
      match Groups(b[1..])
      case None => None
      case Some((v, n)) => Some((b[0] % 128 + 128 * v, n + 1))
  }

  /** decode_tag_internal */
  function DecodeTag(b: seq<Byte>): (r: Option<(nat, nat)>)
    ensures r.Some? ==> 0 < r.value.1 <= |b| && r.value.0 < TWO32
  {
    match Groups(Visible(b))
    case None => None
    case Some((v, n)) => Some((v % TWO32, n))
  }

  lemma {:induction false} Seen(b: seq<Byte>)
    ensures DecodeInt(Visible(b)) == DecodeInt(b) && DecodeTag(Visible(b)) == DecodeTag(b)
  {
    hide Number, Groups;
  }

  /** Decoding undoes encoding and stops exactly behind it, whatever follows, if and only if the encoding is visible. */
  lemma {:induction false} IntReadBack(n: nat, rest: seq<Byte>)
    requires n < TWO32
    ensures var b := IntBytes(n) + rest;
      DecodeInt(b) == if |IntBytes(n)| <= VisibleLength(|b|) then Some((n, |IntBytes(n)|)) else None
  {
    hide IntBytes, DecodeInt;
    var b, e := IntBytes(n) + rest, IntBytes(n);
    var v := Visible(b);
    Seen(b);
    if |e| <= |v| {
      assert v == e + v[|e|..];
      IntSeen(n, v[|e|..]);
    } else {
      assert v == e[..|v|];
      IntUnseen(n, |v|);
    }
  }

  /** How many digits `n` has in base 16, without leading zeros. */
  function Digits16(n: nat): nat {
    if n == 0 then 0 else 1 + Digits16(n / 16)
  }

  lemma {:induction false} DigitsOfZero(base: nat, k: nat)
    requires base > 0
    ensures DigitOf(0, base, k) == 0
  {
    if k > 0 { DigitsOfZero(base, k - 1); }
  }

  lemma {:induction false} NibblesAre(n: nat)
    ensures |Nibbles(n)| == Digits16(n) && forall k: nat :: At(Nibbles(n), k) == DigitOf(n, 16, k)
  {
    if n == 0 {
      forall k: nat ensures DigitOf(0, 16, k) == 0 { DigitsOfZero(16, k); }
    } else {
      NibblesAre(n / 16);
      forall k: nat ensures At(Nibbles(n), k) == DigitOf(n, 16, k) {
        if k > 0 { assert At(Nibbles(n / 16), k - 1) == DigitOf(n / 16, 16, k - 1); }
      }
    }
  }

  /**
    The format of an integer: the first half-byte is the number of significant half-bytes minus one, the others are
    these half-bytes, lowest first, filled up with zero to whole bytes.
   */
  lemma {:induction false} IntFormat(n: nat, j: nat)
    requires n < TWO32 && j < |IntBytes(n)|
    ensures var e, count := IntBytes(n), Digits16(n);
      && |e| == (if count == 0 then 1 else 1 + count / 2)
      && e[j] == 16 * (if j == 0 then (if count == 0 then 0 else count - 1) else DigitOf(n, 16, 2 * j - 1))
                 + DigitOf(n, 16, 2 * j)
  {
    hide Nibbles, DigitOf, Digits16;
    NibblesAre(n);
    NibblesOf32(n);
    assert At(Nibbles(n), 2 * j) == DigitOf(n, 16, 2 * j);
    if j > 0 { assert At(Nibbles(n), 2 * j - 1) == DigitOf(n, 16, 2 * j - 1); }
  }

  // ----- tags -----

  lemma {:induction false} FirstGroup(b: seq<Byte>)
    requires b != []
    ensures b[0] < 128 ==> b[0] % 128 == b[0] && Groups(b) == Some((b[0], 1))
    ensures b[0] >= 128 && Groups(b[1..]).None? ==> Groups(b) == None
    ensures b[0] >= 128 && Groups(b[1..]).Some? ==>
      Groups(b) == Some((b[0] % 128 + 128 * Groups(b[1..]).value.0, Groups(b[1..]).value.1 + 1))
  {
  }

  lemma {:induction false} GroupsReadBack(tag: nat, rest: seq<Byte>)
    ensures Groups(TagBytes(tag) + rest) == Some((tag, |TagBytes(tag)|))
  {
    hide Groups;
    FirstGroup(TagBytes(tag) + rest);
    if tag >= 128 {
      GroupsReadBack(tag / 128, rest);
      assert (TagBytes(tag) + rest)[1..] == TagBytes(tag / 128) + rest;
    }
  }

  lemma {:induction false} GroupsUnseen(tag: nat, k: nat)
    requires k < |TagBytes(tag)|
    ensures Groups(TagBytes(tag)[..k]) == None
  {
    if k > 0 {
      GroupsUnseen(tag / 128, k - 1);
      assert TagBytes(tag)[..k][1..] == TagBytes(tag / 128)[..k - 1];
    }
  }

  /** The same for tags. */
  lemma {:induction false} TagReadBack(tag: nat, rest: seq<Byte>)
    requires tag < TWO32
    ensures var b := TagBytes(tag) + rest;
      DecodeTag(b) == if |TagBytes(tag)| <= VisibleLength(|b|) then Some((tag, |TagBytes(tag)|)) else None
  {
    hide TagBytes, Groups;
    var b, e := TagBytes(tag) + rest, TagBytes(tag);
    var v := Visible(b);
    if |e| <= |v| {
      assert v == e + v[|e|..];
      GroupsReadBack(tag, v[|e|..]);
    } else {
      assert v == e[..|v|];
      GroupsUnseen(tag, |v|);
    }
  }

  // ----- no encoding is shorter -----

  lemma {:induction false} NibblesGrow(m: nat, n: nat)
    requires m <= n
    ensures |Nibbles(m)| <= |Nibbles(n)|
  {
    if m > 0 { NibblesGrow(m / 16, n / 16); }
  }

  /** A larger number has no shorter encoding. */
  lemma {:induction false} IntBytesGrow(m: nat, n: nat)
    requires m <= n < TWO32
    ensures |IntBytes(m)| <= |IntBytes(n)|
  {
    NibblesGrow(m, n);
  }

  lemma {:induction false} IntShortest(b: seq<Byte>)
    requires DecodeInt(b).Some?
    ensures |IntBytes(DecodeInt(b).value.0)| <= DecodeInt(b).value.1
  {
    hide Number, Nibbles;
    var v := Visible(b);
    var nibbles := v[0] / 16 + 1;
    NumberBound(v, 1, nibbles);
    NibblesCount(Number(v, 1, nibbles), nibbles);
  }

  lemma {:induction false} TagBytesGrow(m: nat, n: nat)
    requires m <= n
    ensures |TagBytes(m)| <= |TagBytes(n)|
  {
    if m >= 128 { TagBytesGrow(m / 128, n / 128); }
  }

  lemma {:induction false} GroupsShortest(b: seq<Byte>)
    requires Groups(b).Some?
    ensures |TagBytes(Groups(b).value.0)| <= Groups(b).value.1
  {
    if b[0] >= 128 { GroupsShortest(b[1..]); }
  }

  lemma {:induction false} TagShortest(b: seq<Byte>)
    requires DecodeTag(b).Some?
    ensures |TagBytes(DecodeTag(b).value.0)| <= DecodeTag(b).value.1
  {
    hide TagBytes, Groups;
    GroupsShortest(Visible(b));
    TagBytesGrow(DecodeTag(b).value.0, Groups(Visible(b)).value.0);
  }

  // ----- tagged payloads -----

  /** evtag_marshal; the length is passed as 32 bits, so that a longer payload is cut. */
  function Marshal(tag: nat, payload: seq<Byte>): seq<Byte> {
    TagBytes(tag) + IntBytes(|payload| % TWO32) + payload[..|payload| % TWO32]
  }

  /**
    Of an item with a payload of `len` bytes at the start of `n` bytes, tag and length are visible when they are
    read.
   */
  predicate HeadSeen(tag: nat, len: nat, n: nat) {
    |TagBytes(tag)| <= VisibleLength(n) && |IntBytes(len % TWO32)| <= VisibleLength(n - |TagBytes(tag)|)
  }

  lemma {:induction false} ShortSeen(tag: nat, payload: seq<Byte>, rest: seq<Byte>)
    requires |Marshal(tag, payload) + rest| < TWO31
    ensures HeadSeen(tag, |payload|, |Marshal(tag, payload) + rest|)
  {
  }

  /** The tag, the payload and what follows. */
  function Split(b: seq<Byte>): (r: Option<(nat, seq<Byte>, seq<Byte>)>)
    ensures r.Some? ==> |r.value.1| + |r.value.2| < |b|
  {
    var t := DecodeTag(b);
    if t.None? then None
    else
      var b1 := b[t.value.1..];
      var n := DecodeInt(b1);
      if n.None? then None
      else
        var b2, len := b1[n.value.1..], n.value.0;
        if |b2| < len then None else Some((t.value.0, b2[..len], b2[len..]))
  }

  /** evtag_unmarshal; it returns the length as an int, so that one length reads as a failure. */
  function Unmarshal(b: seq<Byte>): (r: Option<(nat, seq<Byte>, seq<Byte>)>)
    ensures r.Some? ==> r == Split(b)
  {
    if Split(b).Some? && |Split(b).value.1| == TWO32 - 1 then None else Split(b)
  }

  /** evtag_payload_length */
  function PayloadLength(b: seq<Byte>): Option<nat> {
    var t := DecodeTag(b);
    if t.None? then None
    else
      var n := DecodeInt(b[t.value.1..]);
      if n.None? then None else Some(n.value.0)
  }

  /** Any marshalled item, even one cut: what is read from it, for every length of the buffer. */
  lemma {:induction false} HeadReadBack(tag: nat, payload: seq<Byte>, rest: seq<Byte>)
    requires tag < TWO32
    ensures var b, len := Marshal(tag, payload) + rest, |payload| % TWO32;
      && Split(b) == (if HeadSeen(tag, len, |b|) then Some((tag, payload[..len], rest)) else None)
      && PayloadLength(b) == (if HeadSeen(tag, len, |b|) then Some(len) else None)
      && DecodeTag(b) in {None, Some((tag, |TagBytes(tag)|))} && (HeadSeen(tag, len, |b|) ==> DecodeTag(b).Some?)
  {
    hide TagBytes, IntBytes, DecodeTag, DecodeInt;
    var len := |payload| % TWO32;
    var t, n, p := TagBytes(tag), IntBytes(len), payload[..len] + rest;
    var b := Marshal(tag, payload) + rest;
    assert b == t + (n + p);
    TagReadBack(tag, n + p);
    IntReadBack(len, p);
    assert b[|t|..] == n + p;
    assert (n + p)[|n|..] == p;
    assert p[..len] == payload[..len] && p[len..] == rest;
  }

  /** A payload of a 32-bit length is read back exactly if its head is seen, and if its length is not taken for -1. */
  lemma {:induction false} MarshalReadBack(tag: nat, payload: seq<Byte>, rest: seq<Byte>)
    requires tag < TWO32 && |payload| < TWO32
    ensures var b := Marshal(tag, payload) + rest;
      && Split(b) == (if HeadSeen(tag, |payload|, |b|) then Some((tag, payload, rest)) else None)
      && Unmarshal(b) == (if |payload| < TWO32 - 1 then Split(b) else None)
      && PayloadLength(b) == (if HeadSeen(tag, |payload|, |b|) then Some(|payload|) else None)
      && (|b| < TWO31 ==> HeadSeen(tag, |payload|, |b|) && DecodeTag(b) == Some((tag, |TagBytes(tag)|)))
  {
    hide Marshal, Split, PayloadLength, HeadSeen, DecodeTag;
    HeadReadBack(tag, payload, rest);
    assert payload[..|payload|] == payload;
    if |Marshal(tag, payload) + rest| < TWO31 { ShortSeen(tag, payload, rest); }
  }

  /** No item with that payload is shorter than the marshalled one. */
  lemma {:induction false} SplitShortest(b: seq<Byte>)
    requires Split(b).Some?
    ensures var (tag, payload, rest) := Split(b).value;
      |payload| < TWO32 && |rest| <= |b| && |TagBytes(tag)| + |IntBytes(|payload|)| + |payload| <= |b| - |rest|
  {
    hide TagBytes, IntBytes, DecodeTag, DecodeInt;
    TagShortest(b);
    IntShortest(b[DecodeTag(b).value.1..]);
  }

  /** evtag_marshal_int */
  function MarshalInt(tag: nat, n: nat): seq<Byte>
    requires n < TWO32
  {
    Marshal(tag, IntBytes(n))
  }

  /** evtag_unmarshal_int */
  function UnmarshalInt(b: seq<Byte>, tag: nat): (r: Option<(nat, seq<Byte>)>)
    ensures r.Some? ==> |r.value.1| < |b|
  {
    var m := Split(b);
    if m.None? || m.value.0 != tag then None
    else
      var n := DecodeInt(m.value.1);
      if n.None? then None else Some((n.value.0, m.value.2))
  }

  lemma {:induction false} IntShort(n: nat)
    requires n < TWO32
    ensures 0 < |IntBytes(n)| <= 5
  {
    NibblesOf32(n);
  }

  lemma {:induction false} IntPayloadReadBack(tag: nat, n: nat, rest: seq<Byte>)
    requires tag < TWO32 && n < TWO32
    ensures var b := MarshalInt(tag, n) + rest;
      UnmarshalInt(b, tag) == if HeadSeen(tag, |IntBytes(n)|, |b|) then Some((n, rest)) else None
  {
    hide IntBytes, DecodeInt, Marshal, Split, HeadSeen;
    IntShort(n);
    MarshalReadBack(tag, IntBytes(n), rest);
    IntReadBack(n, []);
    assert IntBytes(n) + [] == IntBytes(n);
  }

  lemma {:induction false} MarshalLength(tag: nat, payload: seq<Byte>)
    requires |payload| < TWO32
    ensures |Marshal(tag, payload)| == |TagBytes(tag)| + |IntBytes(|payload|)| + |payload|
    ensures |Marshal(tag, payload)| > |payload|
  {
  }

  // ----- the code on buffers -----

  /** A byte with its low or its high half replaced. */
  function Poke(v: Byte, low: bool, d: nat): (r: Byte)
    requires d < 16
  {
    if low then v / 16 * 16 + d else v % 16 + d * 16
  }

  lemma {:induction false} PackStep(w: seq<nat>, d: nat, data: seq<Byte>)
    requires |w| < 8 && |data| == 5 && d < 16 && (forall i :: 0 <= i < |w| ==> w[i] < 16) && data == Pack(0, w, 5)
    ensures var off := |w| + 1; data[off / 2 := Poke(data[off / 2], off % 2 == 1, d)] == Pack(0, w + [d], 5)
  {
    var off, j := |w| + 1, (|w| + 1) / 2;
    PackedHalf(0, w, 5, 2 * j);
    PackedHalf(0, w, 5, 2 * j + 1);
    assert Poke(data[j], off % 2 == 1, d) == Packed(0, w + [d], j);
    assert forall k :: 0 <= k < 5 && k != j ==> data[k] == Packed(0, w + [d], k);
  }

  lemma {:induction false} HeaderStep(w: seq<nat>, header: nat, data: seq<Byte>)
    requires |w| <= 8 && |data| == 5 && header < 16 && (forall i :: 0 <= i < |w| ==> w[i] < 16) && data == Pack(0, w, 5)
    ensures var len := (|w| + 2) / 2; data[0 := Poke(data[0], false, header)][..len] == Pack(header, w, len)
  {
    PackedHalf(0, w, 5, 1);
  }

  lemma {:induction false} NibblesStep(n: nat)
    ensures Nibbles(n) == if n == 0 then [] else [n % 16] + Nibbles(n / 16)
  {
  }

  lemma {:induction false} PackNone(data: seq<Byte>)
    requires |data| == 5 && forall j :: 0 <= j < 5 ==> data[j] == 0
    ensures data == Pack(0, [], 5)
  {
  }

  /** The loop of encode_int that fills a local array. */
  method FillNibbles(n: nat) returns (bytes: seq<Byte>)
    requires n < TWO32
    ensures bytes == IntBytes(n)
  {
    hide Pack, Packed, Poke, Nibbles;
    var number: nat, off: nat, nibbles: nat := n, 1, 0;
    var data := new Byte[5](_ => 0);
    ghost var w: seq<nat> := [];
    NibblesOf32(n);
    PackNone(data[..]);
    while number != 0
      invariant forall i :: 0 <= i < |w| ==> w[i] < 16
      invariant off == |w| + 1 && |Nibbles(n)| <= 8 && Nibbles(n) == w + Nibbles(number)
      invariant data[..] == Pack(0, w, 5)
      decreases number
    {
      ghost var was := data[..];
      NibblesStep(number);
      PackStep(w, number % 16, was);
      data[off / 2] := Poke(data[off / 2], off % 2 == 1, number % 16);
      assert data[..] == was[off / 2 := Poke(was[off / 2], off % 2 == 1, number % 16)];
      w := w + [number % 16];
      number := number / 16;
      off := off + 1;
    }
    if off > 2 {
      nibbles := off - 2;
    }
    NibblesStep(0);
    assert Nibbles(n) == w && nibbles == Header(|w|);
    ghost var was := data[..];
    HeaderStep(w, nibbles, was);
    data[0] := Poke(data[0], false, nibbles);
    assert data[..] == was[0 := Poke(was[0], false, nibbles)];
    bytes := data[..(off + 1) / 2];
    assert bytes == was[0 := Poke(was[0], false, nibbles)][..(off + 1) / 2];
  }

  /** What an ignored result of evbuffer_add hides: the bytes were appended, or nothing was. */
  function Done(ok: bool, bytes: seq<Byte>): seq<Byte> {
    if ok then bytes else []
  }

  /** encode_int; the result of evbuffer_add is ignored. */
  method EncodeInt(evbuf: Buffer, n: nat, memory: bool) returns (ghost ok: bool)
    requires evbuf.Valid() && n < TWO32
    modifies evbuf, evbuf.data
    ensures evbuf.Valid() && (evbuf.data == old(evbuf.data) || fresh(evbuf.data))
    ensures (memory ==> ok) && evbuf.Contents() == old(evbuf.Contents()) + Done(ok, IntBytes(n))
  {
    hide Capacity, IntBytes;
    var bytes := FillNibbles(n);
    var res := evbuf.Add(bytes, memory);
    ok := res == 0;
  }

  lemma {:induction false} Room(number: nat, k: nat)
    requires k <= 7 && (number == 0 || number < Pow16(k))
    ensures number * 16 < TWO32
  {
    assert Pow16(2) == 256 && Pow16(4) == 65536 && Pow16(6) == 16777216 && Pow16(8) == TWO32;
    PowMono(k, 7);
  }

  /** The accumulator does not overflow. */
  lemma {:induction false} NumberStep(data: seq<Byte>, p: nat, total: nat)
    requires 1 <= p <= total <= 8 && total / 2 < |data|
    ensures Number(data, p, total) == Number(data, p + 1, total) * 16 % TWO32 + HalfByte(data, p)
  {
    hide Pow16, HalfByte;
    NumberBound(data, p + 1, total);
    Room(Number(data, p + 1, total), total - p);
  }

  /** The loop of decode_int_internal over the bytes it sees. */
  method ScanInt(data: seq<Byte>) returns (number: nat, res: int)
    requires |data| < TWO31
    ensures DecodeInt(data) == if res == -1 then None else Some((number, res))
    ensures res == -1 || res > 0
  {
    hide Number, HalfByte;
    if |data| == 0 {
      return 0, -1;
    }
    var nibbles := data[0] / 16 + 1;
    if nibbles > 8 || nibbles / 2 + 1 > |data| {
      return 0, -1;
    }
    res := nibbles / 2 + 1;
    number := 0;
    ghost var total := nibbles;
    NumberBound(data, total + 1, total);
    while nibbles > 0
      invariant 0 <= nibbles <= total && number == Number(data, nibbles + 1, total)
    {
      NumberStep(data, nibbles, total);
      number := number * 16 % TWO32 + HalfByte(data, nibbles);
      nibbles := nibbles - 1;
    }
  }

  /** The bytes a decoder looks at. */
  method Look(evbuf: Buffer) returns (data: seq<Byte>)
    requires evbuf.Valid()
    ensures data == Visible(evbuf.Contents()) && |data| < TWO31
  {
    hide Capacity;
    var len := if evbuf.off % TWO32 >= TWO31 then 0 else evbuf.off % TWO32;
    data := evbuf.data[evbuf.misalign..evbuf.misalign + len];
    SliceOf(evbuf.data[..], evbuf.misalign, evbuf.misalign + evbuf.off, 0, len);
    assert data == evbuf.Contents()[..len];
  }

  /** decode_int_internal: the number, or -1 as length. */
  method ReadInt(evbuf: Buffer, dodrain: bool) returns (number: nat, res: int)
    requires evbuf.Valid()
    modifies evbuf`misalign, evbuf`off
    ensures evbuf.Valid() && (res == -1 || res > 0)
    ensures DecodeInt(old(evbuf.Contents())) == if res == -1 then None else Some((number, res))
    ensures evbuf.Contents() == old(evbuf.Contents())[if dodrain && res != -1 then res else 0..]
  {
    hide Capacity, DecodeInt, Visible;
    var data := Look(evbuf);
    Seen(evbuf.Contents());
    number, res := ScanInt(data);
    if dodrain && res != -1 {
      evbuf.Drain(res);
    }
  }

  /** Seven bits, and the mark that more follow. */
  function Group(tag: nat): Byte {
    if tag / 128 != 0 then tag % 128 + 128 else tag % 128
  }

  lemma {:induction false} TagStep(tag: nat)
    ensures TagBytes(tag) == if tag / 128 == 0 then [Group(tag)] else [Group(tag)] + TagBytes(tag / 128)
  {
  }

  function Pow128(k: nat): nat {
    if k == 0 then 1 else 128 * Pow128(k - 1)
  }

  lemma {:induction false} TagLength(n: nat, k: nat)
    requires 1 <= k <= 5 && (k == 5 ==> n < TWO32) && (k != 5 ==> n < Pow128(k))
    ensures |TagBytes(n)| <= k
  {
    assert Pow128(2) == 16384 && Pow128(4) == 16384 * 16384;
    if n >= 128 {
      TagLength(n / 128, k - 1);
    }
  }

  /** One group of what is still to be written, behind `w`. */
  lemma {:induction false} FillRoom(w: seq<Byte>, tag: nat, all: seq<Byte>)
    requires all == w + TagBytes(tag)
    ensures |w| < |all| && all == w + [Group(tag)] + if tag / 128 != 0 then TagBytes(tag / 128) else []
  {
    hide Group;
    TagStep(tag);
  }

  /** The loop of evtag_encode_tag that fills a local array. */
  method FillTag(n: nat) returns (bytes: seq<Byte>)
    requires n < TWO32
    ensures bytes == TagBytes(n)
  {
    hide TagBytes, Group;
    var tag: nat, data, more, count: nat := n, new Byte[5](_ => 0), true, 0;
    TagLength(n, 5);
    ghost var w: seq<Byte> := [];
    while more
      invariant |w| == count && |TagBytes(n)| <= 5
      invariant TagBytes(n) == w + if more then TagBytes(tag) else []
      invariant count <= 5 && data[..count] == w
      decreases more, tag
    {
      var lower := Group(tag);
      FillRoom(w, tag, TagBytes(n));
      data[count] := lower;
      count := count + 1;
      w := w + [lower];
      tag := tag / 128;
      more := tag != 0;
    }
    return data[..count];
  }

  /** evtag_encode_tag; without a buffer only the length is computed. */
  method EncodeTag(evbuf: Buffer?, n: nat, memory: bool) returns (bytes: nat, ghost ok: bool)
    requires (evbuf != null ==> evbuf.Valid()) && n < TWO32
    modifies evbuf, if evbuf == null then {} else {evbuf.data}
    ensures bytes == |TagBytes(n)| && (memory ==> ok)
    ensures evbuf != null ==> evbuf.Valid() && (evbuf.data == old(evbuf.data) || fresh(evbuf.data))
    ensures evbuf != null ==> evbuf.Contents() == old(evbuf.Contents()) + Done(ok, TagBytes(n))
  {
    hide Capacity, TagBytes;
    var data := FillTag(n);
    bytes, ok := |data|, true;
    if evbuf != null {
      var res := evbuf.Add(data, memory);
      ok := res == 0;
    }
  }

  /** A group moved to its place: `shift` is a power of 128. */
  function Shifted(v: nat, shift: nat): nat {
    v * shift
  }

  /** The result of decoding when `count` bytes worth `number` come first. */
  function Continued(r: Option<(nat, nat)>, number: nat, count: nat, shift: nat): Option<(nat, nat)> {
    match r
    case None => None
    case Some((v, n)) => Some((number + Shifted(v, shift), count + n))
  }

  lemma {:induction false} ContinuedNone(r: Option<(nat, nat)>)
    ensures Continued(r, 0, 0, 1) == r
  {
  }

  lemma {:induction false} GroupsNone(number: nat, count: nat, shift: nat)
    ensures Continued(Groups([]), number, count, shift) == None
  {
  }

  lemma {:induction false} Distribute(d: nat, v: nat, shift: nat)
    ensures Shifted(d + 128 * v, shift) == Shifted(d, shift) + Shifted(v, 128 * shift)
  {
  }

  lemma {:induction false} GroupStep(b: seq<Byte>, number: nat, count: nat, shift: nat)
    requires b != []
    ensures b[0] < 128 ==>
      Continued(Groups(b), number, count, shift) == Some((number + Shifted(b[0] % 128, shift), count + 1))
    ensures b[0] >= 128 ==>
      Continued(Groups(b), number, count, shift)
        == Continued(Groups(b[1..]), number + Shifted(b[0] % 128, shift), count + 1, 128 * shift)
  {
    hide Shifted, Groups;
    FirstGroup(b);
    var r := Groups(b[1..]);
    if b[0] >= 128 && r.Some? {
      Distribute(b[0] % 128, r.value.0, shift);
    }
  }

  /** The loop of decode_tag_internal over the bytes it sees. */
  method ScanTag(data: seq<Byte>) returns (tag: nat, res: int)
    requires |data| < TWO31
    ensures DecodeTag(data) == if res == -1 then None else Some((tag, res))
    ensures res == -1 || res > 0
  {
    hide Groups, Continued, Shifted;
    var number: nat, count: nat, shift: nat, done := 0, 0, 1, false;
    assert data[0..] == data;
    ContinuedNone(Groups(data));
    while count < |data| && !done
      invariant 0 <= count <= |data| && shift > 0 && (done ==> count > 0)
      invariant !done ==> Groups(data) == Continued(Groups(data[count..]), number, count, shift)
      invariant done ==> Groups(data) == Some((number, count))
    {
      var lower := data[count];
      assert data[count..][1..] == data[count + 1..];
      GroupStep(data[count..], number, count, shift);
      number := number + Shifted(lower % 128, shift);
      shift := 128 * shift;
      count := count + 1;
      done := lower < 128;
    }
    if !done {
      GroupsNone(number, count, shift);
      assert data[count..] == [];
      return 0, -1;
    }
    return number % TWO32, count;
  }

  /** decode_tag_internal: the tag, or -1 as length. */
  method ReadTag(evbuf: Buffer, dodrain: bool) returns (tag: nat, res: int)
    requires evbuf.Valid()
    modifies evbuf`misalign, evbuf`off
    ensures evbuf.Valid() && (res == -1 || res > 0)
    ensures DecodeTag(old(evbuf.Contents())) == if res == -1 then None else Some((tag, res))
    ensures evbuf.Contents() == old(evbuf.Contents())[if dodrain && res != -1 then res else 0..]
  {
    hide Capacity, DecodeTag, Visible;
    var data := Look(evbuf);
    Seen(evbuf.Contents());
    tag, res := ScanTag(data);
    if dodrain && res != -1 {
      evbuf.Drain(res);
    }
  }

  /** Which of the three parts of an item were appended. */
  datatype Parts = Parts(tag: bool, len: bool, payload: bool)

  const ALL := Parts(true, true, true)

  /** What the three calls of evbuffer_add append to `was`; a part whose allocation fails is missing in the middle. */
  function Appended(was: seq<Byte>, p: Parts, tag: nat, payload: seq<Byte>): (r: seq<Byte>)
    ensures p == ALL ==> r == was + Marshal(tag, payload)
  {
    was + Done(p.tag, TagBytes(tag)) + Done(p.len, IntBytes(|payload| % TWO32))
      + Done(p.payload, payload[..|payload| % TWO32])
  }

  /** A tag and a length. */
  method WriteHead(evbuf: Buffer, tag: nat, len: nat, memory: Parts) returns (ghost tagOk: bool, ghost lenOk: bool)
    requires evbuf.Valid() && tag < TWO32 && len < TWO32
    modifies evbuf, evbuf.data
    ensures evbuf.Valid() && (evbuf.data == old(evbuf.data) || fresh(evbuf.data))
    ensures (memory.tag ==> tagOk) && (memory.len ==> lenOk)
    ensures evbuf.Contents() == old(evbuf.Contents()) + Done(tagOk, TagBytes(tag)) + Done(lenOk, IntBytes(len))
  {
    hide Capacity, IntBytes, TagBytes, Done;
    var _, ok := EncodeTag(evbuf, tag, memory.tag);
    tagOk := ok;
    lenOk := EncodeInt(evbuf, len, memory.len);
  }

  /** evtag_marshal; the results of evbuffer_add are ignored. */
  method WriteTagged(evbuf: Buffer, tag: nat, payload: seq<Byte>, memory: Parts) returns (ghost p: Parts)
    requires evbuf.Valid() && tag < TWO32
    modifies evbuf, evbuf.data
    ensures evbuf.Valid() && (evbuf.data == old(evbuf.data) || fresh(evbuf.data))
    ensures (memory.tag ==> p.tag) && (memory.len ==> p.len) && (memory.payload ==> p.payload)
    ensures evbuf.Contents() == Appended(old(evbuf.Contents()), p, tag, payload)
  {
    hide Capacity, IntBytes, TagBytes;
    ghost var was := evbuf.Contents();
    var len := |payload| % TWO32;
    ghost var tagOk, lenOk := WriteHead(evbuf, tag, len, memory);
    ghost var now := evbuf.Contents();
    var res := evbuf.Add(payload[..len], memory.payload);
    p := Parts(tagOk, lenOk, res == 0);
    assert evbuf.Contents() == now + Done(res == 0, payload[..len]);
  }

  /** A length and as many bytes. */
  function Prefixed(b: seq<Byte>): Option<(seq<Byte>, seq<Byte>)> {
    var n := DecodeInt(b);
    if n.None? || |b[n.value.1..]| < n.value.0 then None
    else Some((b[n.value.1..][..n.value.0], b[n.value.1..][n.value.0..]))
  }

  /** What is left when a length and as many bytes are read: a length that promises too much is taken off. */
  function AfterPrefixed(b: seq<Byte>): (r: seq<Byte>)
    ensures Prefixed(b).Some? ==> r == Prefixed(b).value.1
  {
    var n := DecodeInt(b);
    if n.None? then b
    else if |b[n.value.1..]| < n.value.0 then b[n.value.1..]
    else b[n.value.1..][n.value.0..]
  }

  method ReadPrefixed(src: Buffer) returns (payload: seq<Byte>, ok: bool)
    requires src.Valid()
    modifies src`misalign, src`off
    ensures src.Valid() && Prefixed(old(src.Contents())) == if ok then Some((payload, src.Contents())) else None
    ensures src.Contents() == AfterPrefixed(old(src.Contents()))
  {
    hide Capacity, DecodeInt;
    var len, r := ReadInt(src, true);
    if r == -1 || src.off < len {
      return [], false;
    }
    payload := src.Remove(len);
    ok := true;
  }

  /** What evtag_unmarshal leaves of the source in any case: a tag is taken off even if the rest cannot be read. */
  function AfterTagged(b: seq<Byte>): seq<Byte> {
    var t := DecodeTag(b);
    if t.None? then b else AfterPrefixed(b[t.value.1..])
  }

  /** What evtag_unmarshal_int leaves of the source; an unexpected tag is taken off, too. */
  function AfterTaggedInt(b: seq<Byte>, needTag: nat): seq<Byte> {
    var t := DecodeTag(b);
    if t.None? then b
    else if t.value.0 != needTag then b[t.value.1..]
    else AfterPrefixed(b[t.value.1..])
  }

  /** A length that promises more than there is, is taken off with the tag before it; so is a tag that is not wanted. */
  lemma {:induction false} LeftBehind(tag: nat, len: nat, rest: seq<Byte>, needTag: nat)
    requires tag < TWO32 && |rest| < len < TWO32 && |TagBytes(tag) + (IntBytes(len) + rest)| < TWO31
    ensures var b := TagBytes(tag) + (IntBytes(len) + rest);
      && AfterTagged(b) == rest
      && AfterTaggedInt(b, needTag) == if tag == needTag then rest else IntBytes(len) + rest
  {
    hide TagBytes, IntBytes, DecodeTag, DecodeInt;
    TagReadBack(tag, IntBytes(len) + rest);
    IntReadBack(len, rest);
    assert (TagBytes(tag) + (IntBytes(len) + rest))[|TagBytes(tag)|..] == IntBytes(len) + rest;
    assert (IntBytes(len) + rest)[|IntBytes(len)|..] == rest;
  }

  /** Reading takes bytes off the front and nothing else. */
  lemma {:induction false} AfterIsSuffix(b: seq<Byte>, needTag: nat)
    ensures exists k: nat :: k <= |b| && AfterTagged(b) == b[k..]
    ensures exists k: nat :: k <= |b| && AfterTaggedInt(b, needTag) == b[k..]
  {
    hide DecodeTag, DecodeInt;
    var t := DecodeTag(b);
    assert b[0..] == b;
    if t.Some? {
      var c := b[t.value.1..];
      var n := DecodeInt(c);
      if n.Some? {
        assert c[n.value.1..] == b[t.value.1 + n.value.1..];
        if n.value.0 <= |c[n.value.1..]| {
          assert c[n.value.1..][n.value.0..] == b[t.value.1 + n.value.1 + n.value.0..];
        }
      }
    }
  }

  lemma {:induction false} SplitIs(b: seq<Byte>)
    ensures Split(b) ==
      match DecodeTag(b)
      case None => None
      case Some((tag, k)) =>
        match Prefixed(b[k..])
        case None => None
        case Some((payload, rest)) => Some((tag, payload, rest))
  {
    hide DecodeTag, DecodeInt;
  }

  /** evtag_unmarshal into a fresh destination; -1 on failure. */
  method ReadTagged(src: Buffer) returns (tag: nat, payload: seq<Byte>, res: int)
    requires src.Valid()
    modifies src`misalign, src`off
    ensures src.Valid()
    ensures Unmarshal(old(src.Contents())) == if res == -1 then None else Some((tag, payload, src.Contents()))
    ensures src.Contents() == AfterTagged(old(src.Contents()))
  {
    hide Capacity, DecodeTag, Prefixed, AfterPrefixed, Split;
    SplitIs(src.Contents());
    var r;
    tag, r := ReadTag(src, true);
    if r == -1 {
      return 0, [], -1;
    }
    var ok;
    payload, ok := ReadPrefixed(src);
    if !ok {
      return 0, [], -1;
    }
    res := if |payload| == TWO32 - 1 then -1 else 0;
  }

  /** The start of evtag_marshal_int: the scratch buffer holds the encoded integer, or nothing if that fails. */
  method Refill(scratch: Buffer, n: nat, memory: bool) returns (ghost ok: bool)
    requires scratch.Valid() && n < TWO32
    modifies scratch, scratch.data
    ensures scratch.Valid() && (memory ==> ok) && scratch.Contents() == Done(ok, IntBytes(n))
    ensures scratch.data == old(scratch.data) || fresh(scratch.data)
  {
    hide Capacity, IntBytes;
    scratch.Drain(scratch.off);
    ok := EncodeInt(scratch, n, memory);
  }

  lemma {:induction false} AllAppended(was: seq<Byte>, tag: nat, n: nat)
    requires n < TWO32
    ensures Appended(was, ALL, tag, Done(true, IntBytes(n))) == was + MarshalInt(tag, n)
  {
    hide IntBytes, TagBytes, Marshal, Appended;
  }

  lemma {:induction false} DoneShort(ok: bool, bytes: seq<Byte>)
    ensures |Done(ok, bytes)| <= |bytes|
  {
  }

  lemma {:induction false} DoneIs(ok: bool, now: seq<Byte>, bytes: seq<Byte>)
    ensures now + Done(ok, bytes) == if ok then now + bytes else now
  {
  }

  lemma {:induction false} ContentsLength(b: Buffer)
    requires b.Valid()
    ensures |b.Contents()| == b.off
  {
    hide Capacity;
  }

  lemma {:induction false} Assemble(was: seq<Byte>, now: seq<Byte>, p: Parts, tag: nat, payload: seq<Byte>)
    requires |payload| <= 5 && now == was + Done(p.tag, TagBytes(tag)) + Done(p.len, IntBytes(|payload|))
    ensures now + Done(p.payload, payload) == Appended(was, p, tag, payload)
  {
    hide IntBytes, TagBytes;
    assert payload[..|payload|] == payload;
  }

  /** evtag_marshal_int, with the scratch buffer of the module; the results of evbuffer_add are ignored. */
  method WriteInt(evbuf: Buffer, scratch: Buffer, tag: nat, n: nat, room: bool, memory: Parts)
    returns (ghost filled: bool, ghost p: Parts)
    requires evbuf.Valid() && scratch.Valid() && evbuf != scratch && evbuf.data != scratch.data && tag < TWO32
    requires n < TWO32
    modifies evbuf, evbuf.data, scratch, scratch.data
    ensures evbuf.Valid() && scratch.Valid() && evbuf.data != scratch.data
    ensures evbuf.data in {old(evbuf.data), old(scratch.data)} || fresh(evbuf.data)
    ensures (room ==> filled) && (memory.tag ==> p.tag) && (memory.len ==> p.len) && (memory.payload ==> p.payload)
    ensures evbuf.Contents() == Appended(old(evbuf.Contents()), p, tag, Done(filled, IntBytes(n)))
    ensures room && memory == ALL ==> evbuf.Contents() == old(evbuf.Contents()) + MarshalInt(tag, n)
  {
    hide Capacity, IntBytes, TagBytes, Appended, Done, MarshalInt, Buffer.Contents;
    ghost var was := evbuf.Contents();
    IntShort(n);
    AllAppended(was, tag, n);
    filled := Refill(scratch, n, room);
    ghost var payload := scratch.Contents();
    DoneShort(filled, IntBytes(n));
    assert |payload| == scratch.off by { ContentsLength(scratch); }
    ghost var tagOk, lenOk := WriteHead(evbuf, tag, scratch.off, memory);
    ghost var now := evbuf.Contents();
    var res := AddBuffer(evbuf, scratch, memory.payload);
    p := Parts(tagOk, lenOk, res == 0);
    DoneIs(res == 0, now, payload);
    Assemble(was, now, p, tag, payload);
  }

  /** The end of evtag_unmarshal_int: the payload goes through the scratch buffer. */
  method DecodePayload(payload: seq<Byte>) returns (n: nat, res: int)
    ensures DecodeInt(payload) == if res == -1 then None else Some((n, res))
  {
    hide Capacity, DecodeInt;
    var scratch := new Buffer();
    var _ := scratch.Add(payload, true);
    assert scratch.Contents() == payload;
    n, res := ReadInt(scratch, true);
  }

  /** evtag_unmarshal_int; -1 on failure. */
  method ReadTaggedInt(evbuf: Buffer, needTag: nat) returns (n: nat, res: int)
    requires evbuf.Valid()
    modifies evbuf`misalign, evbuf`off
    ensures evbuf.Valid()
    ensures UnmarshalInt(old(evbuf.Contents()), needTag) == if res == -1 then None else Some((n, evbuf.Contents()))
    ensures evbuf.Contents() == AfterTaggedInt(old(evbuf.Contents()), needTag)
  {
    hide Capacity, DecodeTag, Prefixed, AfterPrefixed, Split, DecodeInt;
    SplitIs(evbuf.Contents());
    var tag, r := ReadTag(evbuf, true);
    if r == -1 || tag != needTag {
      return 0, -1;
    }
    var payload, ok := ReadPrefixed(evbuf);
    if !ok {
      return 0, -1;
    }
    n, res := DecodePayload(payload);
  }
}
