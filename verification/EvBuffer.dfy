/** The sliding-window byte buffer of buffer.c. */
module EvBuffer {
  import opened Basics

  const CR: Byte := 13
  const LF: Byte := 10

  // ----- capacities -----

  /** Zero, or 256 doubled some number of times. */
  ghost predicate Capacity(n: nat) {
    n == 0 || exists k: nat :: n == 256 * Pow2(k)
  }

  lemma {:induction false} CapacityFirst()
    ensures Capacity(256)
  {
    assert 256 == 256 * Pow2(0);
  }

  lemma {:induction false} CapacityNext(n: nat)
    requires Capacity(n) && n != 0
    ensures Capacity(2 * n)
  {
    var k: nat :| n == 256 * Pow2(k);
    assert 2 * n == 256 * Pow2(k + 1);
  }

  // ----- lines -----

  predicate IsBreak(c: Byte) {
    c == CR || c == LF
  }

  /** The position of the first line break. */
  function LineEnd(b: seq<Byte>): (i: nat)
    ensures i <= |b| && (i < |b| ==> IsBreak(b[i]))
    ensures forall k :: 0 <= k < i ==> !IsBreak(b[k])
  {
    if b == [] || IsBreak(b[0]) then 0 else 1 + LineEnd(b[1..])
  }

  /** evbuffer_readline on bytes: the line and what is left; a second, different break character goes with the first. */
  function ReadLine(b: seq<Byte>): (r: Option<(seq<Byte>, seq<Byte>)>)
    ensures r.None? <==> LineEnd(b) == |b|
    ensures r.Some? ==> |r.value.1| < |b|
  {
    var i := LineEnd(b);
    if i == |b| then None
    else if i + 1 < |b| && IsBreak(b[i + 1]) && b[i + 1] != b[i] then Some((b[..i], b[i + 2..]))
    else Some((b[..i], b[i + 1..]))
  }

  lemma {:induction false} BreakAt(b: seq<Byte>)
    ensures LineEnd(b) <= |b| && (ReadLine(b).None? <==> LineEnd(b) == |b|)
    ensures LineEnd(b) < |b| ==> IsBreak(b[LineEnd(b)])
  {
    hide LineEnd;
  }

  /** What is left after draining up to `n`, when `n` is behind the break at `i`. */
  lemma {:induction false} Rest(b: seq<Byte>, i: nat, n: nat)
    requires i == LineEnd(b) < |b|
    requires n == if i + 1 < |b| && IsBreak(b[i + 1]) && b[i + 1] != b[i] then i + 2 else i + 1
    ensures ReadLine(b) == Some((b[..i], b[n..])) && n <= |b|
  {
  }

  lemma {:induction false} LineEndIs(b: seq<Byte>, i: nat)
    requires i <= |b| && (i < |b| ==> IsBreak(b[i])) && forall k :: 0 <= k < i ==> !IsBreak(b[k])
    ensures LineEnd(b) == i
  {
    if i > 0 { LineEndIs(b[1..], i - 1); }
  }

  /** What strlen leaves of a buffer. */
  function CString(s: seq<Byte>): seq<Byte> {
    if s == [] || s[0] == 0 then [] else [s[0]] + CString(s[1..])
  }

  // ----- search -----

  predicate MatchAt(b: seq<Byte>, what: seq<Byte>, i: nat) {
    i + |what| <= |b| && b[i..i + |what|] == what
  }

  lemma {:induction false} FirstByte(b: seq<Byte>, what: seq<Byte>, i: nat)
    requires what != [] && MatchAt(b, what, i)
    ensures b[i] == what[0]
  {
    assert b[i..i + |what|][0] == what[0];
  }

  /** Behind the last possible start there is no match. */
  lemma {:induction false} TooLate(b: seq<Byte>, what: seq<Byte>, from: nat)
    requires from + |what| > |b|
    ensures forall i: nat :: i >= from ==> !MatchAt(b, what, i)
  {
  }

  function Min(m: nat, n: nat): nat {
    if m < n then m else n
  }

  lemma {:induction false} SliceOf<T>(s: seq<T>, m: nat, n: nat, i: nat, j: nat)
    requires m + j <= n <= |s| && i <= j
    ensures s[m..n][i..j] == s[m + i..m + j]
  {
    assert forall k :: 0 <= k < j - i ==> s[m..n][i..j][k] == s[m..n][i + k] == s[m + i + k] == s[m + i..m + j][k];
  }

  // ----- the buffer -----

  /** `struct evbuffer`: `data` is orig_buffer, `data.Length` is totallen, and buffer is `data` from `misalign` on. */
  class Buffer {
    var data: array<Byte>
    var misalign: nat
    var off: nat

    ghost predicate Valid()
      reads this
    {
      misalign + off <= data.Length && Capacity(data.Length) && (off == 0 ==> misalign == 0)
    }

    ghost function Contents(): seq<Byte>
      reads this, data
      requires misalign + off <= data.Length
    {
      data[misalign..misalign + off]
    }

    /** evbuffer_new */
    constructor ()
      ensures Valid() && fresh(data) && Contents() == []
    {
      data := new Byte[0];
      misalign, off := 0, 0;
    }

    /** evbuffer_align */
    method Align()
      requires misalign + off <= data.Length
      modifies this`misalign, data
      ensures misalign == 0 && off <= data.Length && Contents() == old(Contents())
    {
      forall i | 0 <= i < off {
        data[i] := data[misalign + i];
      }
      misalign := 0;
    }

    /** realloc to a length that holds everything. */
    method Grow(length: nat)
      requires misalign == 0 && off <= data.Length <= length
      modifies this`data
      ensures fresh(data) && data.Length == length && Contents() == old(Contents())
    {
      var newbuf := new Byte[length];
      forall i | 0 <= i < data.Length {
        newbuf[i] := data[i];
      }
      data := newbuf;
    }

    /** evbuffer_expand; `memory` says whether realloc succeeds. */
    method Expand(datlen: nat, memory: bool) returns (res: int)
      requires Valid()
      modifies this`data, this`misalign, data
      ensures Valid() && Contents() == old(Contents()) && (data == old(data) || fresh(data))
      ensures data.Length >= old(data.Length)
      ensures res == 0 || (res == -1 && !memory)
      ensures res == 0 ==> misalign + off + datlen <= data.Length
    {
      var need := misalign + off + datlen;
      if data.Length >= need {
        return 0;
      }
      if misalign >= datlen {
        Align();
        return 0;
      }
      var length := data.Length;
      if length < 256 {
        length := 256;
        CapacityFirst();
      }
      while length < need
        invariant Capacity(length) && length >= 256 && length >= data.Length
        modifies {}
        decreases need - length
      {
        CapacityNext(length);
        length := 2 * length;
      }
      if misalign != 0 {
        Align();
      }
      if !memory {
        return -1;
      }
      Grow(length);
      return 0;
    }

    /** evbuffer_add */
    method Add(bytes: seq<Byte>, memory: bool) returns (res: int)
      requires Valid()
      modifies this, data
      ensures Valid() && (data == old(data) || fresh(data))
      ensures res == 0 || (res == -1 && !memory)
      ensures Contents() == if res == 0 then old(Contents()) + bytes else old(Contents())
    {
      if data.Length < misalign + off + |bytes| {
        res := Expand(|bytes|, memory);
        if res == -1 {
          return;
        }
      }
      Append(bytes);
      return 0;
    }

    /** The copy of evbuffer_add, once there is room. */
    method Append(bytes: seq<Byte>)
      requires misalign + off + |bytes| <= data.Length
      modifies this`off, data
      ensures off == old(off) + |bytes| && Contents() == old(Contents()) + bytes
    {
      ghost var was := Contents();
      forall i | 0 <= i < |bytes| {
        data[misalign + off + i] := bytes[i];
      }
      off := off + |bytes|;
      ghost var now := Contents();
      assert forall i :: 0 <= i < |was| ==> now[i] == data[misalign + i] == was[i];
      assert forall i :: 0 <= i < |bytes| ==> now[|was| + i] == data[misalign + |was| + i] == bytes[i];
      assert now == was + bytes;
    }

    /** evbuffer_drain */
    method Drain(len: nat)
      requires Valid()
      modifies this`misalign, this`off
      ensures Valid() && Contents() == if len >= |old(Contents())| then [] else old(Contents())[len..]
    {
      if len >= off {
        off, misalign := 0, 0;
        return;
      }
      misalign := misalign + len;
      off := off - len;
    }

    /** evbuffer_remove */
    method Remove(datlen: nat) returns (bytes: seq<Byte>)
      requires Valid()
      modifies this`misalign, this`off
      ensures Valid() && |bytes| == Min(datlen, |old(Contents())|) && old(Contents()) == bytes + Contents()
    {
      var nread := datlen;
      if nread >= off {
        nread := off;
      }
      bytes := data[misalign..misalign + nread];
      Drain(nread);
    }

    /** The loop of evbuffer_readline. */
    method FindBreak() returns (i: nat)
      requires Valid()
      ensures i == LineEnd(Contents())
    {
      hide LineEnd, Capacity;
      ghost var b := Contents();
      i := 0;
      while i < off && !IsBreak(data[misalign + i])
        invariant 0 <= i <= off && forall k :: 0 <= k < i ==> !IsBreak(b[k])
      {
        i := i + 1;
      }
      LineEndIs(b, i);
    }

    /** How much goes with a line whose break is at `i`. */
    method BreakEnd(i: nat) returns (n: nat)
      requires Valid() && i < off
      ensures var b := Contents(); n == if i + 1 < |b| && IsBreak(b[i + 1]) && b[i + 1] != b[i] then i + 2 else i + 1
    {
      hide Capacity;
      n := i + 1;
      if i < off - 1 {
        var fch, sch := data[misalign + i], data[misalign + i + 1];
        if IsBreak(sch) && sch != fch {
          n := n + 1;
        }
      }
    }

    /** evbuffer_readline; if the copy of the line cannot be allocated, the line is lost and its break is left. */
    method Readline(memory: bool) returns (line: Option<seq<Byte>>)
      requires Valid()
      modifies this`misalign, this`off
      ensures Valid()
      ensures match ReadLine(old(Contents()))
        case None => line == None && Contents() == old(Contents())
        case Some((l, rest)) =>
          if memory then line == Some(l) && Contents() == rest
          else line == None && old(Contents()) == l + Contents() && IsBreak(Contents()[0])
    {
      hide LineEnd, ReadLine, Capacity, IsBreak;
      ghost var b := Contents();
      var i := FindBreak();
      BreakAt(b);
      if i == off {
        return None;
      }
      var n := BreakEnd(i);
      Rest(b, i, n);
      if !memory {
        assert b[..i] + b[i..] == b && b[i..][0] == b[i];
        Drain(i);
        return None;
      }
      line := Some(data[misalign..misalign + i]);
      SliceOf(data[..], misalign, misalign + off, 0, i);
      assert line == Some(b[..i]);
      Drain(n);
    }

    /** The memcmp of evbuffer_find. */
    method SameBytes(i: nat, what: seq<Byte>) returns (same: bool)
      requires Valid() && i + |what| <= off
      ensures same <==> MatchAt(Contents(), what, i)
    {
      hide Capacity;
      SliceOf(data[..], misalign, misalign + off, i, i + |what|);
      assert Contents()[i..i + |what|] == data[misalign + i..misalign + i + |what|];
      same := data[misalign + i..misalign + i + |what|] == what;
    }

    /** evbuffer_find: the leftmost match. */
    method Find(what: seq<Byte>) returns (p: Option<nat>)
      requires Valid() && what != []
      ensures p.Some? ==> MatchAt(Contents(), what, p.value)
      ensures p.Some? ==> forall i :: 0 <= i < p.value ==> !MatchAt(Contents(), what, i)
      ensures p.None? ==> forall i: nat :: !MatchAt(Contents(), what, i)
    {
      hide Capacity, MatchAt;
      ghost var b := Contents();
      var search := 0;
      while search < off
        invariant 0 <= search <= off && forall i :: 0 <= i < search ==> !MatchAt(b, what, i)
      {
        if data[misalign + search] == what[0] {
          if search + |what| > off {
            break;
          }
          var found := SameBytes(search, what);
          if found {
            return Some(search);
          }
        }
        if MatchAt(b, what, search) { FirstByte(b, what, search); }
        search := search + 1;
      }
      TooLate(b, what, search);
      return None;
    }
  }

  /** evbuffer_add_buffer: swapping and copying give the same contents. */
  method AddBuffer(outbuf: Buffer, inbuf: Buffer, memory: bool) returns (res: int)
    requires outbuf.Valid() && inbuf.Valid() && outbuf != inbuf && outbuf.data != inbuf.data
    modifies outbuf, outbuf.data, inbuf
    ensures outbuf.Valid() && inbuf.Valid() && outbuf.data != inbuf.data
    ensures outbuf.data in {old(outbuf.data), old(inbuf.data)} || fresh(outbuf.data)
    ensures inbuf.data in {old(outbuf.data), old(inbuf.data)}
    ensures res == 0 || (res == -1 && !memory)
    ensures res == 0 ==> outbuf.Contents() == old(outbuf.Contents()) + old(inbuf.Contents()) && inbuf.Contents() == []
    ensures res == -1 ==> outbuf.Contents() == old(outbuf.Contents()) && inbuf.Contents() == old(inbuf.Contents())
  {
    if outbuf.off == 0 {
      outbuf.data, inbuf.data := inbuf.data, outbuf.data;
      outbuf.misalign, inbuf.misalign := inbuf.misalign, outbuf.misalign;
      outbuf.off, inbuf.off := inbuf.off, outbuf.off;
      return 0;
    }
    res := outbuf.Add(inbuf.data[inbuf.misalign..inbuf.misalign + inbuf.off], memory);
    if res == 0 {
      inbuf.Drain(inbuf.off);
    }
  }
}
