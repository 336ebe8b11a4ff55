/**
  Domain names on the wire (evdns.c): length-prefixed labels, compressed through a
  table of suffixes already written (section 4.1.4 of RFC 1035), and the parser that
  follows the pointers.
 */
module DnsName {
  import opened Basics

  const DOT: Byte := 46
  const MAX_LABELS := 128

  // ----- names -----

  /** The index of the first dot, or the length if there is none (strchr). */
  function FirstDot(name: seq<Byte>): (k: nat)
    ensures k <= |name| && (k < |name| ==> name[k] == DOT)
    ensures forall i :: 0 <= i < k ==> name[i] != DOT
  {
    if name == [] || name[0] == DOT then 0 else 1 + FirstDot(name[1..])
  }

  /** The labels of a name; a trailing dot adds none. */
  function Labels(name: seq<Byte>): seq<seq<Byte>> {
    if name == [] then []
    else
      var k := FirstDot(name);
      [name[..k]] + if k == |name| then [] else Labels(name[k + 1..])
  }

  /** Every label is non-empty, at most 63 bytes long and free of zero bytes; one trailing dot is allowed. */
  predicate WellFormed(name: seq<Byte>) {
    name == [] ||
    var k := FirstDot(name);
    && 0 < k <= 63 && 0 !in name[..k]
    && (k == |name| || WellFormed(name[k + 1..]))
  }

  function Dotted(out: seq<Byte>, labels: seq<seq<Byte>>): seq<Byte>
    decreases |labels|
  {
    if labels == [] then out
    else Dotted((if out == [] then [] else out + [DOT]) + labels[0], labels[1..])
  }

  function WithoutTrailingDot(name: seq<Byte>): seq<Byte> {
    if name != [] && name[|name| - 1] == DOT then name[..|name| - 1] else name
  }

  // ----- writing -----

  /** `struct dnslabel_entry`: a suffix and where it was written. */
  datatype TableEntry = TableEntry(suffix: seq<Byte>, pos: nat)

  type Table = t: seq<TableEntry> | |t| <= MAX_LABELS

  /** dnslabel_table_get_pos: the position of the first equal entry, or -1. */
  function GetPos(table: seq<TableEntry>, name: seq<Byte>): (pos: int)
    ensures pos == -1 || exists i :: 0 <= i < |table| && table[i].suffix == name && table[i].pos == pos
    ensures pos == -1 <==> forall i :: 0 <= i < |table| ==> table[i].suffix != name
  {
    if table == [] then -1
    else if table[0].suffix == name then table[0].pos
    else GetPos(table[1..], name)
  }

  /** dnslabel_table_add: a full table stays as it is. */
  function Add(table: Table, name: seq<Byte>, pos: nat): Table {
    if |table| == MAX_LABELS then table else table + [TableEntry(name, pos)]
  }

  datatype Written = Written(bytes: seq<Byte>, table: Table) | Rejected(code: int)

  function Pointer(pos: nat): seq<Byte> {
    [192 + pos / 256 % 64, pos % 256]
  }

  /** A length byte and the label. */
  function Framed(word: seq<Byte>): seq<Byte>
    requires |word| <= 63
  {
    [|word|] + word
  }

  /** The loop of dnsname_to_labels, writing at index `j` of a buffer of `bufLen` bytes. */
  function WriteLabels(name: seq<Byte>, j: nat, table: Table, compress: bool, bufLen: nat): Written
    decreases |name|
  {
    if compress && GetPos(table, name) >= 0 then
      if j + 2 > bufLen then Rejected(-2) else Written(Pointer(GetPos(table, name)), table)
    else
      var k := FirstDot(name);
      if k > 63 then Rejected(-1)
      else if j + k + 1 > bufLen then Rejected(-2)
      else
        var table' := if compress then Add(table, name, j) else table;
        if k == |name| then
          Written(Framed(name) + (if k == 0 || name[k - 1] == 0 then [] else [0]), table')
        else
          match WriteLabels(name[k + 1..], j + 1 + k, table', compress, bufLen)
          case Written(bytes, t) => Written(Framed(name[..k]) + bytes, t)
          case Rejected(code) => Rejected(code)
  }

  /** dnsname_to_labels */
  function WriteName(name: seq<Byte>, j: nat, table: Table, compress: bool, bufLen: nat): Written {
    if |name| > 255 then Rejected(-2) else WriteLabels(name, j, table, compress, bufLen)
  }

  // ----- parsing -----

  /** Where the two-byte pointer at `j` leads: its low 14 bits. */
  function Target(packet: seq<Byte>, j: nat): nat
    requires j + 1 < |packet|
  {
    var hi: int, lo: int := packet[j], packet[j + 1];
    hi % 64 * 256 + lo
  }

  datatype Parsed = Parsed(name: seq<Byte>, next: nat) | Failed

  /**
    The loop of name_parse at index `j`: `end` is the index after the first pointer (-1 before one),
    `jumps` the pointers followed so far, `out` the text so far. It ends on every packet.
   */
  function ParseFrom(packet: seq<Byte>, j: nat, end: int, jumps: nat, out: seq<Byte>, outLen: nat): (r: Parsed)
    requires jumps <= |packet| && |out| <= outLen
    ensures r.Parsed? ==> |r.name| < outLen && out <= r.name
    ensures r.Parsed? && end < 0 ==> j < r.next <= |packet|
    ensures r.Parsed? && end >= 0 ==> r.next == end
    decreases |packet| - jumps + outLen - |out|
  {
    if j >= |packet| then Failed
    else if packet[j] == 0 then
      if |out| >= outLen then Failed else Parsed(out, if end < 0 then j + 1 else end)
    else if packet[j] >= 64 then
      if j + 1 >= |packet| then Failed
      else
        var target := Target(packet, j);
        if target >= |packet| || jumps + 1 > |packet| then Failed
        else ParseFrom(packet, target, if end < 0 then j + 2 else end, jumps + 1, out, outLen)
    else
      var len := packet[j];
      var text := if out == [] then [] else out + [DOT];
      if out != [] && |out| + 1 >= outLen then Failed
      else if |text| + len >= outLen || j + 1 + len > |packet| then Failed
      else ParseFrom(packet, j + 1 + len, end, jumps, text + packet[j + 1..j + 1 + len], outLen)
  }

  /** name_parse */
  function Parse(packet: seq<Byte>, j: nat, outLen: nat): Parsed {
    ParseFrom(packet, j, -1, 0, [], outLen)
  }

  // ----- what bytes in a message mean -----

  /**
    The bytes at `p` spell `labels`. A pointer met on the way leads below `base`, where the
    current run of labels began, so following pointers always ends.
   */
  ghost predicate Denotes(buf: seq<Byte>, base: nat, p: nat, labels: seq<seq<Byte>>)
    decreases |labels|, base
  {
    && base <= p < |buf|
    && if buf[p] == 0 then labels == []
       else if buf[p] >= 64 then
         && p + 1 < |buf|
         && var q := Target(buf, p);
            q < base && Denotes(buf, q, q, labels)
       else
         && labels != [] && |labels[0]| == buf[p] && p + 1 + buf[p] < |buf|
         && buf[p + 1..p + 1 + buf[p]] == labels[0]
         && Denotes(buf, base, p + 1 + buf[p], labels[1..])
  }

  /** The index after the name at `p`, not following pointers. */
  ghost function EndOf(buf: seq<Byte>, base: nat, p: nat, labels: seq<seq<Byte>>): nat
    requires Denotes(buf, base, p, labels)
    decreases |labels|
  {
    if buf[p] == 0 then p + 1
    else if buf[p] >= 64 then p + 2
    else EndOf(buf, base, p + 1 + buf[p], labels[1..])
  }

  lemma {:induction false} DottedLength(out: seq<Byte>, labels: seq<seq<Byte>>)
    ensures |out| <= |Dotted(out, labels)|
    decreases |labels|
  {
    if labels != [] {
      DottedLength((if out == [] then [] else out + [DOT]) + labels[0], labels[1..]);
    }
  }

  /** Parsing yields what the bytes mean. */
  lemma {:induction false} ParseDenoted(buf: seq<Byte>, base: nat, p: nat, labels: seq<seq<Byte>>,
                                        end: int, jumps: nat, out: seq<Byte>, outLen: nat)
    requires Denotes(buf, base, p, labels) && jumps + base <= |buf|
    requires |Dotted(out, labels)| < outLen && |out| <= outLen
    ensures ParseFrom(buf, p, end, jumps, out, outLen) ==
            Parsed(Dotted(out, labels), if end < 0 then EndOf(buf, base, p, labels) else end)
    decreases |labels|, base
  {
    if buf[p] == 0 {
    } else if buf[p] >= 64 {
      var q := Target(buf, p);
      ParseDenoted(buf, q, q, labels, if end < 0 then p + 2 else end, jumps + 1, out, outLen);
    } else {
      var text := (if out == [] then [] else out + [DOT]) + labels[0];
      DottedLength(text, labels[1..]);
      ParseDenoted(buf, base, p + 1 + buf[p], labels[1..], end, jumps, text, outLen);
    }
  }

  /** The bytes at `p` spell `labels`, by way of at most `jumps` pointers to anywhere in the packet. */
  ghost predicate SpelledAt(packet: seq<Byte>, p: nat, jumps: int, labels: seq<seq<Byte>>)
    decreases |labels|, jumps
  {
    && p < |packet|
    && if packet[p] == 0 then labels == []
       else if packet[p] >= 64 then
         && jumps > 0 && p + 1 < |packet|
         && SpelledAt(packet, Target(packet, p), jumps - 1, labels)
       else
         && labels != [] && |labels[0]| == packet[p] && p + 1 + packet[p] <= |packet|
         && packet[p + 1..p + 1 + packet[p]] == labels[0]
         && SpelledAt(packet, p + 1 + packet[p], jumps, labels[1..])
  }

  /** Whatever the parser returns is spelled in the packet, with no more pointers than the packet has bytes. */
  lemma {:induction false} ParseSound(packet: seq<Byte>, j: nat, end: int, jumps: nat, out: seq<Byte>, outLen: nat)
    returns (labels: seq<seq<Byte>>)
    requires jumps <= |packet| && |out| <= outLen && ParseFrom(packet, j, end, jumps, out, outLen).Parsed?
    ensures SpelledAt(packet, j, |packet| - jumps, labels)
    ensures ParseFrom(packet, j, end, jumps, out, outLen).name == Dotted(out, labels)
    decreases |packet| - jumps + outLen - |out|
  {
    if packet[j] == 0 {
      labels := [];
    } else if packet[j] >= 64 {
      labels := ParseSound(packet, Target(packet, j), if end < 0 then j + 2 else end, jumps + 1, out, outLen);
    } else {
      var len := packet[j];
      var text := if out == [] then [] else out + [DOT];
      var word := packet[j + 1..j + 1 + len];
      var rest := ParseSound(packet, j + 1 + len, end, jumps, text + word, outLen);
      labels := [word] + rest;
      assert labels[1..] == rest;
    }
  }

  /** The parser fails only on what is not spelled, takes more pointers than the packet has bytes, or has no room. */
  lemma {:induction false} ParseComplete(packet: seq<Byte>, j: nat, end: int, jumps: nat, out: seq<Byte>, outLen: nat,
                                         labels: seq<seq<Byte>>)
    requires jumps <= |packet| && SpelledAt(packet, j, |packet| - jumps, labels) && |Dotted(out, labels)| < outLen
    requires |out| <= outLen
    ensures ParseFrom(packet, j, end, jumps, out, outLen).Parsed?
    ensures ParseFrom(packet, j, end, jumps, out, outLen).name == Dotted(out, labels)
    decreases |labels|, |packet| - jumps
  {
    if packet[j] == 0 {
    } else if packet[j] >= 64 {
      assert Target(packet, j) < |packet|;
      ParseComplete(packet, Target(packet, j), if end < 0 then j + 2 else end, jumps + 1, out, outLen, labels);
    } else {
      var text := (if out == [] then [] else out + [DOT]) + labels[0];
      DottedLength(text, labels[1..]);
      ParseComplete(packet, j + 1 + packet[j], end, jumps, text, outLen, labels[1..]);
    }
  }

  /** name_parse on any packet: it returns a name if and only if one is spelled there and fits, and then that name. */
  lemma {:induction false} ParseExact(packet: seq<Byte>, j: nat, outLen: nat, name: seq<Byte>)
    ensures (Parse(packet, j, outLen).Parsed? && Parse(packet, j, outLen).name == name) <==>
      |name| < outLen && exists labels :: SpelledAt(packet, j, |packet|, labels) && name == Dotted([], labels)
  {
    hide SpelledAt, Dotted;
    if Parse(packet, j, outLen).Parsed? && Parse(packet, j, outLen).name == name {
      var labels := ParseSound(packet, j, -1, 0, [], outLen);
    }
    if labels :| |name| < outLen && SpelledAt(packet, j, |packet|, labels) && name == Dotted([], labels) {
      ParseComplete(packet, j, -1, 0, [], outLen, labels);
    }
  }

  /** Appending to the message changes no name already in it. */
  lemma {:induction false} DenotesExtend(buf: seq<Byte>, more: seq<Byte>, base: nat, p: nat, labels: seq<seq<Byte>>)
    requires Denotes(buf, base, p, labels)
    ensures Denotes(buf + more, base, p, labels)
    ensures EndOf(buf + more, base, p, labels) == EndOf(buf, base, p, labels)
    decreases |labels|, base
  {
    assert (buf + more)[p] == buf[p];
    if buf[p] == 0 {
    } else if buf[p] >= 64 {
      var q := Target(buf, p);
      assert (buf + more)[p + 1] == buf[p + 1];
      DenotesExtend(buf, more, q, q, labels);
    } else {
      assert (buf + more)[p + 1..p + 1 + buf[p]] == buf[p + 1..p + 1 + buf[p]];
      DenotesExtend(buf, more, base, p + 1 + buf[p], labels[1..]);
    }
  }

  // ----- what the writer leaves behind -----

  ghost predicate EntryDenotes(buf: seq<Byte>, e: TableEntry) {
    e.pos < 0x4000 && Denotes(buf, e.pos, e.pos, Labels(e.suffix))
  }

  /** Every entry of the table points at bytes that spell its suffix. */
  ghost predicate TableDenotes(buf: seq<Byte>, table: seq<TableEntry>) {
    forall i :: 0 <= i < |table| ==> EntryDenotes(buf, table[i])
  }

  lemma {:induction false} TableExtend(buf: seq<Byte>, more: seq<Byte>, table: seq<TableEntry>)
    requires TableDenotes(buf, table)
    ensures TableDenotes(buf + more, table)
  {
    forall i | 0 <= i < |table| ensures EntryDenotes(buf + more, table[i]) {
      assert EntryDenotes(buf, table[i]);
      DenotesExtend(buf, more, table[i].pos, table[i].pos, Labels(table[i].suffix));
    }
  }

  /**
    While a name that began at `start` is being written, the first `n` entries are older than it;
    the others were made for it, are longer than what is left of it, and do not spell anything yet.
   */
  ghost predicate Writing(buf: seq<Byte>, table: seq<TableEntry>, n: nat, start: nat, name: seq<Byte>) {
    && n <= |table| && start <= |buf|
    && TableDenotes(buf, table[..n])
    && (forall i :: 0 <= i < n ==> table[i].pos < start)
    && (forall i :: n <= i < |table| ==> |table[i].suffix| > |name|)
  }

  lemma {:induction false} PointerTarget(pos: nat, buf: seq<Byte>, j: nat)
    requires pos < 0x4000 && j + 2 <= |buf| && buf[j..j + 2] == Pointer(pos)
    ensures buf[j] >= 64 && Target(buf, j) == pos
  {
    assert buf[j] == buf[j..j + 2][0] && buf[j + 1] == buf[j..j + 2][1];
  }

  /** The bytes at `p` spell the labels and end with the message, from any base between `start` and `p`. */
  ghost predicate Spells(buf: seq<Byte>, start: nat, p: nat, labels: seq<seq<Byte>>) {
    forall base :: start <= base <= p ==>
      Denotes(buf, base, p, labels) && EndOf(buf, base, p, labels) == |buf|
  }

  lemma {:induction false} SpellsPointer(buf: seq<Byte>, start: nat, e: TableEntry)
    requires EntryDenotes(buf, e) && e.pos < start <= |buf|
    ensures Spells(buf + Pointer(e.pos), start, |buf|, Labels(e.suffix))
  {
    var buf' := buf + Pointer(e.pos);
    assert buf'[|buf|..|buf| + 2] == Pointer(e.pos);
    PointerTarget(e.pos, buf', |buf|);
    DenotesExtend(buf, Pointer(e.pos), e.pos, e.pos, Labels(e.suffix));
  }

  lemma {:induction false} SpellsLabel(buf: seq<Byte>, start: nat, p: nat, word: seq<Byte>, labels: seq<seq<Byte>>)
    requires 0 < |word| <= 63 && start <= p && p + 1 + |word| < |buf|
    requires buf[p] == |word| && buf[p + 1..p + 1 + |word|] == word
    requires Spells(buf, start, p + 1 + |word|, labels)
    ensures Spells(buf, start, p, [word] + labels)
  {
    assert ([word] + labels)[1..] == labels;
    forall base | start <= base <= p
      ensures Denotes(buf, base, p, [word] + labels) && EndOf(buf, base, p, [word] + labels) == |buf|
    {
      assert Denotes(buf, base, p + 1 + |word|, labels);
    }
  }

  /** A length byte, a label and what spells the rest. */
  lemma {:induction false} LabelAt(buf: seq<Byte>, word: seq<Byte>, rest: seq<Byte>)
    requires |word| <= 63
    ensures |Framed(word)| == 1 + |word|
    ensures (buf + Framed(word)) + rest == buf + (Framed(word) + rest)
    ensures var b := (buf + Framed(word)) + rest;
      b[|buf|] == |word| && b[|buf| + 1..|buf| + 1 + |word|] == word
  {
  }

  lemma {:induction false} SpellsRoot(buf: seq<Byte>, start: nat)
    ensures Spells(buf + [0], start, |buf|, [])
  {
  }

  /** The entry made for a name joins those made for its proper suffixes. */
  lemma {:induction false} NewEntries(buf: seq<Byte>, start: nat, p: nat, name: seq<Byte>, table: Table, compress: bool,
                                      final: seq<TableEntry>)
    requires Spells(buf, start, p, Labels(name)) && start <= p < 0x4000
    requires var table' := if compress then Add(table, name, p) else table;
      table' <= final && TableDenotes(buf, final[|table'|..])
    ensures table <= final && TableDenotes(buf, final[|table|..])
  {
    var table' := if compress then Add(table, name, p) else table;
    assert table <= table';
    forall i | 0 <= i < |final[|table|..]| ensures EntryDenotes(buf, final[|table|..][i]) {
      if |table| + i < |table'| {
        assert Denotes(buf, p, p, Labels(name));
        assert final[|table| + i] == table'[|table| + i];
      } else {
        assert EntryDenotes(buf, final[|table'|..][|table| + i - |table'|]);
      }
    }
  }

  ghost predicate WriteOk(buf: seq<Byte>, start: nat, name: seq<Byte>, table: Table, w: Written) {
    w.Written? && |w.bytes| > 0
    && Spells(buf + w.bytes, start, |buf|, Labels(name))
    && table <= w.table && TableDenotes(buf + w.bytes, w.table[|table|..])
  }

  lemma {:induction false} WriteMatch(buf: seq<Byte>, start: nat, n: nat, name: seq<Byte>, table: Table)
    requires Writing(buf, table, n, start, name) && GetPos(table, name) >= 0
    ensures WriteOk(buf, start, name, table, Written(Pointer(GetPos(table, name)), table))
  {
    var i :| 0 <= i < |table| && table[i].suffix == name && table[i].pos == GetPos(table, name);
    assert table[i] == table[..n][i];
    SpellsPointer(buf, start, table[i]);
  }

  lemma {:induction false} NoEntries(buf: seq<Byte>, table: seq<TableEntry>)
    ensures TableDenotes(buf, table[|table|..])
  {
  }

  lemma {:induction false} ShortLabel(name: seq<Byte>)
    requires WellFormed(name) && name != []
    ensures 0 < FirstDot(name) <= 63 && name[FirstDot(name) - 1] != 0
    ensures FirstDot(name) < |name| ==> WellFormed(name[FirstDot(name) + 1..])
  {
    assert name[FirstDot(name) - 1] in name[..FirstDot(name)];
  }

  lemma {:induction false} WriteLast(buf: seq<Byte>, start: nat, name: seq<Byte>, table: Table, compress: bool)
    requires WellFormed(name) && FirstDot(name) == |name| <= 63 && start <= |buf| < 0x4000
    ensures var table' := if compress then Add(table, name, |buf|) else table;
      WriteOk(buf, start, name, table, Written(Framed(name) + (if |name| == 0 then [] else [0]), table'))
  {
    hide Spells, TableDenotes, WellFormed;
    var table' := if compress then Add(table, name, |buf|) else table;
    if name == [] {
      assert Framed(name) + [] == [0];
      SpellsRoot(buf, start);
      NoEntries(buf + [0], table');
      NewEntries(buf + [0], start, |buf|, name, table, compress, table');
    } else {
      hide Framed;
      var b := (buf + Framed(name)) + [0];
      ShortLabel(name);
      LabelAt(buf, name, [0]);
      SpellsRoot(buf + Framed(name), start);
      SpellsLabel(b, start, |buf|, name, []);
      assert Labels(name) == [name] + [] by { assert name[..|name|] == name; }
      NoEntries(b, table');
      NewEntries(b, start, |buf|, name, table, compress, table');
    }
  }

  lemma {:induction false} LabelsStep(name: seq<Byte>)
    requires FirstDot(name) < |name|
    ensures Labels(name) == [name[..FirstDot(name)]] + Labels(name[FirstDot(name) + 1..])
  {
  }

  lemma {:induction false} WriteMore(buf: seq<Byte>, start: nat, name: seq<Byte>, table: Table, compress: bool,
                                     w: Written)
    requires WellFormed(name) && FirstDot(name) < |name| && FirstDot(name) <= 63 && start <= |buf| < 0x4000
    requires var k := FirstDot(name);
      WriteOk(buf + Framed(name[..k]), start, name[k + 1..], if compress then Add(table, name, |buf|) else table, w)
    ensures var k := FirstDot(name); WriteOk(buf, start, name, table, Written(Framed(name[..k]) + w.bytes, w.table))
  {
    hide Spells, TableDenotes, WellFormed, Framed, Labels, Add;
    var k := FirstDot(name);
    var word, tail := name[..k], name[k + 1..];
    var f := Framed(word);
    var b := (buf + f) + w.bytes;
    ShortLabel(name);
    LabelAt(buf, word, w.bytes);
    assert |buf| + 1 + |word| == |buf + f| < |b|;
    SpellsLabel(b, start, |buf|, word, Labels(tail));
    LabelsStep(name);
    NewEntries(b, start, |buf|, name, table, compress, w.table);
    assert b == buf + (f + w.bytes);
  }

  lemma {:induction false} WritingStep(buf: seq<Byte>, table: Table, compress: bool, n: nat, start: nat,
                                       name: seq<Byte>)
    requires Writing(buf, table, n, start, name) && FirstDot(name) < |name| && FirstDot(name) <= 63
    ensures start <= |buf| && |buf + Framed(name[..FirstDot(name)])| == |buf| + 1 + FirstDot(name)
    ensures Writing(buf + Framed(name[..FirstDot(name)]), if compress then Add(table, name, |buf|) else table, n, start,
                    name[FirstDot(name) + 1..])
  {
    var table' := if compress then Add(table, name, |buf|) else table;
    TableExtend(buf, Framed(name[..FirstDot(name)]), table[..n]);
    assert table'[..n] == table[..n];
  }

  /** One round of the loop of dnsname_to_labels, on values. */
  lemma {:induction false} WriteStep(name: seq<Byte>, j: nat, table: Table, compress: bool, bufLen: nat)
    ensures var k := FirstDot(name); var w := WriteLabels(name, j, table, compress, bufLen);
      var table' := if compress then Add(table, name, j) else table;
      if compress && GetPos(table, name) >= 0 then
        w == if j + 2 > bufLen then Rejected(-2) else Written(Pointer(GetPos(table, name)), table)
      else if k > 63 then w == Rejected(-1)
      else if j + k + 1 > bufLen then w == Rejected(-2)
      else if k == |name| then w == Written(Framed(name) + (if k == 0 || name[k - 1] == 0 then [] else [0]), table')
      else
        var v := WriteLabels(name[k + 1..], j + 1 + k, table', compress, bufLen);
        w == if v.Written? then Written(Framed(name[..k]) + v.bytes, v.table) else v
  {
    hide GetPos, FirstDot, Add, Framed;
  }

  /** Where one round leads: it ends, or it goes on behind the first label. */
  lemma {:induction false} WriteOn(buf: seq<Byte>, start: nat, name: seq<Byte>, table: Table, compress: bool,
                                   bufLen: nat)
    requires WellFormed(name) && FirstDot(name) < |name| && start <= |buf| < 0x4000
    requires !(compress && GetPos(table, name) >= 0)
    requires WriteLabels(name, |buf|, table, compress, bufLen).Written?
    ensures FirstDot(name) <= 63 && |buf| + FirstDot(name) + 1 <= bufLen
    ensures var k, table' := FirstDot(name), if compress then Add(table, name, |buf|) else table;
      var w := WriteLabels(name[k + 1..], |buf| + 1 + k, table', compress, bufLen);
      && w.Written?
      && (WriteOk(buf + Framed(name[..k]), start, name[k + 1..], table', w)
          ==> WriteOk(buf, start, name, table, WriteLabels(name, |buf|, table, compress, bufLen)))
  {
    hide WriteOk, WellFormed, Framed, Add, WriteLabels, GetPos, FirstDot;
    WriteStep(name, |buf|, table, compress, bufLen);
    var k, table' := FirstDot(name), if compress then Add(table, name, |buf|) else table;
    var w := WriteLabels(name[k + 1..], |buf| + 1 + k, table', compress, bufLen);
    if WriteOk(buf + Framed(name[..k]), start, name[k + 1..], table', w) {
      WriteMore(buf, start, name, table, compress, w);
    }
  }

  lemma {:induction false} WriteEnds(buf: seq<Byte>, start: nat, n: nat, name: seq<Byte>, table: Table, compress: bool,
                                     bufLen: nat)
    requires WellFormed(name) && bufLen <= 0x4000 && Writing(buf, table, n, start, name)
    requires WriteLabels(name, |buf|, table, compress, bufLen).Written?
    requires (compress && GetPos(table, name) >= 0) || FirstDot(name) == |name|
    ensures WriteOk(buf, start, name, table, WriteLabels(name, |buf|, table, compress, bufLen))
  {
    hide WriteOk, WellFormed, Framed, Add, WriteLabels, GetPos, FirstDot;
    assert start <= |buf|;
    WriteStep(name, |buf|, table, compress, bufLen);
    if compress && GetPos(table, name) >= 0 {
      WriteMatch(buf, start, n, name, table);
    } else {
      hide Writing;
      if name != [] { ShortLabel(name); }
      WriteLast(buf, start, name, table, compress);
    }
  }

  /** The bytes written after `buf` spell the name, and so does every table entry made for it. */
  lemma {:induction false} WriteSpells(buf: seq<Byte>, start: nat, n: nat, name: seq<Byte>, table: Table,
                                       compress: bool, bufLen: nat)
    requires WellFormed(name) && bufLen <= 0x4000
    requires WriteLabels(name, |buf|, table, compress, bufLen).Written?
    requires Writing(buf, table, n, start, name)
    ensures WriteOk(buf, start, name, table, WriteLabels(name, |buf|, table, compress, bufLen))
    decreases |name|
  {
    hide WriteOk, WellFormed, Framed, Add, WriteLabels, GetPos, FirstDot;
    assert start <= |buf|;
    hide Writing;
    var k := FirstDot(name);
    if (compress && GetPos(table, name) >= 0) || k == |name| {
      WriteEnds(buf, start, n, name, table, compress, bufLen);
    } else {
      WriteStep(name, |buf|, table, compress, bufLen);
      WriteOn(buf, start, name, table, compress, bufLen);
      WritingStep(buf, table, compress, n, start, name);
      if name != [] { ShortLabel(name); }
      var table' := if compress then Add(table, name, |buf|) else table;
      WriteSpells(buf + Framed(name[..k]), start, n, name[k + 1..], table', compress, bufLen);
    }
  }

  // ----- round trips -----

  lemma {:induction false} TrailingDot(name: seq<Byte>, k: nat)
    requires name != [] && k <= |name| && (k < |name| ==> name[k] == DOT)
    requires forall i :: 0 <= i < k ==> name[i] != DOT
    ensures WithoutTrailingDot(name) ==
        if k == |name| then name
        else if k + 1 == |name| then name[..k]
        else name[..k] + [DOT] + WithoutTrailingDot(name[k + 1..])
  {
    if k + 1 < |name| {
      var rest := name[k + 1..];
      assert rest[|rest| - 1] == name[|name| - 1];
      assert name == name[..k] + [DOT] + rest;
      assert name[..|name| - 1] == name[..k] + [DOT] + rest[..|rest| - 1];
    }
  }

  lemma {:induction false} Apart(a: seq<Byte>, b: seq<Byte>, c: seq<Byte>, d: seq<Byte>)
    ensures a + (b + c + d) == (a + b) + c + d
  {
  }

  lemma {:induction false} OneLabel(name: seq<Byte>)
    requires name != [] && FirstDot(name) == |name|
    ensures Labels(name) == [name]
  {
    assert name[..|name|] == name;
  }

  /** Putting one more label down. */
  lemma {:induction false} DottedStep(out: seq<Byte>, word: seq<Byte>, labels: seq<seq<Byte>>)
    ensures var text := if out == [] then [] else out + [DOT];
      Dotted(out, [word] + labels) == Dotted(text + word, labels) && Dotted(text + word, []) == text + word
    ensures [word] + [] == [word] && Labels([]) == []
  {
    assert ([word] + labels)[0] == word && ([word] + labels)[1..] == labels;
  }

  /** The labels of a name, put together again, are the name without its trailing dot. */
  lemma {:induction false} DottedLabels(out: seq<Byte>, name: seq<Byte>)
    requires WellFormed(name) && name != []
    ensures Dotted(out, Labels(name)) == (if out == [] then [] else out + [DOT]) + WithoutTrailingDot(name)
    decreases |name|
  {
    hide WithoutTrailingDot, WellFormed, Labels, Dotted;
    var k := FirstDot(name);
    var text := if out == [] then [] else out + [DOT];
    ShortLabel(name);
    TrailingDot(name, k);
    if k == |name| {
      OneLabel(name);
      DottedStep(out, name, []);
    } else {
      var rest := name[k + 1..];
      LabelsStep(name);
      DottedStep(out, name[..k], Labels(rest));
      if rest == [] {
        DottedStep(out, name[..k], []);
      } else {
        DottedLabels(text + name[..k], rest);
        Apart(text, name[..k], [DOT], WithoutTrailingDot(rest));
      }
    }
  }

  lemma {:induction false} NameText(name: seq<Byte>)
    requires WellFormed(name)
    ensures Dotted([], Labels(name)) == WithoutTrailingDot(name)
  {
    if name != [] {
      DottedLabels([], name);
    }
  }

  /** The table describes names that lie within the message. */
  ghost predicate Consistent(buf: seq<Byte>, table: Table) {
    TableDenotes(buf, table) && forall i :: 0 <= i < |table| ==> table[i].pos < |buf|
  }

  lemma {:induction false} ConsistentExtend(buf: seq<Byte>, more: seq<Byte>, table: Table)
    requires Consistent(buf, table)
    ensures Consistent(buf + more, table)
  {
    TableExtend(buf, more, table);
  }

  lemma {:induction false} ConsistentWrite(buf: seq<Byte>, name: seq<Byte>, table: Table, w: Written)
    requires Consistent(buf, table) && WriteOk(buf, |buf|, name, table, w)
    ensures Consistent(buf + w.bytes, w.table)
  {
    TableExtend(buf, w.bytes, table);
    forall i | 0 <= i < |w.table| ensures EntryDenotes(buf + w.bytes, w.table[i]) {
      if i < |table| {
        assert w.table[i] == table[i];
      } else {
        assert w.table[i] == w.table[|table|..][i - |table|];
      }
    }
  }

  /**
    A name written behind any message, with or without compression, is read back by the parser
    whatever follows it, and the parser stops right behind it.
   */
  lemma {:induction false} WriteThenParse(buf: seq<Byte>, name: seq<Byte>, table: Table, compress: bool, bufLen: nat,
                                          more: seq<Byte>, outLen: nat)
    requires WellFormed(name) && Consistent(buf, table) && bufLen <= 0x4000
    requires WriteName(name, |buf|, table, compress, bufLen).Written?
    requires |WithoutTrailingDot(name)| < outLen
    ensures var w := WriteName(name, |buf|, table, compress, bufLen);
      && |w.bytes| > 0 && Consistent(buf + w.bytes, w.table)
      && Parse(buf + w.bytes + more, |buf|, outLen) == Parsed(WithoutTrailingDot(name), |buf + w.bytes|)
  {
    var w := WriteName(name, |buf|, table, compress, bufLen);
    assert table[..|table|] == table;
    WriteSpells(buf, |buf|, |table|, name, table, compress, bufLen);
    ConsistentWrite(buf, name, table, w);
    var buf' := buf + w.bytes;
    assert Denotes(buf', |buf|, |buf|, Labels(name));
    DenotesExtend(buf', more, |buf|, |buf|, Labels(name));
    NameText(name);
    ParseDenoted(buf' + more, |buf|, |buf|, Labels(name), -1, 0, [], outLen);
  }

  /** A name of a message and the other fields that follow it. */
  datatype Piece = Piece(name: seq<Byte>, fields: seq<Byte>)

  /** The message that results from writing the pieces one after the other with one table. */
  function WriteAll(buf: seq<Byte>, pieces: seq<Piece>, table: Table, bufLen: nat): Written
    decreases |pieces|
  {
    if pieces == [] then Written(buf, table)
    else
      match WriteName(pieces[0].name, |buf|, table, true, bufLen)
      case Written(bytes, t) => WriteAll(buf + bytes + pieces[0].fields, pieces[1..], t, bufLen)
      case Rejected(code) => Rejected(code)
  }

  /** Where the i-th name of the message starts. */
  function StartOf(buf: seq<Byte>, pieces: seq<Piece>, table: Table, bufLen: nat, i: nat): nat
    requires i <= |pieces| && WriteAll(buf, pieces, table, bufLen).Written?
    decreases i
  {
    if i == 0 then |buf|
    else
      var w := WriteName(pieces[0].name, |buf|, table, true, bufLen);
      StartOf(buf + w.bytes + pieces[0].fields, pieces[1..], w.table, bufLen, i - 1)
  }

  lemma {:induction false} WriteAllExtends(buf: seq<Byte>, pieces: seq<Piece>, table: Table, bufLen: nat)
    requires WriteAll(buf, pieces, table, bufLen).Written?
    ensures buf <= WriteAll(buf, pieces, table, bufLen).bytes
    decreases |pieces|
  {
    if pieces != [] {
      var w := WriteName(pieces[0].name, |buf|, table, true, bufLen);
      WriteAllExtends(buf + w.bytes + pieces[0].fields, pieces[1..], w.table, bufLen);
    }
  }

  /** The piece is read back at `start`, its fields follow the name, and what follows them starts at `next`. */
  ghost predicate ReadsBack(message: seq<Byte>, start: nat, piece: Piece, next: nat) {
    var r := Parse(message, start, 256);
    && r.Parsed? && r.name == WithoutTrailingDot(piece.name)
    && next == r.next + |piece.fields| <= |message| && message[r.next..next] == piece.fields
  }

  lemma {:induction false} PieceReadBack(buf: seq<Byte>, piece: Piece, table: Table, bufLen: nat, more: seq<Byte>)
    requires WellFormed(piece.name) && Consistent(buf, table) && bufLen <= 0x4000
    requires WriteName(piece.name, |buf|, table, true, bufLen).Written?
    ensures var w := WriteName(piece.name, |buf|, table, true, bufLen); var buf' := buf + w.bytes + piece.fields;
      Consistent(buf', w.table) && ReadsBack(buf' + more, |buf|, piece, |buf'|)
  {
    hide Consistent, Parse;
    var w := WriteName(piece.name, |buf|, table, true, bufLen);
    var buf' := buf + w.bytes + piece.fields;
    assert buf + w.bytes + (piece.fields + more) == buf' + more;
    WriteThenParse(buf, piece.name, table, true, bufLen, piece.fields + more, 256);
    ConsistentExtend(buf + w.bytes, piece.fields, w.table);
  }

  /**
    Any sequence of names written into one message with one compression table, whatever stands
    between them: each is read back from where it starts, through chained pointers and also after
    the table is full, and the parser stops where the fields after the name begin.
   */
  lemma {:induction false} AllNamesReadBack(buf: seq<Byte>, pieces: seq<Piece>, table: Table, bufLen: nat, i: nat)
    requires Consistent(buf, table) && bufLen <= 0x4000 && i < |pieces|
    requires forall k :: 0 <= k < |pieces| ==> WellFormed(pieces[k].name)
    requires WriteAll(buf, pieces, table, bufLen).Written?
    ensures ReadsBack(WriteAll(buf, pieces, table, bufLen).bytes, StartOf(buf, pieces, table, bufLen, i),
                      pieces[i], StartOf(buf, pieces, table, bufLen, i + 1))
    decreases |pieces|
  {
    hide Consistent, ReadsBack, WellFormed, WriteName;
    var w := WriteName(pieces[0].name, |buf|, table, true, bufLen);
    var buf' := buf + w.bytes + pieces[0].fields;
    WriteAllExtends(buf', pieces[1..], w.table, bufLen);
    var message := WriteAll(buf, pieces, table, bufLen).bytes;
    assert message == buf' + message[|buf'|..];
    PieceReadBack(buf, pieces[0], table, bufLen, message[|buf'|..]);
    if i > 0 {
      AllNamesReadBack(buf', pieces[1..], w.table, bufLen, i - 1);
    }
  }

  /** Well-formed names are refused only for lack of room. */
  lemma {:induction false} WriteFits(name: seq<Byte>, j: nat, table: Table, compress: bool, bufLen: nat)
    requires WellFormed(name) && j + |name| + 2 <= bufLen
    ensures var w := WriteLabels(name, j, table, compress, bufLen); w.Written? && |w.bytes| <= |name| + 2
    decreases |name|
  {
    if name != [] {
      ShortLabel(name);
      var k := FirstDot(name);
      if !(compress && GetPos(table, name) >= 0) && k < |name| {
        WriteFits(name[k + 1..], j + 1 + k, if compress then Add(table, name, j) else table, compress, bufLen);
      }
    }
  }

  /** What is accepted fits, but for the final zero. */
  lemma {:induction false} NameBound(name: seq<Byte>, j: nat, table: Table, compress: bool, bufLen: nat)
    requires WriteName(name, j, table, compress, bufLen).Written?
    ensures j + |WriteName(name, j, table, compress, bufLen).bytes| <= bufLen + 1
    decreases |name|
  {
    hide Add, GetPos;
    if !(compress && GetPos(table, name) >= 0) && FirstDot(name) < |name| {
      var k := FirstDot(name);
      NameBound(name[k + 1..], j + 1 + k, if compress then Add(table, name, j) else table, compress, bufLen);
    }
  }

  // ----- the code -----

  /** memcpy into a buffer */
  method Copy(buf: array<Byte>, at: nat, src: seq<Byte>)
    requires at + |src| <= buf.Length
    modifies buf
    ensures buf[..at] == old(buf[..at]) && buf[at..at + |src|] == src
    ensures buf[at + |src|..] == old(buf[at + |src|..])
  {
    for i := 0 to |src|
      invariant buf[..at] == old(buf[..at])
      invariant forall k :: 0 <= k < i ==> buf[at + k] == src[k]
      invariant forall k :: at + i <= k < buf.Length ==> buf[k] == old(buf[k])
    {
      buf[at + i] := src[i];
    }
  }

  method CopyBehind(buf: array<Byte>, at: nat, src: seq<Byte>) returns (end: nat)
    requires at + |src| <= buf.Length
    modifies buf
    ensures end == at + |src| && buf[..end] == old(buf[..at]) + src
  {
    Copy(buf, at, src);
    assert buf[..at + |src|] == buf[..at] + buf[at..at + |src|];
    return at + |src|;
  }

  /** The label at `j` goes behind the first `cp` characters, after a dot unless it is the first. */
  method PutLabel(packet: seq<Byte>, j: nat, nameOut: array<Byte>, cp: nat) returns (room: bool, end: nat)
    requires j < |packet| && cp <= nameOut.Length
    modifies nameOut
    ensures var out := old(nameOut[..cp]); var text := if cp == 0 then [] else out + [DOT];
      && room == ((cp == 0 || cp + 1 < nameOut.Length) && |text| + packet[j] < nameOut.Length
                  && j + 1 + packet[j] <= |packet|)
      && (room ==> end == |text| + packet[j] && nameOut[..end] == text + packet[j + 1..j + 1 + packet[j]])
  {
    end := cp;
    var labelLen := packet[j];
    if cp != 0 {
      if cp + 1 >= nameOut.Length { return false, cp; }
      nameOut[cp] := DOT;
      end := cp + 1;
    }
    if end + labelLen >= nameOut.Length { return false, cp; }
    if j + 1 + labelLen > |packet| { return false, cp; }
    end := CopyBehind(nameOut, end, packet[j + 1..j + 1 + labelLen]);
    room := true;
  }

  /** name_parse: the text goes to `nameOut`, closed by a zero byte. */
  method NameParse(packet: seq<Byte>, idx: nat, nameOut: array<Byte>) returns (ok: bool, next: nat)
    modifies nameOut
    ensures match Parse(packet, idx, nameOut.Length)
      case Failed => !ok && next == idx
      case Parsed(name, end) => ok && next == end && nameOut[..|name|] == name && nameOut[|name|] == 0
  {
    var nameEnd, j: nat, ptrCount: nat, cp: nat := -1, idx, 0, 0;
    ghost var whole := Parse(packet, idx, nameOut.Length);
    while true
      invariant ptrCount <= |packet| && cp <= nameOut.Length
      invariant whole == ParseFrom(packet, j, nameEnd, ptrCount, nameOut[..cp], nameOut.Length)
      decreases |packet| - ptrCount + nameOut.Length - cp
    {
      if j >= |packet| { return false, idx; }
      var labelLen := packet[j];
      if labelLen == 0 { j := j + 1; break; }
      if labelLen >= 64 {
        if j + 1 >= |packet| { return false, idx; }
        if nameEnd < 0 { nameEnd := j + 2; }
        j := Target(packet, j);
        if j >= |packet| { return false, idx; }
        ptrCount := ptrCount + 1;
        if ptrCount > |packet| { return false, idx; }
        continue;
      }
      var room;
      room, cp := PutLabel(packet, j, nameOut, cp);
      if !room { return false, idx; }
      j := j + 1 + labelLen;
    }
    if cp >= nameOut.Length { return false, idx; }
    nameOut[cp] := 0;
    next := if nameEnd < 0 then j else nameEnd;
    ok := true;
  }

  /** `struct dnslabel_table` */
  class LabelTable {
    var labels: Table

    constructor ()
      ensures labels == []
    {
      labels := [];
    }
  }

  /** What is written when `done` stands before `w`. */
  ghost function Behind(done: seq<Byte>, w: Written): Written {
    match w
    case Written(bytes, t) => Written(done + bytes, t)
    case Rejected(code) => Rejected(code)
  }

  lemma {:induction false} BehindStep(done: seq<Byte>, name: seq<Byte>, j: nat, table: Table, compress: bool,
                                      bufLen: nat)
    requires !(compress && GetPos(table, name) >= 0)
    ensures var k := FirstDot(name); var w := Behind(done, WriteLabels(name, j, table, compress, bufLen));
      var table' := if compress then Add(table, name, j) else table;
      if k > 63 then w == Rejected(-1)
      else if j + k + 1 > bufLen then w == Rejected(-2)
      else if k == |name| then
        w == Written(done + Framed(name) + (if k == 0 || name[k - 1] == 0 then [] else [0]), table')
      else w == Behind(done + Framed(name[..k]), WriteLabels(name[k + 1..], j + 1 + k, table', compress, bufLen))
  {
    hide WriteLabels, Framed, Add, GetPos, FirstDot;
    WriteStep(name, j, table, compress, bufLen);
    var k := FirstDot(name);
    if k < |name| && k <= 63 {
      var v := WriteLabels(name[k + 1..], j + 1 + k, if compress then Add(table, name, j) else table, compress, bufLen);
      if v.Written? { assert done + (Framed(name[..k]) + v.bytes) == (done + Framed(name[..k])) + v.bytes; }
    }
  }

  lemma {:induction false} BehindNothing(w: Written)
    ensures Behind([], w) == w
  {
  }

  lemma {:induction false} BehindMatch(done: seq<Byte>, name: seq<Byte>, j: nat, table: Table, bufLen: nat)
    requires GetPos(table, name) >= 0
    ensures Behind(done, WriteLabels(name, j, table, true, bufLen)) ==
      if j + 2 > bufLen then Rejected(-2) else Written(done + Pointer(GetPos(table, name)), table)
  {
  }

  lemma {:induction false} LastOf(name: seq<Byte>, k: nat)
    requires k <= |name| && k <= 63
    ensures |Framed(name[..k])| == k + 1 && Framed(name[..k])[k] == if k == 0 then 0 else name[k - 1]
  {
  }

  /** Writes `bytes` behind what is already there, which is `head + done`. */
  method Append(buf: array<Byte>, j: nat, bytes: seq<Byte>, ghost head: seq<Byte>, ghost done: seq<Byte>)
    requires j + |bytes| <= buf.Length && buf[..j] == head + done
    modifies buf
    ensures buf[..j + |bytes|] == head + (done + bytes)
    ensures forall i :: 0 <= i < |bytes| ==> buf[j + i] == bytes[i]
  {
    Copy(buf, j, bytes);
    assert buf[..j + |bytes|] == buf[..j] + buf[j..j + |bytes|];
    assert buf[j..j + |bytes|] == bytes;
    forall i | 0 <= i < |bytes| ensures buf[j + i] == bytes[i] { assert buf[j..j + |bytes|][i] == bytes[i]; }
  }

  /** The terminating zero, unless the last byte is one. */
  method PutEnd(buf: array<Byte>, r: nat, ghost head: seq<Byte>, ghost done: seq<Byte>) returns (end: nat)
    requires 0 < r == |head| + |done| < buf.Length && buf[..r] == head + done
    modifies buf
    ensures end == |head| + |done + (if old(buf[r - 1]) == 0 then [] else [0])| <= buf.Length
    ensures buf[..end] == head + (done + (if old(buf[r - 1]) == 0 then [] else [0]))
  {
    if buf[r - 1] != 0 {
      Append(buf, r, [0], head, done);
      return r + 1;
    }
    assert done + [] == done;
    return r;
  }

  /** The last label, and the terminating zero unless the label ends in one. */
  method PutLast(buf: array<Byte>, j: nat, name: seq<Byte>, ghost head: seq<Byte>, ghost done: seq<Byte>)
    returns (end: nat)
    requires |name| <= 63 && j == |head| + |done| && j + |name| + 1 < buf.Length && buf[..j] == head + done
    modifies buf
    ensures var bytes := done + Framed(name) + (if name == [] || name[|name| - 1] == 0 then [] else [0]);
      end == |head| + |bytes| <= buf.Length && buf[..end] == head + bytes
  {
    LastOf(name, |name|);
    assert name[..|name|] == name;
    hide Framed;
    Append(buf, j, Framed(name), head, done);
    end := PutEnd(buf, j + 1 + |name|, head, done + Framed(name));
  }

  /** A pointer to where the rest of the name stands already. */
  method PutPointer(buf: array<Byte>, bufLen: nat, j: nat, ref: int, ghost head: seq<Byte>, ghost done: seq<Byte>)
    returns (r: int)
    requires ref >= 0 && j == |head| + |done| <= buf.Length && bufLen < buf.Length && buf[..j] == head + done
    modifies buf
    ensures if j + 2 > bufLen then r == -2
      else r == |head| + |done + Pointer(ref)| <= buf.Length && buf[..r] == head + (done + Pointer(ref))
  {
    if j + 2 > bufLen { return -2; }
    Append(buf, j, Pointer(ref), head, done);
    return j + 2;
  }

  /** One round of the loop of dnsname_to_labels. */
  method PutNext(buf: array<Byte>, bufLen: nat, j: nat, name: seq<Byte>, table: LabelTable?, ghost head: seq<Byte>,
                 ghost done: seq<Byte>)
    returns (stop: bool, r: int, rest: seq<Byte>, ghost done': seq<Byte>)
    requires j == |head| + |done| <= buf.Length && bufLen < buf.Length && buf[..j] == head + done
    modifies buf, table
    ensures var w := Behind(done,
      WriteLabels(name, j, if table == null then [] else old(table.labels), table != null, bufLen));
      if stop then
        (match w
         case Rejected(code) => r == code
         case Written(bytes, t) =>
           && r == |head| + |bytes| <= buf.Length && buf[..r] == head + bytes
           && (table != null ==> table.labels == t))
      else
        && r == |head| + |done'| <= buf.Length && buf[..r] == head + done' && |rest| < |name|
        && w == Behind(done', WriteLabels(rest, r, if table == null then [] else table.labels, table != null, bufLen))
  {
    hide WriteLabels, Framed, FirstDot, GetPos, Add, Behind;
    ghost var t: Table := if table == null then [] else table.labels;
    rest, done' := name, done;
    if table != null {
      var ref := GetPos(table.labels, name);
      if ref >= 0 {
        BehindMatch(done, name, j, t, bufLen);
        r := PutPointer(buf, bufLen, j, ref, head, done);
        return true, r, rest, done';
      }
    }
    BehindStep(done, name, j, t, table != null, bufLen);
    var k := FirstDot(name);
    if k > 63 { return true, -1, rest, done'; }
    if j + k + 1 > bufLen { return true, -2, rest, done'; }
    if table != null {
      table.labels := Add(table.labels, name, j);
    }
    if k == |name| {
      var end := PutLast(buf, j, name, head, done);
      return true, end, rest, done';
    }
    LastOf(name, k);
    Append(buf, j, Framed(name[..k]), head, done);
    r, done' := j + 1 + k, done + Framed(name[..k]);
    stop, rest := false, name[k + 1..];
  }

  /** dnsname_to_labels; a null table means no compression. One byte behind `bufLen` must exist. */
  method DnsnameToLabels(buf: array<Byte>, bufLen: nat, j0: nat, name0: seq<Byte>, table: LabelTable?) returns (r: int)
    requires j0 <= buf.Length && bufLen < buf.Length
    modifies buf, table
    ensures match WriteName(name0, j0, if table == null then [] else old(table.labels), table != null, bufLen)
      case Rejected(code) => r == code
      case Written(bytes, t) =>
        && r == j0 + |bytes| <= buf.Length && buf[..r] == old(buf[..j0]) + bytes
        && (table != null ==> table.labels == t)
  {
    if |name0| > 255 { return -2; }
    hide WriteLabels, Behind;
    r := j0;
    var name, stop := name0, false;
    ghost var done: seq<Byte> := [];
    ghost var head := buf[..j0];
    ghost var whole := WriteLabels(name0, j0, if table == null then [] else table.labels, table != null, bufLen);
    BehindNothing(whole);
    while !stop
      invariant if stop then
          (match whole
           case Rejected(code) => r == code
           case Written(bytes, t) =>
             && r == j0 + |bytes| <= buf.Length && buf[..r] == head + bytes
             && (table != null ==> table.labels == t))
        else
          && r == j0 + |done| <= buf.Length && buf[..r] == head + done
          && whole == Behind(done,
            WriteLabels(name, r, if table == null then [] else table.labels, table != null, bufLen))
      decreases !stop, |name|
    {
      stop, r, name, done := PutNext(buf, bufLen, r, name, table, head, done);
    }
  }
}
