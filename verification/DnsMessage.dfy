/**
  DNS messages (evdns.c): the response a server formats from its records, and the
  address records a client reads out of a response (section 4.1.3 of RFC 1035).
 */
module DnsMessage {
  import opened Basics
  import opened DnsName

  const BUF_LEN := 1500
  const MAX_ADDRS := 32
  const TYPE_A := 1
  const TYPE_AAAA := 28
  const CLASS_INET := 1

  type U16 = x: int | 0 <= x < 0x1_0000
  type U32 = x: int | 0 <= x < 0x1_0000_0000

  // ----- numbers in network byte order -----

  function Put16(x: U16): seq<Byte> {
    [x / 256, x % 256]
  }

  function Put32(x: U32): seq<Byte> {
    Put16(x / 0x1_0000) + Put16(x % 0x1_0000)
  }

  function Get16(p: seq<Byte>, j: nat): U16
    requires j + 2 <= |p|
  {
    var a: int, b: int := p[j], p[j + 1];
    a * 256 + b
  }

  function Get32(p: seq<Byte>, j: nat): U32
    requires j + 4 <= |p|
  {
    var hi: int, lo: int := Get16(p, j), Get16(p, j + 2);
    hi * 0x1_0000 + lo
  }

  lemma {:induction false} Get16Put16(p: seq<Byte>, j: nat, x: U16)
    requires j + 2 <= |p| && p[j..j + 2] == Put16(x)
    ensures Get16(p, j) == x
  {
    assert p[j] == p[j..j + 2][0] && p[j + 1] == p[j..j + 2][1];
  }

  lemma {:induction false} Get32Put32(p: seq<Byte>, j: nat, x: U32)
    requires j + 4 <= |p| && p[j..j + 4] == Put32(x)
    ensures Get32(p, j) == x
  {
    assert p[j..j + 2] == p[j..j + 4][..2] && p[j + 2..j + 4] == p[j..j + 4][2..];
    Get16Put16(p, j, x / 0x1_0000);
    Get16Put16(p, j + 2, x % 0x1_0000);
  }

  // ----- the server's side -----

  datatype Question = Question(name: seq<Byte>, qtype: U16, qclass: U16)

  /** `struct server_reply_item`: its data is raw bytes or a name. */
  datatype Data = Raw(bytes: seq<Byte>) | Domain(name: seq<Byte>)

  datatype Record = Record(name: seq<Byte>, rtype: U16, rclass: U16, ttl: U32, data: Data)

  datatype Request = Request(
    transId: U16, flags: U16, questions: seq<Question>,
    answer: seq<Record>, authority: seq<Record>, additional: seq<Record>)

  function Header(req: Request, flags: U16): seq<Byte> {
    Put16(req.transId) + Put16(flags) +
    Put16(|req.questions| % 0x1_0000) + Put16(|req.answer| % 0x1_0000) +
    Put16(|req.authority| % 0x1_0000) + Put16(|req.additional| % 0x1_0000)
  }

  function QuestionFields(q: Question): (s: seq<Byte>)
    ensures |s| == 4
  {
    Put16(q.qtype) + Put16(q.qclass)
  }

  /** A message so far and its compression table, or an error code of the writer. */
  function WriteQuestion(buf: seq<Byte>, q: Question, table: Table): Written {
    match WriteName(q.name, |buf|, table, true, BUF_LEN)
    case Rejected(code) => Rejected(code)
    case Written(bytes, t) =>
      if |buf + bytes| + 4 > BUF_LEN then Rejected(-2)
      else Written(buf + bytes + QuestionFields(q), t)
  }

  function WriteQuestions(buf: seq<Byte>, qs: seq<Question>, table: Table): Written
    decreases |qs|
  {
    if qs == [] then Written(buf, table)
    else
      match WriteQuestion(buf, qs[0], table)
      case Rejected(code) => Rejected(code)
      case Written(b, t) => WriteQuestions(b, qs[1..], t)
  }

  function RecordHead(r: Record): seq<Byte> {
    Put16(r.rtype) + Put16(r.rclass) + Put32(r.ttl)
  }

  function WriteRecord(buf: seq<Byte>, r: Record, table: Table): Written {
    match WriteName(r.name, |buf|, table, true, BUF_LEN)
    case Rejected(code) => Rejected(code)
    case Written(bytes, t) =>
      var b := buf + bytes;
      if |b| + 8 > BUF_LEN then Rejected(-2)
      else
        match r.data
        case Raw(data) =>
          if |data| >= 0x1_0000 || |b| + 10 + |data| > BUF_LEN then Rejected(-2)
          else Written(b + (RecordHead(r) + Put16(|data|) + data), t)
        case Domain(name) =>
          match WriteName(name, |b| + 10, t, true, BUF_LEN)
          case Rejected(code) => Rejected(code)
          case Written(data, t') =>
            if |data| >= 0x1_0000 then Rejected(-2)
            else Written(b + (RecordHead(r) + Put16(|data|) + data), t')
  }

  function WriteRecords(buf: seq<Byte>, rs: seq<Record>, table: Table): Written
    decreases |rs|
  {
    if rs == [] then Written(buf, table)
    else
      match WriteRecord(buf, rs[0], table)
      case Rejected(code) => Rejected(code)
      case Written(b, t) => WriteRecords(b, rs[1..], t)
  }

  /** evdns_server_request_format_response, without the path that truncates at 512 bytes. */
  function FormatResponse(req: Request, flags: U16): Written {
    match WriteQuestions(Header(req, flags), req.questions, [])
    case Rejected(code) => Rejected(code)
    case Written(b, t) => WriteRecords(b, req.answer + req.authority + req.additional, t)
  }

  // ----- the client's side -----

  /** `struct reply` for addresses: the smallest TTL read, the addresses as bytes, whether there was an answer. */
  datatype Reply = Reply(ttl: U32, addrs: seq<Byte>, have: bool)

  datatype Outcome = Ok(reply: Reply) | Bad

  /** Bytes per address of the two address types. */
  function Unit(rtype: int): (u: nat)
    ensures u == 4 || u == 16
  {
    if rtype == TYPE_A then 4 else 16
  }

  function Min(a: int, b: int): int {
    if a < b then a else b
  }

  /** What one round of the loop over the answers leads to. */
  datatype Step = Fail | Stop(reply: Reply) | Next(j: nat, reply: Reply)

  /** One round for an asked type A or AAAA. */
  function AnswerStep(p: seq<Byte>, j: nat, asked: int, acc: Reply): (s: Step)
    requires |acc.addrs| <= MAX_ADDRS * Unit(asked)
    ensures s.Next? ==> |s.reply.addrs| <= MAX_ADDRS * Unit(asked)
  {
    match Parse(p, j, 256)
    case Failed => Fail
    case Parsed(_, at) =>
      if at + 10 > |p| then Fail
      else
        var rtype, rclass, ttl, len := Get16(p, at), Get16(p, at + 2), Get32(p, at + 4), Get16(p, at + 8);
        if rtype == asked && rclass == CLASS_INET then
          if len % Unit(asked) != 0 then Fail
          else
            var copy := Min(MAX_ADDRS * Unit(asked) - |acc.addrs|, len);
            if at + 10 + copy > |p| then Fail
            else
              var acc' := Reply(Min(acc.ttl, ttl), acc.addrs + p[at + 10..at + 10 + copy], true);
              if |acc'.addrs| == MAX_ADDRS * Unit(asked) then Stop(acc') else Next(at + 10 + copy, acc')
        else Next(at + 10 + len, acc)
  }

  /** The loop over the answers of reply_parse. */
  function ParseAnswers(p: seq<Byte>, j: nat, n: nat, asked: int, acc: Reply): Outcome
    requires |acc.addrs| <= MAX_ADDRS * Unit(asked)
    decreases n
  {
    if n == 0 then Ok(acc)
    else
      match AnswerStep(p, j, asked, acc)
      case Fail => Bad
      case Stop(reply) => Ok(reply)
      case Next(j', reply) => ParseAnswers(p, j', n - 1, asked, reply)
  }

  function SkipQuestions(p: seq<Byte>, j: nat, n: nat): (r: int)
    ensures r == -1 || 0 <= r
    decreases n
  {
    if n == 0 then j
    else
      match Parse(p, j, 256)
      case Failed => -1
      case Parsed(_, at) => if at + 4 > |p| then -1 else SkipQuestions(p, at + 4, n - 1)
  }

  predicate IsResponse(flags: U16) {
    flags >= 0x8000
  }

  /** flags & 0x020f: the truncation bit or an error code. */
  predicate HasError(flags: U16) {
    flags % 16 != 0 || flags / 512 % 2 == 1
  }

  /** The masks 0x8000 and 0x020f bit by bit; section 4.1.1 of RFC 1035. */
  lemma {:induction false} FlagBits(flags: U16)
    ensures IsResponse(flags) <==> flags / 0x8000 == 1
    ensures !HasError(flags) <==>
      Bit(flags, 9) == Bit(flags, 3) == Bit(flags, 2) == Bit(flags, 1) == Bit(flags, 0) == 0
  {
    Powers();
    FourBits(flags);
    hide Pow2;
    assert Bit(flags, 9) == flags / 0x200 % 2;
    hide Bit;
  }

  /** reply_parse for a request of type A or AAAA that matches the packet's transaction id. */
  function ParseReply(p: seq<Byte>, asked: int): Outcome
    requires asked == TYPE_A || asked == TYPE_AAAA
  {
    if |p| < 12 then Bad
    else
      var flags, questions, answers := Get16(p, 2), Get16(p, 4), Get16(p, 6);
      if !IsResponse(flags) || HasError(flags) then Bad
      else
        var j := SkipQuestions(p, 12, questions);
        if j < 0 then Bad else ParseAnswers(p, j, answers, asked, Reply(0xffff_ffff, [], false))
  }

  lemma {:induction false} HighByte(a: Byte, b: Byte)
    ensures var flags: int := 256 * a + b;
      flags % 16 == b % 16 && flags / 512 == a / 2 && (flags >= 0x8000 <==> a / 128 == 1)
  {
  }

  /** A packet that is no response, or reports an error, is not read. */
  lemma {:induction false} ErrorsRejected(p: seq<Byte>, asked: int)
    requires (asked == 1 || asked == 28) && |p| >= 12
    requires p[2] / 128 == 0 || p[2] / 2 % 2 == 1 || p[3] % 16 != 0
    ensures ParseReply(p, asked) == Bad
  {
    hide SkipQuestions, ParseAnswers;
    HighByte(p[2], p[3]);
  }

  lemma {:induction false} RecordsExtend(buf: seq<Byte>, rs: seq<Record>, table: Table)
    requires WriteRecords(buf, rs, table).Written?
    ensures buf <= WriteRecords(buf, rs, table).bytes
    decreases |rs|
  {
    if rs != [] {
      var w := WriteRecord(buf, rs[0], table);
      RecordsExtend(w.bytes, rs[1..], w.table);
    }
  }

  lemma {:induction false} QuestionsExtend(buf: seq<Byte>, qs: seq<Question>, table: Table)
    requires WriteQuestions(buf, qs, table).Written?
    ensures buf <= WriteQuestions(buf, qs, table).bytes
    ensures |qs| <= |WriteQuestions(buf, qs, table).bytes| - |buf|
    decreases |qs|
  {
    if qs != [] {
      var w := WriteQuestion(buf, qs[0], table);
      QuestionsExtend(w.bytes, qs[1..], w.table);
    }
  }

  // ----- room -----

  lemma {:induction false} HeadLength(r: Record, n: U16)
    ensures |RecordHead(r) + Put16(n)| == 10
  {
  }

  /** Bytes that suffice for the questions. */
  function QuestionsRoom(qs: seq<Question>): nat {
    if qs == [] then 0 else |qs[0].name| + 6 + QuestionsRoom(qs[1..])
  }

  /** Bytes that suffice for a record: names without compression, ten bytes of fields, the data. */
  function RecordRoom(r: Record): nat {
    |r.name| + 12 + match r.data case Raw(data) => |data| case Domain(name) => |name| + 2
  }

  function RecordsRoom(rs: seq<Record>): nat {
    if rs == [] then 0 else RecordRoom(rs[0]) + RecordsRoom(rs[1..])
  }

  /** Names of at most 255 bytes that are well-formed. */
  predicate Writable(name: seq<Byte>) {
    WellFormed(name) && |name| <= 255
  }

  predicate WritableRecord(r: Record) {
    Writable(r.name) && (r.data.Domain? ==> Writable(r.data.name))
  }

  lemma {:induction false} NameRoom(name: seq<Byte>, j: nat, table: Table)
    requires Writable(name) && j + |name| + 2 <= 1500
    ensures var w := WriteName(name, j, table, true, BUF_LEN); w.Written? && |w.bytes| <= |name| + 2
  {
    WriteFits(name, j, table, true, BUF_LEN);
  }

  lemma {:induction false} RecordFits(buf: seq<Byte>, r: Record, table: Table)
    requires WritableRecord(r) && |buf| + RecordRoom(r) <= 1500
    ensures var w := WriteRecord(buf, r, table); w.Written? && |w.bytes| <= |buf| + RecordRoom(r)
  {
    hide WriteName, Writable;
    NameRoom(r.name, |buf|, table);
    var w := WriteName(r.name, |buf|, table, true, BUF_LEN);
    HeadLength(r, 0);
    if r.data.Domain? { NameRoom(r.data.name, |buf + w.bytes| + 10, w.table); }
  }

  lemma {:induction false} RecordsFit(buf: seq<Byte>, rs: seq<Record>, table: Table)
    requires (forall i :: 0 <= i < |rs| ==> WritableRecord(rs[i])) && |buf| + RecordsRoom(rs) <= 1500
    ensures var w := WriteRecords(buf, rs, table); w.Written? && |w.bytes| <= |buf| + RecordsRoom(rs)
    decreases |rs|
  {
    hide WriteRecord, WritableRecord, RecordRoom;
    if rs != [] {
      RecordFits(buf, rs[0], table);
      var w := WriteRecord(buf, rs[0], table);
      RecordsFit(w.bytes, rs[1..], w.table);
    }
  }

  lemma {:induction false} QuestionsFit(buf: seq<Byte>, qs: seq<Question>, table: Table)
    requires (forall i :: 0 <= i < |qs| ==> Writable(qs[i].name)) && |buf| + QuestionsRoom(qs) <= 1500
    ensures var w := WriteQuestions(buf, qs, table); w.Written? && |w.bytes| <= |buf| + QuestionsRoom(qs)
    decreases |qs|
  {
    hide WriteName, Writable;
    if qs != [] {
      NameRoom(qs[0].name, |buf|, table);
      var w := WriteQuestion(buf, qs[0], table);
      QuestionsFit(w.bytes, qs[1..], w.table);
    }
  }

  /** A response whose names are well-formed is refused only for lack of room. */
  lemma {:induction false} ResponseFits(req: Request, flags: U16)
    requires forall i :: 0 <= i < |req.questions| ==> Writable(req.questions[i].name)
    requires var rs := req.answer + req.authority + req.additional;
      && (forall i :: 0 <= i < |rs| ==> WritableRecord(rs[i]))
      && 12 + QuestionsRoom(req.questions) + RecordsRoom(rs) <= 1500
    ensures FormatResponse(req, flags).Written?
  {
    hide WriteQuestions, WriteRecords, Writable, WritableRecord, RecordsRoom, QuestionsRoom;
    var head := Header(req, flags);
    assert |head| == 12;
    QuestionsFit(head, req.questions, []);
    var q := WriteQuestions(head, req.questions, []);
    RecordsFit(q.bytes, req.answer + req.authority + req.additional, q.table);
  }

  lemma {:induction false} RecordsBound(buf: seq<Byte>, rs: seq<Record>, table: Table)
    requires |buf| <= 1501 && WriteRecords(buf, rs, table).Written?
    ensures |WriteRecords(buf, rs, table).bytes| <= 1501
    decreases |rs|
  {
    if rs != [] {
      var r := rs[0];
      var w := WriteName(r.name, |buf|, table, true, BUF_LEN);
      HeadLength(r, 0);
      if r.data.Domain? { NameBound(r.data.name, |buf + w.bytes| + 10, w.table, true, BUF_LEN); }
      hide WriteName;
      var v := WriteRecord(buf, r, table);
      assert |v.bytes| <= 1501;
      RecordsBound(v.bytes, rs[1..], v.table);
    }
  }

  lemma {:induction false} QuestionsBound(buf: seq<Byte>, qs: seq<Question>, table: Table)
    requires |buf| <= 1500 && WriteQuestions(buf, qs, table).Written?
    ensures |WriteQuestions(buf, qs, table).bytes| <= 1500
    decreases |qs|
  {
    hide WriteName;
    if qs != [] {
      var w := WriteQuestion(buf, qs[0], table);
      QuestionsBound(w.bytes, qs[1..], w.table);
    }
  }

  /** What is written stays within the buffer, but for the zero that ends a name, which is written unchecked. */
  lemma {:induction false} ResponseBound(req: Request, flags: U16)
    requires FormatResponse(req, flags).Written?
    ensures |FormatResponse(req, flags).bytes| <= 1501
  {
    hide WriteQuestions, WriteRecords;
    var head := Header(req, flags);
    assert |head| == 12;
    QuestionsBound(head, req.questions, []);
    var q := WriteQuestions(head, req.questions, []);
    RecordsBound(q.bytes, req.answer + req.authority + req.additional, q.table);
  }

  function HighFirst(high: int, low: int): int {
    256 * high + low
  }

  /** The header of section 4.1.1 of RFC 1035: six numbers of 16 bits, high byte first. */
  lemma {:induction false} HeaderBytes(req: Request, flags: U16)
    requires FormatResponse(req, flags).Written?
    ensures var b := FormatResponse(req, flags).bytes;
      && |b| >= 12
      && HighFirst(b[0], b[1]) == req.transId && HighFirst(b[2], b[3]) == flags
      && HighFirst(b[4], b[5]) == |req.questions| % 0x1_0000 && HighFirst(b[6], b[7]) == |req.answer| % 0x1_0000
      && HighFirst(b[8], b[9]) == |req.authority| % 0x1_0000 && HighFirst(b[10], b[11]) == |req.additional| % 0x1_0000
  {
    hide WriteQuestions, WriteRecords;
    var head := Header(req, flags);
    var q := WriteQuestions(head, req.questions, []);
    QuestionsExtend(head, req.questions, []);
    RecordsExtend(q.bytes, req.answer + req.authority + req.additional, q.table);
    var b := FormatResponse(req, flags).bytes;
    assert |head| == 12;
    forall i | 0 <= i < 12 ensures b[i] == head[i] { assert q.bytes[i] == head[i]; }
  }

  /** A record behind its name: type, class, time to live and length, high byte first; section 4.1.3 of RFC 1035. */
  lemma {:induction false} RecordBytes(r: Record, n: U16)
    ensures var h := RecordHead(r) + Put16(n);
      && |h| == 10 && HighFirst(h[0], h[1]) == r.rtype && HighFirst(h[2], h[3]) == r.rclass
      && HighFirst(HighFirst(HighFirst(h[4], h[5]), h[6]), h[7]) == r.ttl && HighFirst(h[8], h[9]) == n
  {
  }

  // ----- reading back one record -----

  /** A record whose names the writer's table and the parser agree on. */
  predicate GoodRecord(r: Record) {
    WellFormed(r.name) && (r.data.Domain? ==> WellFormed(r.data.name))
  }

  function Fields(r: Record, data: seq<Byte>): seq<Byte>
    requires |data| < 0x1_0000
  {
    RecordHead(r) + Put16(|data|) + data
  }

  lemma {:induction false} Piece(p: seq<Byte>, pre: seq<Byte>, x: seq<Byte>, rest: seq<Byte>)
    requires p == pre + (x + rest)
    ensures |pre| + |x| <= |p| && p[|pre|..|pre| + |x|] == x && p == (pre + x) + rest
  {
  }

  lemma {:induction false} InARow(pre: seq<Byte>, a: seq<Byte>, b: seq<Byte>, c: seq<Byte>, d: seq<Byte>, e: seq<Byte>,
                                  tail: seq<Byte>)
    ensures pre + (a + b + c + d + e) + tail == pre + (a + (b + (c + (d + (e + tail)))))
  {
    assert a + b + c + d + e == a + (b + (c + (d + e)));
  }

  lemma {:induction false} FieldsRead(p: seq<Byte>, pre: seq<Byte>, r: Record, data: seq<Byte>, tail: seq<Byte>)
    requires |data| < 0x1_0000 && p == pre + Fields(r, data) + tail
    ensures var at := |pre|;
      && at + 10 + |data| <= |p|
      && Get16(p, at) == r.rtype && Get16(p, at + 2) == r.rclass && Get32(p, at + 4) == r.ttl
      && Get16(p, at + 8) == |data| && p[at + 10..at + 10 + |data|] == data
  {
    var at := |pre|;
    var a, b, c, d := Put16(r.rtype), Put16(r.rclass), Put32(r.ttl), Put16(|data|);
    assert |a| == 2 && |b| == 2 && |c| == 4 && |d| == 2;
    assert Fields(r, data) == a + b + c + d + data;
    hide Put16, Put32, Get16, Get32, Fields;
    InARow(pre, a, b, c, d, data, tail);
    Piece(p, pre, a, b + (c + (d + (data + tail))));
    Piece(p, pre + a, b, c + (d + (data + tail)));
    Piece(p, pre + a + b, c, d + (data + tail));
    Piece(p, pre + a + b + c, d, data + tail);
    Piece(p, pre + a + b + c + d, data, tail);
    Get16Put16(p, at, r.rtype);
    Get16Put16(p, at + 2, r.rclass);
    Get32Put32(p, at + 4, r.ttl);
    Get16Put16(p, at + 8, |data|);
  }

  /** What the parser sees of a record in a message: its fields at `at`, and the next record at `next`. */
  ghost predicate RecordAt(p: seq<Byte>, j: nat, r: Record, at: nat, data: seq<Byte>, next: nat) {
    && (exists name :: Parse(p, j, 256) == Parsed(name, at))
    && next == at + 10 + |data| <= |p| && |data| < 0x1_0000
    && Get16(p, at) == r.rtype && Get16(p, at + 2) == r.rclass && Get32(p, at + 4) == r.ttl
    && Get16(p, at + 8) == |data| && p[at + 10..next] == data
    && (r.data.Raw? ==> data == r.data.bytes)
  }

  lemma {:induction false} FieldsSplit(r: Record, data: seq<Byte>)
    requires |data| < 0x1_0000
    ensures Fields(r, data) == RecordHead(r) + Put16(|data|) + data && |Fields(r, data)| == 10 + |data|
  {
  }

  /** A name that was accepted fits the 256-byte buffers of the parser. */
  lemma {:induction false} WriteNameFits(name: seq<Byte>, j: nat, table: Table)
    ensures WriteName(name, j, table, true, BUF_LEN).Written? ==> |WithoutTrailingDot(name)| < 256
  {
  }

  lemma {:induction false} RecordReadBack(buf: seq<Byte>, r: Record, table: Table, more: seq<Byte>)
    returns (at: nat, data: seq<Byte>)
    requires Consistent(buf, table) && GoodRecord(r) && WriteRecord(buf, r, table).Written?
    ensures var w := WriteRecord(buf, r, table);
      Consistent(w.bytes, w.table) && |buf| < |w.bytes| && RecordAt(w.bytes + more, |buf|, r, at, data, |w.bytes|)
  {
    hide Consistent, Parse, WriteName, Fields, RecordHead, Put16, Get16, Get32, WellFormed;
    var w := WriteName(r.name, |buf|, table, true, BUF_LEN);
    var b := buf + w.bytes;
    at := |b|;
    WriteNameFits(r.name, |buf|, table);
    var t: Table;
    if r.data.Raw? {
      data, t := r.data.bytes, w.table;
      WriteThenParse(buf, r.name, table, true, BUF_LEN, [], 256);
      ConsistentExtend(b, Fields(r, data), w.table);
    } else {
      WriteThenParse(buf, r.name, table, true, BUF_LEN, [], 256);
      var w' := WriteName(r.data.name, at + 10, w.table, true, BUF_LEN);
      data, t := w'.bytes, w'.table;
      var head := RecordHead(r) + Put16(|data|);
      HeadLength(r, |data|);
      ConsistentExtend(b, head, w.table);
      WriteNameFits(r.data.name, at + 10, w.table);
      WriteThenParse(b + head, r.data.name, w.table, true, BUF_LEN, [], 256);
      FieldsSplit(r, data);
      assert b + head + data == b + Fields(r, data);
    }
    FieldsSplit(r, data);
    var p := b + Fields(r, data) + more;
    WriteThenParse(buf, r.name, table, true, BUF_LEN, Fields(r, data) + more, 256);
    assert b + (Fields(r, data) + more) == p;
    FieldsRead(p, b, r, data, more);
  }

  // ----- reading back all records -----

  predicate Matches(r: Record, asked: int) {
    r.rtype == asked && r.rclass == CLASS_INET && r.data.Raw?
  }

  function Take(s: seq<Byte>, n: nat): seq<Byte> {
    if |s| <= n then s else s[..n]
  }

  /** What the client's loop does with a record. */
  function Collect(acc: Reply, r: Record, asked: int): (acc': Reply)
    requires |acc.addrs| <= MAX_ADDRS * Unit(asked)
    ensures |acc'.addrs| <= MAX_ADDRS * Unit(asked)
  {
    if Matches(r, asked) then
      Reply(Min(acc.ttl, r.ttl), Take(acc.addrs + r.data.bytes, MAX_ADDRS * Unit(asked)), true)
    else acc
  }

  function Full(acc: Reply, asked: int): bool {
    |acc.addrs| == MAX_ADDRS * Unit(asked)
  }

  function CollectAll(acc: Reply, rs: seq<Record>, asked: int): Reply
    requires |acc.addrs| <= MAX_ADDRS * Unit(asked)
    decreases |rs|
  {
    if rs == [] then acc
    else
      var acc' := Collect(acc, rs[0], asked);
      if Matches(rs[0], asked) && Full(acc', asked) then acc' else CollectAll(acc', rs[1..], asked)
  }

  /** Records of the asked type carry whole addresses; a name under an address type is excluded. */
  predicate GoodFor(r: Record, asked: int) {
    GoodRecord(r) && (r.rtype == asked && r.rclass == CLASS_INET ==> r.data.Raw? && |r.data.bytes| % Unit(asked) == 0)
  }

  lemma {:induction false} MatchingAnswer(p: seq<Byte>, j: nat, asked: int, acc: Reply, r: Record, at: nat,
                                          data: seq<Byte>, next: nat)
    requires |acc.addrs| <= MAX_ADDRS * Unit(asked)
    requires RecordAt(p, j, r, at, data, next) && Matches(r, asked) && |data| % Unit(asked) == 0
    ensures var acc' := Collect(acc, r, asked);
      AnswerStep(p, j, asked, acc) == if Full(acc', asked) then Stop(acc') else Next(next, acc')
  {
    hide Parse, Get16, Get32, Unit;
    var limit := MAX_ADDRS * Unit(asked);
    var copy := Min(limit - |acc.addrs|, |data|);
    assert p[at + 10..at + 10 + copy] == data[..copy];
    assert acc.addrs + data[..copy] == Take(acc.addrs + data, limit);
  }

  lemma {:induction false} OtherAnswer(p: seq<Byte>, j: nat, asked: int, acc: Reply, r: Record, at: nat,
                                       data: seq<Byte>, next: nat)
    requires |acc.addrs| <= MAX_ADDRS * Unit(asked)
    requires RecordAt(p, j, r, at, data, next) && !(r.rtype == asked && r.rclass == CLASS_INET)
    ensures AnswerStep(p, j, asked, acc) == Next(next, acc)
  {
    hide Parse, Get16, Get32, Unit;
  }

  lemma {:induction false} OneAnswer(p: seq<Byte>, j: nat, n: nat, asked: int, acc: Reply, r: Record, at: nat,
                                     data: seq<Byte>, next: nat)
    requires |acc.addrs| <= MAX_ADDRS * Unit(asked) && n > 0
    requires RecordAt(p, j, r, at, data, next) && GoodFor(r, asked)
    ensures var acc' := Collect(acc, r, asked);
      ParseAnswers(p, j, n, asked, acc) ==
        if Matches(r, asked) && Full(acc', asked) then Ok(acc') else ParseAnswers(p, next, n - 1, asked, acc')
  {
    hide AnswerStep, Unit, Parse, Get16, Get32, Take, GoodRecord;
    if Matches(r, asked) {
      MatchingAnswer(p, j, asked, acc, r, at, data, next);
    } else {
      OtherAnswer(p, j, asked, acc, r, at, data, next);
    }
  }

  lemma {:induction false} GoodForIs(r: Record, asked: int)
    requires GoodFor(r, asked)
    ensures GoodRecord(r)
  {
  }

  lemma {:induction false} NoAnswers(p: seq<Byte>, j: nat, asked: int, acc: Reply)
    requires |acc.addrs| <= MAX_ADDRS * Unit(asked)
    ensures ParseAnswers(p, j, 0, asked, acc) == Ok(acc)
  {
  }

  /** The answers among the records of a message are collected as if the parser saw the records themselves. */
  lemma {:induction false} AnswersReadBack(buf: seq<Byte>, answers: seq<Record>, rest: seq<Record>, table: Table,
                                           asked: int, acc: Reply)
    requires asked == TYPE_A || asked == TYPE_AAAA
    requires |acc.addrs| <= MAX_ADDRS * Unit(asked)
    requires Consistent(buf, table) && WriteRecords(buf, answers + rest, table).Written?
    requires forall i :: 0 <= i < |answers| ==> GoodFor(answers[i], asked)
    ensures ParseAnswers(WriteRecords(buf, answers + rest, table).bytes, |buf|, |answers|, asked, acc) ==
            Ok(CollectAll(acc, answers, asked))
    decreases |answers|
  {
    hide Consistent, ParseAnswers, WriteRecord, GoodFor, Collect, RecordAt, GoodRecord;
    if answers == [] {
      NoAnswers(WriteRecords(buf, answers + rest, table).bytes, |buf|, asked, acc);
    } else {
      var rs := answers + rest;
      assert rs[1..] == answers[1..] + rest && rs[0] == answers[0];
      var w := WriteRecord(buf, rs[0], table);
      var p := WriteRecords(buf, rs, table).bytes;
      RecordsExtend(w.bytes, rs[1..], w.table);
      var more := p[|w.bytes|..];
      assert p == w.bytes + more;
      assert GoodFor(answers[0], asked);
      GoodForIs(rs[0], asked);
      var at, data := RecordReadBack(buf, rs[0], table, more);
      OneAnswer(p, |buf|, |answers|, asked, acc, rs[0], at, data, |w.bytes|);
      AnswersReadBack(w.bytes, answers[1..], rest, w.table, asked, Collect(acc, rs[0], asked));
    }
  }

  // ----- the whole message -----

  lemma {:induction false} QuestionReadBack(buf: seq<Byte>, q: Question, table: Table, more: seq<Byte>)
    requires Consistent(buf, table) && WellFormed(q.name) && WriteQuestion(buf, q, table).Written?
    ensures var w := WriteQuestion(buf, q, table);
      && Consistent(w.bytes, w.table) && |buf| < |w.bytes|
      && (exists name, at: nat :: Parse(w.bytes + more, |buf|, 256) == Parsed(name, at) && at + 4 == |w.bytes|)
  {
    hide Consistent, Parse, WriteName, WellFormed, QuestionFields, WithoutTrailingDot;
    var w := WriteName(q.name, |buf|, table, true, BUF_LEN);
    var fields := QuestionFields(q);
    WriteNameFits(q.name, |buf|, table);
    WriteThenParse(buf, q.name, table, true, BUF_LEN, fields + more, 256);
    assert (buf + w.bytes) + (fields + more) == (buf + w.bytes + fields) + more;
    assert Parse((buf + w.bytes + fields) + more, |buf|, 256) == Parsed(WithoutTrailingDot(q.name), |buf + w.bytes|);
    ConsistentExtend(buf + w.bytes, fields, w.table);
  }

  lemma {:induction false} QuestionsSkipped(buf: seq<Byte>, qs: seq<Question>, table: Table, more: seq<Byte>)
    requires Consistent(buf, table) && WriteQuestions(buf, qs, table).Written?
    requires forall i :: 0 <= i < |qs| ==> WellFormed(qs[i].name)
    ensures var w := WriteQuestions(buf, qs, table);
      Consistent(w.bytes, w.table) && SkipQuestions(w.bytes + more, |buf|, |qs|) == |w.bytes|
    decreases |qs|
  {
    hide Consistent, Parse, WriteQuestion, WellFormed;
    if qs != [] {
      var w := WriteQuestion(buf, qs[0], table);
      var b := WriteQuestions(buf, qs, table).bytes;
      QuestionsExtend(w.bytes, qs[1..], w.table);
      var tail := b[|w.bytes|..] + more;
      assert b + more == w.bytes + tail;
      QuestionReadBack(buf, qs[0], table, tail);
      QuestionsSkipped(w.bytes, qs[1..], w.table, more);
    }
  }

  lemma {:induction false} RecordsLength(buf: seq<Byte>, rs: seq<Record>, table: Table)
    requires WriteRecords(buf, rs, table).Written?
    ensures |buf| + |rs| <= |WriteRecords(buf, rs, table).bytes|
    decreases |rs|
  {
    if rs != [] {
      var w := WriteRecord(buf, rs[0], table);
      RecordsLength(w.bytes, rs[1..], w.table);
    }
  }

  lemma {:induction false} HeaderRead(p: seq<Byte>, req: Request, flags: U16, tail: seq<Byte>)
    requires p == Header(req, flags) + tail
    ensures |Header(req, flags)| == 12 && |p| >= 12
    ensures Get16(p, 0) == req.transId && Get16(p, 2) == flags
    ensures Get16(p, 4) == |req.questions| % 0x1_0000 && Get16(p, 6) == |req.answer| % 0x1_0000
  {
    Get16Put16(p, 0, req.transId);
    assert p[2..4] == Put16(flags);
    Get16Put16(p, 2, flags);
    assert p[4..6] == Put16(|req.questions| % 0x1_0000);
    Get16Put16(p, 4, |req.questions| % 0x1_0000);
    assert p[6..8] == Put16(|req.answer| % 0x1_0000);
    Get16Put16(p, 6, |req.answer| % 0x1_0000);
  }

  lemma {:induction false} ConsistentStart(buf: seq<Byte>)
    ensures Consistent(buf, [])
  {
  }

  /**
    What a server formats for a no-error response of at most 512 bytes, a client that asked for
    addresses of type A or AAAA collects from the answer records, skipping all others.
   */
  lemma {:induction false} ResponseReadBack(req: Request, flags: U16, asked: int)
    requires asked == TYPE_A || asked == TYPE_AAAA
    requires IsResponse(flags) && !HasError(flags)
    requires forall i :: 0 <= i < |req.questions| ==> WellFormed(req.questions[i].name)
    requires forall i :: 0 <= i < |req.answer| ==> GoodFor(req.answer[i], asked)
    requires FormatResponse(req, flags).Written? && |FormatResponse(req, flags).bytes| <= 512
    ensures ParseReply(FormatResponse(req, flags).bytes, asked) ==
            Ok(CollectAll(Reply(0xffff_ffff, [], false), req.answer, asked))
  {
    hide Consistent, ParseAnswers, SkipQuestions, WriteQuestions, WriteRecords, Header, GoodFor, CollectAll, WellFormed;
    var head := Header(req, flags);
    var rest := req.authority + req.additional;
    var q := WriteQuestions(head, req.questions, []);
    assert req.answer + req.authority + req.additional == req.answer + rest;
    var p := FormatResponse(req, flags).bytes;
    ConsistentStart(head);
    QuestionsExtend(head, req.questions, []);
    RecordsExtend(q.bytes, req.answer + rest, q.table);
    RecordsLength(q.bytes, req.answer + rest, q.table);
    assert p == head + p[|head|..];
    HeaderRead(p, req, flags, p[|head|..]);
    assert p == q.bytes + p[|q.bytes|..];
    QuestionsSkipped(head, req.questions, [], p[|q.bytes|..]);
    AnswersReadBack(q.bytes, req.answer, rest, q.table, asked, Reply(0xffff_ffff, [], false));
  }

  // ----- what is collected -----

  /** The addresses of all records of the asked type, in order. */
  function AllAddresses(rs: seq<Record>, asked: int): seq<Byte> {
    if rs == [] then []
    else (if Matches(rs[0], asked) then rs[0].data.bytes else []) + AllAddresses(rs[1..], asked)
  }

  function SmallestTtl(rs: seq<Record>, asked: int): U32 {
    if rs == [] then 0xffff_ffff
    else if Matches(rs[0], asked) then Min(rs[0].ttl, SmallestTtl(rs[1..], asked))
    else SmallestTtl(rs[1..], asked)
  }

  predicate HasMatch(rs: seq<Record>, asked: int) {
    rs != [] && (Matches(rs[0], asked) || HasMatch(rs[1..], asked))
  }

  lemma {:induction false} AddressesPrefix(rs: seq<Record>, j: nat, asked: int)
    requires 0 < j <= |rs|
    ensures AllAddresses(rs[..j], asked)
      == (if Matches(rs[0], asked) then rs[0].data.bytes else []) + AllAddresses(rs[1..][..j - 1], asked)
  {
    assert rs[..j][0] == rs[0] && rs[..j][1..] == rs[1..][..j - 1];
  }

  lemma {:induction false} TakeMore(s: seq<Byte>, t: seq<Byte>, n: nat)
    requires |s| >= n
    ensures Take(s + t, n) == Take(s, n)
  {
  }

  lemma {:induction false} CollectFrom(acc: Reply, rs: seq<Record>, asked: int) returns (k: nat)
    requires |acc.addrs| < MAX_ADDRS * Unit(asked)
    ensures k <= |rs|
    ensures var out, limit := CollectAll(acc, rs, asked), MAX_ADDRS * Unit(asked);
      && out.addrs == Take(acc.addrs + AllAddresses(rs, asked), limit)
      && out.ttl == Min(acc.ttl, SmallestTtl(rs[..k], asked))
      && (out.have <==> acc.have || HasMatch(rs, asked))
      && (k < |rs| ==> |acc.addrs| + |AllAddresses(rs[..k], asked)| >= limit)
      && forall j :: 0 <= j < k ==> |acc.addrs| + |AllAddresses(rs[..j], asked)| < limit
    decreases |rs|
  {
    var limit := MAX_ADDRS * Unit(asked);
    if rs == [] {
      k := 0;
      assert acc.addrs + [] == acc.addrs;
    } else {
      var acc' := Collect(acc, rs[0], asked);
      var here := if Matches(rs[0], asked) then rs[0].data.bytes else [];
      var later := AllAddresses(rs[1..], asked);
      assert acc.addrs + (here + later) == (acc.addrs + here) + later;
      if Matches(rs[0], asked) && Full(acc', asked) {
        k := 1;
        assert rs[..1] == [rs[0]] && [rs[0]][1..] == [];
        TakeMore(acc.addrs + here, later, limit);
      } else {
        assert acc'.addrs == acc.addrs + here;
        var k' := CollectFrom(acc', rs[1..], asked);
        k := k' + 1;
        AddressesPrefix(rs, k, asked);
        assert SmallestTtl(rs[..k], asked) == SmallestTtl([rs[0]] + rs[1..][..k'], asked) by {
          assert rs[..k] == [rs[0]] + rs[1..][..k'];
        }
        forall j | 0 <= j < k ensures |acc.addrs| + |AllAddresses(rs[..j], asked)| < limit {
          if j > 0 { AddressesPrefix(rs, j, asked); }
        }
      }
    }
  }

  lemma {:induction false} HasMatchIs(rs: seq<Record>, asked: int)
    ensures HasMatch(rs, asked) <==> exists i :: 0 <= i < |rs| && Matches(rs[i], asked)
  {
    if rs != [] {
      HasMatchIs(rs[1..], asked);
      if i :| 0 <= i < |rs| && Matches(rs[i], asked) && i > 0 { assert rs[1..][i - 1] == rs[i]; }
    }
  }

  /**
    The client ends with the first 32 addresses of the asked type, in order, and with the
    smallest TTL of the `k` records it read: all of them, or those up to the first one with
    which there are 32 addresses. It has an answer if there is a record of the asked type.
   */
  lemma {:induction false} AddressesReadBack(req: Request, flags: U16, asked: int) returns (k: nat)
    requires asked == TYPE_A || asked == TYPE_AAAA
    requires IsResponse(flags) && !HasError(flags)
    requires forall i :: 0 <= i < |req.questions| ==> WellFormed(req.questions[i].name)
    requires forall i :: 0 <= i < |req.answer| ==> GoodFor(req.answer[i], asked)
    requires FormatResponse(req, flags).Written? && |FormatResponse(req, flags).bytes| <= 512
    ensures k <= |req.answer|
    ensures var out, limit := ParseReply(FormatResponse(req, flags).bytes, asked), if asked == 1 then 32 * 4
      else 32 * 16;
      && out.Ok? && out.reply.addrs == Take(AllAddresses(req.answer, asked), limit)
      && out.reply.ttl == SmallestTtl(req.answer[..k], asked)
      && (out.reply.have <==> exists i :: 0 <= i < |req.answer| && Matches(req.answer[i], asked))
      && (k < |req.answer| ==> |AllAddresses(req.answer[..k], asked)| >= limit)
      && forall j :: 0 <= j < k ==> |AllAddresses(req.answer[..j], asked)| < limit
  {
    hide FormatResponse, ParseReply, GoodFor, CollectAll, WellFormed;
    ResponseReadBack(req, flags, asked);
    k := CollectFrom(Reply(0xffff_ffff, [], false), req.answer, asked);
    assert [] + AllAddresses(req.answer, asked) == AllAddresses(req.answer, asked);
    HasMatchIs(req.answer, asked);
  }

  // ----- the code -----

  /** One round of the loop over the answers. */
  method ReadAnswer(packet: seq<Byte>, j: nat, asked: int, reply: Reply, tmpName: array<Byte>) returns (s: Step)
    requires |reply.addrs| <= MAX_ADDRS * Unit(asked) && tmpName.Length == 256
    modifies tmpName
    ensures s == AnswerStep(packet, j, asked, reply)
  {
    hide Parse, Get16, Get32, Unit;
    var ok, at := NameParse(packet, j, tmpName);
    if !ok || at + 10 > |packet| { return Fail; }
    var rtype, rclass, ttl, len :=
      Get16(packet, at), Get16(packet, at + 2), Get32(packet, at + 4), Get16(packet, at + 8);
    if rtype != asked || rclass != CLASS_INET { return Next(at + 10 + len, reply); }
    if len % Unit(asked) != 0 { return Fail; }
    var copy := Min(MAX_ADDRS * Unit(asked) - |reply.addrs|, len);
    if at + 10 + copy > |packet| { return Fail; }
    var reply' := Reply(Min(reply.ttl, ttl), reply.addrs + packet[at + 10..at + 10 + copy], true);
    return if |reply'.addrs| == MAX_ADDRS * Unit(asked) then Stop(reply') else Next(at + 10 + copy, reply');
  }

  /** reply_parse up to the point where the reply is handed on. */
  method ReplyParse(packet: seq<Byte>, asked: int) returns (out: Outcome)
    requires asked == TYPE_A || asked == TYPE_AAAA
    ensures out == ParseReply(packet, asked)
  {
    hide Parse, AnswerStep, Get16, Unit;
    if |packet| < 12 { return Bad; }
    var flags, questions, answers := Get16(packet, 2), Get16(packet, 4), Get16(packet, 6);
    if !IsResponse(flags) || HasError(flags) { return Bad; }
    var tmpName := new Byte[256];
    var j: nat := 12;
    for i := 0 to questions
      invariant SkipQuestions(packet, j, questions - i) == SkipQuestions(packet, 12, questions)
    {
      var ok, next := NameParse(packet, j, tmpName);
      if !ok || next + 4 > |packet| { return Bad; }
      j := next + 4;
    }
    var reply := Reply(0xffff_ffff, [], false);
    ghost var whole := ParseAnswers(packet, j, answers, asked, reply);
    for i := 0 to answers
      invariant |reply.addrs| <= MAX_ADDRS * Unit(asked)
      invariant ParseAnswers(packet, j, answers - i, asked, reply) == whole
    {
      var s := ReadAnswer(packet, j, asked, reply, tmpName);
      match s
      case Fail => return Bad;
      case Stop(r) => return Ok(r);
      case Next(j', r) => j, reply := j', r;
    }
    out := Ok(reply);
  }
}
