/**
  The code event_rpcgen.py generates, for every schema it accepts: a schema is a list of structs, each a list of
  tagged fields. The structs may refer to each other and to themselves. test/regress.gen.c is one instance.
 */
module Rpc {
  import opened Basics
  import opened EvBuffer
  import opened Tagging

  /** EntryInt, EntryString, EntryVarBytes, EntryStruct and EntryArray; `ref` is the number of a struct. */
  datatype Type = TInt | TString | TBytes | TStruct(ref: nat) | TArray(ref: nat)

  datatype Field = Field(tag: nat, optional: bool, ty: Type)

  type Schema = seq<Field>
  type Env = seq<Schema>

  /** A field without value has its `_set` flag clear; an array always has a value. */
  datatype Message = Message(fields: seq<Option<Value>>)

  datatype Value =
    | VInt(n: nat)
    | VString(s: seq<Byte>)
    | VBytes(b: seq<Byte>)
    | VStruct(m: Message)
    | VArray(ms: seq<Message>)

  // ----- what the generator accepts -----

  predicate DistinctTags(schema: Schema) {
    forall i, j :: 0 <= i < j < |schema| ==> schema[i].tag != schema[j].tag
  }

  predicate FieldOk(env: Env, f: Field) {
    && f.tag < TWO32 && !(f.optional && f.ty.TArray?)
    && ((f.ty.TStruct? || f.ty.TArray?) ==> f.ty.ref < |env|)
  }

  predicate SchemaOk(env: Env, schema: Schema) {
    DistinctTags(schema) && forall i :: 0 <= i < |schema| ==> FieldOk(env, schema[i])
  }

  predicate EnvOk(env: Env) {
    forall i :: 0 <= i < |env| ==> SchemaOk(env, env[i])
  }

  // ----- complete messages of a struct -----

  predicate NoZero(s: seq<Byte>) {
    forall i :: 0 <= i < |s| ==> s[i] != 0
  }

  predicate FieldTyped(env: Env, f: Field, m: Message, i: nat)
    requires i < |m.fields|
    decreases m, 0
  {
    match m.fields[i]
    case None => f.optional && !f.ty.TArray?
    case Some(VInt(n)) => f.ty.TInt? && n < TWO32
    case Some(VString(s)) => f.ty.TString? && NoZero(s)
    case Some(VBytes(b)) => f.ty.TBytes? && |b| < TWO32
    case Some(VStruct(m')) => f.ty.TStruct? && Typed(env, f.ty.ref, m')
    case Some(VArray(ms)) => f.ty.TArray? && forall j :: 0 <= j < |ms| ==> Typed(env, f.ty.ref, ms[j])
  }

  /** The message has the struct's fields, and every required one is set. */
  predicate Typed(env: Env, ref: nat, m: Message)
    decreases m, 1
  {
    ref < |env| && |m.fields| == |env[ref]| && forall i :: 0 <= i < |m.fields| ==> FieldTyped(env, env[ref][i], m, i)
  }

  // ----- marshalling -----

  lemma {:induction false} CStringIs(s: seq<Byte>)
    requires NoZero(s)
    ensures CString(s) == s
  {
    if s != [] { CStringIs(s[1..]); }
  }

  function MarshalField(env: Env, f: Field, m: Message, i: nat): seq<Byte>
    requires i < |m.fields| && FieldTyped(env, f, m, i)
    decreases m, 1
  {
    match m.fields[i]
    case None => []
    case Some(VInt(n)) => MarshalInt(f.tag, n)
    case Some(VString(s)) => Marshal(f.tag, CString(s))
    case Some(VBytes(b)) => Marshal(f.tag, b)
    case Some(VStruct(m')) => Marshal(f.tag, MarshalFrom(env, f.ty.ref, m', 0))
    case Some(VArray(ms)) => MarshalElements(env, f, m, i, 0)
  }

  /** <name>_marshal, from field `i` on. */
  function MarshalFrom(env: Env, ref: nat, m: Message, i: nat): seq<Byte>
    requires Typed(env, ref, m) && i <= |m.fields|
    decreases m, 2, |m.fields| - i
  {
    if i == |m.fields| then [] else MarshalField(env, env[ref][i], m, i) + MarshalFrom(env, ref, m, i + 1)
  }

  /** The loop of EntryArray.CodeMarshal, from element `j` on. */
  function MarshalElements(env: Env, f: Field, m: Message, i: nat, j: nat): seq<Byte>
    requires i < |m.fields| && FieldTyped(env, f, m, i) && m.fields[i].Some? && m.fields[i].value.VArray?
    requires j <= |m.fields[i].value.ms|
    decreases m, 0, |m.fields[i].value.ms| - j
  {
    var ms := m.fields[i].value.ms;
    if j == |ms| then []
    else Marshal(f.tag, MarshalFrom(env, f.ty.ref, ms[j], 0)) + MarshalElements(env, f, m, i, j + 1)
  }

  function MarshalMessage(env: Env, ref: nat, m: Message): seq<Byte>
    requires Typed(env, ref, m)
  {
    MarshalFrom(env, ref, m, 0)
  }

  // ----- unmarshalling -----

  /** <name>_new */
  function Blank(schema: Schema): (r: seq<Option<Value>>)
    ensures |r| == |schema|
    ensures forall i :: 0 <= i < |r| ==> r[i] == if schema[i].ty.TArray? then Some(VArray([])) else None
  {
    seq(|schema|, i requires 0 <= i < |schema| => if schema[i].ty.TArray? then Some(VArray([])) else None)
  }

  /** The switch over the tag. */
  function FindTag(schema: Schema, tag: nat): (i: nat)
    ensures i <= |schema| && (i < |schema| ==> schema[i].tag == tag)
    ensures forall k :: 0 <= k < i ==> schema[k].tag != tag
  {
    if schema == [] || schema[0].tag == tag then 0 else 1 + FindTag(schema[1..], tag)
  }

  /** <name>_complete on the fields read so far; nested messages were checked when they were read. */
  predicate AllSet(schema: Schema, fields: seq<Option<Value>>) {
    |fields| == |schema| && forall i :: 0 <= i < |schema| ==> schema[i].optional || fields[i].Some?
  }

  function Tagged(b: seq<Byte>, tag: nat): (r: Option<(seq<Byte>, seq<Byte>)>)
    ensures r.Some? ==> |r.value.0| < |b| && |r.value.1| < |b|
  {
    var u := Unmarshal(b);
    if u.None? || u.value.0 != tag then None else Some((u.value.1, u.value.2))
  }

  /** Where the value of a field goes; array elements are added at the end. */
  function Store(f: Field, was: Option<Value>, v: Value): Option<Value> {
    if f.ty.TArray? && was.Some? && was.value.VArray? && v.VStruct? then Some(VArray(was.value.ms + [v.m])) else Some(v)
  }

  /** <name>_unmarshal into a new message. */
  function UnmarshalMessage(env: Env, ref: nat, b: seq<Byte>): Option<Message>
    decreases |b|, 2
  {
    if ref < |env| then UnmarshalLoop(env, ref, b, Blank(env[ref])) else None
  }

  /** CodeUnmarshal of a field: its value and the bytes left. */
  function ReadField(env: Env, f: Field, b: seq<Byte>): (r: Option<(Value, seq<Byte>)>)
    ensures r.Some? ==> |r.value.1| < |b|
    decreases |b|, 0
  {
    match f.ty
    case TInt =>
      var u := UnmarshalInt(b, f.tag);
      if u.None? then None else Some((VInt(u.value.0), u.value.1))
    case TString =>
      var u := Tagged(b, f.tag);
      if u.None? then None else Some((VString(u.value.0), u.value.1))
    case TBytes =>
      var len, u := PayloadLength(b), Tagged(b, f.tag);
      if len.None? || len.value > |b| || u.None? || |u.value.0| != len.value then None
        else Some((VBytes(u.value.0), u.value.1))
    case _ =>
      var u := Tagged(b, f.tag);
      if u.None? then None
      else
        var m := UnmarshalMessage(env, f.ty.ref, u.value.0);
        if m.None? then None else Some((VStruct(m.value), u.value.1))
  }

  /** The loop of <name>_unmarshal. */
  function UnmarshalLoop(env: Env, ref: nat, b: seq<Byte>, fields: seq<Option<Value>>): (r: Option<Message>)
    requires ref < |env| && |fields| == |env[ref]|
    decreases |b|, 1
  {
    if b == [] then
      if AllSet(env[ref], fields) then Some(Message(fields)) else None
    else
      var tag := DecodeTag(b);
      if tag.None? then None
      else
        var i := FindTag(env[ref], tag.value.0);
        if i == |env[ref]| || (!env[ref][i].ty.TArray? && fields[i].Some?) then None
        else
          var v := ReadField(env, env[ref][i], b);
          if v.None? then None
          else UnmarshalLoop(env, ref, v.value.1, fields[i := Store(env[ref][i], fields[i], v.value.0)])
  }

  // ----- which messages can be read back -----

  /** The payload of a set field that is not an array. */
  function PayloadOf(env: Env, f: Field, m: Message, i: nat): seq<Byte>
    requires i < |m.fields| && FieldTyped(env, f, m, i) && m.fields[i].Some?
  {
    match m.fields[i].value
    case VInt(n) => IntBytes(n)
    case VString(s) => CString(s)
    case VBytes(b) => b
    case VStruct(m') => MarshalFrom(env, f.ty.ref, m', 0)
    case VArray(ms) => []
  }

  /** Of an item that starts `n` bytes before the end: the head is visible, and the length is a valid result. */
  predicate ItemReadable(f: Field, len: nat, n: nat) {
    len < TWO32 - 1 && HeadSeen(f.tag, len, n)
  }

  predicate ReadableField(env: Env, ref: nat, m: Message, i: nat)
    requires Typed(env, ref, m) && i < |m.fields|
    decreases m, 1
  {
    var f := env[ref][i];
    match m.fields[i]
    case None => true
    case Some(VArray(ms)) => ReadableElements(env, ref, m, i, 0)
    case Some(VStruct(w)) =>
      ItemReadable(f, |PayloadOf(env, f, m, i)|, |MarshalFrom(env, ref, m, i)|) && ReadableFrom(env, f.ty.ref, w, 0)
    case _ => ItemReadable(f, |PayloadOf(env, f, m, i)|, |MarshalFrom(env, ref, m, i)|)
  }

  /** Every item from field `i` on, those of nested messages included. */
  predicate ReadableFrom(env: Env, ref: nat, m: Message, i: nat)
    requires Typed(env, ref, m) && i <= |m.fields|
    decreases m, 2, |m.fields| - i
  {
    i < |m.fields| ==> ReadableField(env, ref, m, i) && ReadableFrom(env, ref, m, i + 1)
  }

  predicate ReadableElements(env: Env, ref: nat, m: Message, i: nat, j: nat)
    requires Typed(env, ref, m) && i < |m.fields| && FieldTyped(env, env[ref][i], m, i)
    requires m.fields[i].Some? && m.fields[i].value.VArray? && j <= |m.fields[i].value.ms|
    decreases m, 0, |m.fields[i].value.ms| - j
  {
    var f, ms := env[ref][i], m.fields[i].value.ms;
    j < |ms| ==>
      && ItemReadable(f, |MarshalFrom(env, f.ty.ref, ms[j], 0)|,
                      |MarshalElements(env, f, m, i, j) + MarshalFrom(env, ref, m, i + 1)|)
      && ReadableFrom(env, f.ty.ref, ms[j], 0)
      && ReadableElements(env, ref, m, i, j + 1)
  }

  /** Wherever a length is read the buffer's length as an int covers it, and no payload is as long as 2^32 - 1 bytes. */
  predicate Readable(env: Env, ref: nat, m: Message)
    requires Typed(env, ref, m)
  {
    ReadableFrom(env, ref, m, 0)
  }

  // ----- one item -----

  /** A payload as the value of a field. */
  function Decoded(env: Env, f: Field, p: seq<Byte>): Option<Value> {
    if f.ty.TInt? then
      var n := DecodeInt(p);
      if n.None? then None else Some(VInt(n.value.0))
    else if |p| == TWO32 - 1 then None
    else if f.ty.TString? then Some(VString(p))
    else if f.ty.TBytes? then Some(VBytes(p))
    else
      var m := UnmarshalMessage(env, f.ty.ref, p);
      if m.None? then None else Some(VStruct(m.value))
  }

  /** What CodeUnmarshal makes of any item, whatever its payload. */
  lemma {:induction false} ItemRead(env: Env, f: Field, payload: seq<Byte>, rest: seq<Byte>)
    requires f.tag < TWO32
    ensures var b, len := Marshal(f.tag, payload) + rest, |payload| % TWO32; var v := Decoded(env, f, payload[..len]);
      ReadField(env, f, b) == if HeadSeen(f.tag, len, |b|) && v.Some? then Some((v.value, rest)) else None
  {
    hide Marshal, Split, PayloadLength, HeadSeen, UnmarshalMessage, DecodeInt;
    HeadReadBack(f.tag, payload, rest);
    if HeadSeen(f.tag, |payload| % TWO32, |Marshal(f.tag, payload) + rest|) {
      SplitShortest(Marshal(f.tag, payload) + rest);
    }
  }

  lemma {:induction false} ItemNotEmpty(tag: nat, payload: seq<Byte>)
    ensures Marshal(tag, payload) != []
  {
  }

  /** One turn of the loop, on an item of field `i`. */
  lemma {:induction false} LoopStep(env: Env, ref: nat, fields: seq<Option<Value>>, i: nat, payload: seq<Byte>,
                                    rest: seq<Byte>)
    requires EnvOk(env) && ref < |env| && i < |env[ref]| == |fields| && (env[ref][i].ty.TArray? || fields[i].None?)
    ensures var f := env[ref][i]; var b, len := Marshal(f.tag, payload) + rest, |payload| % TWO32;
      var v := Decoded(env, f, payload[..len]);
      UnmarshalLoop(env, ref, b, fields) ==
        if HeadSeen(f.tag, len, |b|) && v.Some?
        then UnmarshalLoop(env, ref, rest, fields[i := Store(f, fields[i], v.value)]) else None
  {
    hide Marshal, ReadField, Decoded, DecodeTag, Split, PayloadLength, HeadSeen;
    var f := env[ref][i];
    assert SchemaOk(env, env[ref]) && FieldOk(env, f);
    HeadReadBack(f.tag, payload, rest);
    ItemRead(env, f, payload, rest);
    assert FindTag(env[ref], f.tag) == i;
    ItemNotEmpty(f.tag, payload);
  }

  // ----- set fields stay as they are -----

  /** An array keeps its elements, another set field its value. */
  predicate Extends(now: Option<Value>, was: Option<Value>) {
    match was
    case None => true
    case Some(VArray(ms)) => now.Some? && now.value.VArray? && |ms| <= |now.value.ms| && now.value.ms[..|ms|] == ms
    case Some(v) => now == was
  }

  predicate Shaped(schema: Schema, fields: seq<Option<Value>>) {
    |fields| == |schema| && forall i :: 0 <= i < |schema| && schema[i].ty.TArray? ==>
      fields[i].Some? && fields[i].value.VArray?
  }

  lemma {:induction false} ExtendsTrans(a: Option<Value>, b: Option<Value>, c: Option<Value>)
    requires Extends(a, b) && Extends(b, c)
    ensures Extends(a, c)
  {
    if c.Some? && c.value.VArray? {
      assert a.value.ms[..|c.value.ms|] == a.value.ms[..|b.value.ms|][..|c.value.ms|];
    }
  }

  lemma {:induction false} StoreExtends(env: Env, f: Field, was: Option<Value>, b: seq<Byte>)
    requires ReadField(env, f, b).Some? && (if f.ty.TArray? then was.Some? && was.value.VArray? else was.None?)
    ensures var now := Store(f, was, ReadField(env, f, b).value.0);
      Extends(now, was) && (f.ty.TArray? ==> now.Some? && now.value.VArray?)
  {
    hide UnmarshalMessage, Unmarshal, UnmarshalInt, PayloadLength;
  }

  lemma {:induction false} ExtendsSelf(v: Option<Value>)
    ensures Extends(v, v)
  {
  }

  /** What is set when the loop goes on is part of its result. */
  lemma {:induction false} LoopKeeps(env: Env, ref: nat, b: seq<Byte>, fields: seq<Option<Value>>)
    requires ref < |env| && Shaped(env[ref], fields) && UnmarshalLoop(env, ref, b, fields).Some?
    ensures var m := UnmarshalLoop(env, ref, b, fields).value;
      |m.fields| == |fields| && forall k :: 0 <= k < |fields| ==> Extends(m.fields[k], fields[k])
    decreases |b|
  {
    hide ReadField, DecodeTag, Store, Extends;
    if b == [] {
      forall k | 0 <= k < |fields| ensures Extends(fields[k], fields[k]) { ExtendsSelf(fields[k]); }
    } else {
      var i := FindTag(env[ref], DecodeTag(b).value.0);
      var f := env[ref][i];
      var v := ReadField(env, f, b).value;
      var next := fields[i := Store(f, fields[i], v.0)];
      StoreExtends(env, f, fields[i], b);
      LoopKeeps(env, ref, v.1, next);
      var m := UnmarshalLoop(env, ref, b, fields).value;
      ExtendsTrans(m.fields[i], next[i], fields[i]);
    }
  }

  // ----- a message is not read from fewer bytes than it marshals to -----

  /** What is still to be read of field `k`. */
  function FieldOwed(env: Env, f: Field, m: Message, fields: seq<Option<Value>>, k: nat): nat
    requires k < |m.fields| && FieldTyped(env, f, m, k) && k < |fields|
  {
    if m.fields[k].Some? && m.fields[k].value.VArray? then
      if fields[k].Some? && fields[k].value.VArray? && |fields[k].value.ms| <= |m.fields[k].value.ms|
      then |MarshalElements(env, f, m, k, |fields[k].value.ms|)| else 0
    else if fields[k].Some? then 0 else |MarshalField(env, f, m, k)|
  }

  function Owed(env: Env, ref: nat, m: Message, fields: seq<Option<Value>>, i: nat): nat
    requires Typed(env, ref, m) && i <= |m.fields| == |fields|
    decreases |fields| - i
  {
    if i == |fields| then 0 else FieldOwed(env, env[ref][i], m, fields, i) + Owed(env, ref, m, fields, i + 1)
  }

  lemma {:induction false} OwedStep(env: Env, ref: nat, m: Message, fields: seq<Option<Value>>, k: nat,
                                    v: Option<Value>, i: nat)
    requires Typed(env, ref, m) && i <= |m.fields| == |fields| && k < |fields| && FieldTyped(env, env[ref][k], m, k)
    ensures var next := fields[k := v]; var f := env[ref][k];
      Owed(env, ref, m, fields, i) + (if i <= k then FieldOwed(env, f, m, next, k) else 0)
        == Owed(env, ref, m, next, i) + if i <= k then FieldOwed(env, f, m, fields, k) else 0
    decreases |fields| - i
  {
    hide MarshalElements, MarshalField, FieldTyped;
    if i < |fields| { OwedStep(env, ref, m, fields, k, v, i + 1); }
  }

  lemma {:induction false} OwedNothing(env: Env, ref: nat, m: Message, i: nat)
    requires Typed(env, ref, m) && i <= |m.fields|
    requires forall k :: 0 <= k < |m.fields| ==> m.fields[k].None? ==> env[ref][k].optional
    ensures Owed(env, ref, m, m.fields, i) == 0
    decreases |m.fields| - i
  {
    if i < |m.fields| { OwedNothing(env, ref, m, i + 1); }
  }

  lemma {:induction false} FieldOwedAll(env: Env, schema: Schema, m: Message, i: nat)
    requires i < |m.fields| == |schema| && FieldTyped(env, schema[i], m, i)
    ensures FieldOwed(env, schema[i], m, Blank(schema), i) == |MarshalField(env, schema[i], m, i)|
  {
    hide MarshalElements, Marshal, MarshalFrom;
  }

  /** Before anything is read the whole message is to come. */
  lemma {:induction false} OwedAll(env: Env, ref: nat, m: Message, i: nat)
    requires Typed(env, ref, m) && i <= |m.fields|
    ensures Owed(env, ref, m, Blank(env[ref]), i) == |MarshalFrom(env, ref, m, i)|
    decreases |m.fields| - i
  {
    hide MarshalField, FieldOwed, FieldTyped;
    if i < |m.fields| {
      OwedAll(env, ref, m, i + 1);
      assert FieldTyped(env, env[ref][i], m, i);
      FieldOwedAll(env, env[ref], m, i);
    }
  }

  /** An item is at least as long as the marshalled payload of its value. */
  lemma {:induction false} MarshalShortest(b: seq<Byte>, payload: seq<Byte>)
    requires Split(b).Some? && |payload| <= |Split(b).value.1|
    ensures |Marshal(Split(b).value.0, payload)| <= |b| - |Split(b).value.2|
  {
    hide Marshal, Split, TagBytes, IntBytes;
    SplitShortest(b);
    MarshalLength(Split(b).value.0, payload);
    IntBytesGrow(|payload|, |Split(b).value.1|);
  }

  lemma {:induction false} PayloadIs(env: Env, f: Field, m: Message, i: nat)
    requires i < |m.fields| && FieldTyped(env, f, m, i) && m.fields[i].Some? && !m.fields[i].value.VArray?
    ensures MarshalField(env, f, m, i) == Marshal(f.tag, PayloadOf(env, f, m, i))
  {
    hide Marshal;
  }

  /** For an int, a string, or bytes. */
  lemma {:induction false} PlainShortest(env: Env, f: Field, m: Message, k: nat, b: seq<Byte>)
    requires k < |m.fields| && FieldTyped(env, f, m, k) && m.fields[k].Some?
    requires !m.fields[k].value.VArray? && !m.fields[k].value.VStruct?
    requires ReadField(env, f, b).Some? && m.fields[k] == Some(ReadField(env, f, b).value.0)
    ensures |MarshalField(env, f, m, k)| <= |b| - |ReadField(env, f, b).value.1|
  {
    hide Marshal, Split, IntBytes, DecodeInt, PayloadLength;
    PayloadIs(env, f, m, k);
    if m.fields[k].value.VInt? { IntShortest(Split(b).value.1); }
    if m.fields[k].value.VString? { CStringIs(m.fields[k].value.s); }
    MarshalShortest(b, PayloadOf(env, f, m, k));
  }

  lemma {:induction false} ReadKind(env: Env, f: Field, b: seq<Byte>)
    requires ReadField(env, f, b).Some?
    ensures var v := ReadField(env, f, b).value.0;
      match f.ty case TInt => v.VInt? case TString => v.VString? case TBytes => v.VBytes? case _ => v.VStruct?
  {
    hide UnmarshalMessage, Unmarshal, UnmarshalInt, PayloadLength;
  }

  lemma {:induction false} FieldShortest(env: Env, f: Field, m: Message, i: nat, b: seq<Byte>,
                                         fields: seq<Option<Value>>)
    requires i < |m.fields| == |fields| && FieldTyped(env, f, m, i) && ReadField(env, f, b).Some?
    requires if f.ty.TArray? then fields[i].Some? && fields[i].value.VArray? else fields[i].None?
    requires Extends(m.fields[i], Store(f, fields[i], ReadField(env, f, b).value.0))
    ensures var v := ReadField(env, f, b).value;
      FieldOwed(env, f, m, fields, i) <= FieldOwed(env, f, m, fields[i := Store(f, fields[i], v.0)], i) + |b| - |v.1|
    decreases |b|, 1
  {
    hide Marshal, MarshalFrom;
    var v := ReadField(env, f, b).value;
    ReadKind(env, f, b);
    if f.ty.TArray? {
      var ws, ms := fields[i].value.ms, m.fields[i].value.ms;
      assert ms[|ws|] == ms[..|ws| + 1][|ws|] == v.0.m;
      NestedShortest(env, f, v.0.m, b);
    } else if f.ty.TStruct? {
      NestedShortest(env, f, v.0.m, b);
    } else {
      PlainShortest(env, f, m, i, b);
    }
  }

  lemma {:induction false} LoopShortest(env: Env, ref: nat, m: Message, b: seq<Byte>, fields: seq<Option<Value>>)
    requires Typed(env, ref, m) && Shaped(env[ref], fields) && UnmarshalLoop(env, ref, b, fields) == Some(m)
    ensures Owed(env, ref, m, fields, 0) <= |b|
    decreases |b|, 2
  {
    hide ReadField, DecodeTag, Store, Extends, Owed, FieldOwed, FieldTyped;
    if b == [] {
      OwedNothing(env, ref, m, 0);
    } else {
      var i := FindTag(env[ref], DecodeTag(b).value.0);
      var f := env[ref][i];
      var v := ReadField(env, f, b).value;
      var next := fields[i := Store(f, fields[i], v.0)];
      StoreExtends(env, f, fields[i], b);
      LoopKeeps(env, ref, v.1, next);
      LoopShortest(env, ref, m, v.1, next);
      assert FieldTyped(env, f, m, i);
      FieldShortest(env, f, m, i, b, fields);
      OwedStep(env, ref, m, fields, i, next[i], 0);
    }
  }

  /** A message is never read from fewer bytes than it marshals to. */
  lemma {:induction false} MessageShortest(env: Env, ref: nat, m: Message, b: seq<Byte>)
    requires Typed(env, ref, m) && UnmarshalMessage(env, ref, b) == Some(m)
    ensures |MarshalFrom(env, ref, m, 0)| <= |b|
    decreases |b|, 3
  {
    hide UnmarshalLoop, MarshalFrom, Owed;
    LoopShortest(env, ref, m, b, Blank(env[ref]));
    OwedAll(env, ref, m, 0);
  }

  /** For a nested message. */
  lemma {:induction false} NestedShortest(env: Env, f: Field, w: Message, b: seq<Byte>)
    requires (f.ty.TStruct? || f.ty.TArray?) && Typed(env, f.ty.ref, w)
    requires ReadField(env, f, b).Some? && ReadField(env, f, b).value.0 == VStruct(w)
    ensures |Marshal(f.tag, MarshalFrom(env, f.ty.ref, w, 0))| <= |b| - |ReadField(env, f, b).value.1|
    decreases |b|, 0
  {
    hide Marshal, Split, MarshalFrom, UnmarshalMessage, Typed;
    MessageShortest(env, f.ty.ref, w, Split(b).value.1);
    MarshalShortest(b, MarshalFrom(env, f.ty.ref, w, 0));
  }

  // ----- round trip -----

  /** The fields before `i` as in `m`, the others as in a new message. */
  function UpTo(schema: Schema, m: Message, i: nat): seq<Option<Value>>
    requires i <= |m.fields| == |schema|
  {
    m.fields[..i] + Blank(schema)[i..]
  }

  lemma {:induction false} UpToShaped(env: Env, ref: nat, m: Message, i: nat)
    requires Typed(env, ref, m) && i <= |m.fields|
    ensures Shaped(env[ref], UpTo(env[ref], m, i))
  {
    forall k | 0 <= k < i ensures env[ref][k].ty.TArray? ==> m.fields[k].Some? && m.fields[k].value.VArray? {
      assert FieldTyped(env, env[ref][k], m, k);
    }
  }

  /** An int, a string, or bytes: the payload as it arrives is the value exactly if it is short enough. */
  lemma {:induction false} PlainReadBack(env: Env, f: Field, m: Message, i: nat)
    requires i < |m.fields| && FieldTyped(env, f, m, i) && m.fields[i].Some?
    requires !m.fields[i].value.VArray? && !m.fields[i].value.VStruct?
    ensures var p := PayloadOf(env, f, m, i);
      Decoded(env, f, p[..|p| % TWO32]) == m.fields[i] <==> |p| < TWO32 - 1
  {
    hide IntBytes, DecodeInt;
    var p := PayloadOf(env, f, m, i);
    if |p| < TWO32 { assert p[..|p| % TWO32] == p; }
    match m.fields[i].value
    case VInt(n) =>
      IntShort(n);
      IntReadBack(n, []);
      assert IntBytes(n) + [] == IntBytes(n);
    case VString(s) => CStringIs(s);
    case _ =>
  }

  /** A nested message, given that it is read back from its own bytes exactly if it is readable. */
  lemma {:induction false} NestedReadBack(env: Env, f: Field, w: Message, readable: bool)
    requires (f.ty.TStruct? || f.ty.TArray?) && Typed(env, f.ty.ref, w)
    requires UnmarshalMessage(env, f.ty.ref, MarshalFrom(env, f.ty.ref, w, 0)) == Some(w) <==> readable
    ensures var p := MarshalFrom(env, f.ty.ref, w, 0);
      Decoded(env, f, p[..|p| % TWO32]) == Some(VStruct(w)) <==> |p| < TWO32 - 1 && readable
  {
    hide MarshalFrom, UnmarshalMessage, Typed;
    var p := MarshalFrom(env, f.ty.ref, w, 0);
    var cut := p[..|p| % TWO32];
    if |p| < TWO32 {
      assert cut == p;
    } else if UnmarshalMessage(env, f.ty.ref, cut) == Some(w) {
      MessageShortest(env, f.ty.ref, w, cut);
    }
  }

  lemma {:induction false} MessageFromFields(env: Env, ref: nat, m: Message)
    requires Typed(env, ref, m)
    ensures UnmarshalMessage(env, ref, MarshalFrom(env, ref, m, 0))
         == UnmarshalLoop(env, ref, MarshalFrom(env, ref, m, 0), UpTo(env[ref], m, 0))
  {
    hide UnmarshalLoop, MarshalFrom;
    assert UpTo(env[ref], m, 0) == Blank(env[ref]);
  }

  lemma {:induction false} DecodedKind(env: Env, f: Field, p: seq<Byte>)
    requires Decoded(env, f, p).Some?
    ensures !Decoded(env, f, p).value.VArray? && ((f.ty.TStruct? || f.ty.TArray?) ==> Decoded(env, f, p).value.VStruct?)
  {
    hide UnmarshalMessage, DecodeInt;
  }

  /** A field cannot extend two different values stored at the same place. */
  lemma {:induction false} OtherValue(f: Field, was: Option<Value>, now: Option<Value>, v: Value, got: Value)
    requires if f.ty.TArray? then was.Some? && was.value.VArray? && v.VStruct? && got.VStruct? else !got.VArray?
    requires Extends(now, Store(f, was, v)) && Extends(now, Store(f, was, got))
    ensures got == v
  {
    if f.ty.TArray? {
      var ws := was.value.ms;
      assert now.value.ms[..|ws| + 1][|ws|] == v.m && now.value.ms[..|ws| + 1][|ws|] == got.m;
    }
  }

  /**
    The turn of the loop on an item whose value is to end in field `i`: the message comes out exactly if the item is
    readable, holds the value, and the rest completes the message.
   */
  lemma {:induction false} ItemReadBack(env: Env, ref: nat, m: Message, i: nat, fields: seq<Option<Value>>,
                                        payload: seq<Byte>, rest: seq<Byte>, v: Value, next: seq<Option<Value>>,
                                        fits: bool)
    requires EnvOk(env) && Typed(env, ref, m) && i < |m.fields| && Shaped(env[ref], fields)
    requires if env[ref][i].ty.TArray? then v.VStruct? else fields[i].None?
    requires next == fields[i := Store(env[ref][i], fields[i], v)] && Extends(m.fields[i], next[i])
    requires Decoded(env, env[ref][i], payload[..|payload| % TWO32]) == Some(v) <==> |payload| < TWO32 - 1 && fits
    ensures var b := Marshal(env[ref][i].tag, payload) + rest;
      UnmarshalLoop(env, ref, b, fields) == Some(m) <==>
        ItemReadable(env[ref][i], |payload|, |b|) && fits && UnmarshalLoop(env, ref, rest, next) == Some(m)
  {
    hide Marshal, UnmarshalLoop, FieldTyped, HeadSeen;
    var f, b, len := env[ref][i], Marshal(env[ref][i].tag, payload) + rest, |payload| % TWO32;
    LoopStep(env, ref, fields, i, payload, rest);
    var got := Decoded(env, f, payload[..len]);
    if HeadSeen(f.tag, len, |b|) && got.Some? && got != Some(v) {
      var other := fields[i := Store(f, fields[i], got.value)];
      DecodedKind(env, f, payload[..len]);
      if UnmarshalLoop(env, ref, rest, other) == Some(m) {
        LoopKeeps(env, ref, rest, other);
        OtherValue(f, fields[i], m.fields[i], v, got.value);
      }
    }
  }

  lemma {:induction false} TypedParts(env: Env, ref: nat, m: Message, i: nat)
    requires EnvOk(env) && Typed(env, ref, m) && i < |m.fields|
    ensures ref < |env| && |env[ref]| == |m.fields| && FieldTyped(env, env[ref][i], m, i) && SchemaOk(env, env[ref])
    ensures FieldOk(env, env[ref][i])
  {
    hide FieldTyped;
  }

  lemma {:induction false} NextElement(ms: seq<Message>, j: nat)
    requires j < |ms|
    ensures ms[..j] + [ms[j]] == ms[..j + 1]
  {
  }

  lemma {:induction false} StructReadBack(env: Env, ref: nat, m: Message, i: nat)
    requires EnvOk(env) && Typed(env, ref, m) && i < |m.fields| && FieldTyped(env, env[ref][i], m, i)
    requires m.fields[i].Some? && m.fields[i].value.VStruct?
    ensures var f, w := env[ref][i], m.fields[i].value.m; var p := PayloadOf(env, f, m, i);
      Decoded(env, f, p[..|p| % TWO32]) == Some(VStruct(w)) <==> |p| < TWO32 - 1 && ReadableFrom(env, f.ty.ref, w, 0)
    decreases m, 0, 0, 0
  {
    hide UnmarshalLoop, UnmarshalMessage, MarshalFrom, ReadableFrom, Decoded;
    var f, w := env[ref][i], m.fields[i].value.m;
    FieldsReadBack(env, f.ty.ref, w, 0);
    MessageFromFields(env, f.ty.ref, w);
    NestedReadBack(env, f, w, ReadableFrom(env, f.ty.ref, w, 0));
  }

  lemma {:induction false} FieldReadBack(env: Env, ref: nat, m: Message, i: nat)
    requires EnvOk(env) && Typed(env, ref, m) && i < |m.fields|
    ensures UnmarshalLoop(env, ref, MarshalFrom(env, ref, m, i), UpTo(env[ref], m, i)) == Some(m)
       <==> ReadableField(env, ref, m, i) && ReadableFrom(env, ref, m, i + 1)
    decreases m, |m.fields| - i, 1, 0
  {
    hide Marshal, UnmarshalLoop, ReadField, PayloadOf, ReadableFrom, ReadableElements, ItemReadable, Decoded, Typed;
    hide Shaped;
    TypedParts(env, ref, m, i);
    var f := env[ref][i];
    var rest, fields := MarshalFrom(env, ref, m, i + 1), UpTo(env[ref], m, i);
    FieldsReadBack(env, ref, m, i + 1);
    if m.fields[i].None? {
      assert MarshalFrom(env, ref, m, i) == rest;
      assert UpTo(env[ref], m, i + 1) == fields;
    } else if m.fields[i].value.VArray? {
      assert fields == fields[i := Some(VArray(m.fields[i].value.ms[..0]))];
      ElementsReadBack(env, ref, m, i, 0);
    } else {
      var payload := PayloadOf(env, f, m, i);
      var v := m.fields[i].value;
      PayloadIs(env, f, m, i);
      UpToShaped(env, ref, m, i);
      assert UpTo(env[ref], m, i + 1) == fields[i := m.fields[i]];
      ghost var fits := true;
      if v.VStruct? {
        fits := ReadableFrom(env, f.ty.ref, v.m, 0);
        StructReadBack(env, ref, m, i);
      } else {
        PlainReadBack(env, f, m, i);
      }
      ItemReadBack(env, ref, m, i, fields, payload, rest, v, UpTo(env[ref], m, i + 1), fits);
    }
  }

  lemma {:induction false} AllSetAtEnd(env: Env, ref: nat, m: Message)
    requires Typed(env, ref, m)
    ensures UpTo(env[ref], m, |m.fields|) == m.fields && AllSet(env[ref], m.fields)
  {
    var schema := env[ref];
    forall i | 0 <= i < |schema| ensures schema[i].optional || m.fields[i].Some? {
      assert FieldTyped(env, schema[i], m, i);
    }
  }

  /** Reading what was written for the fields from `i` on completes the message exactly if all of it is readable. */
  lemma {:induction false} FieldsReadBack(env: Env, ref: nat, m: Message, i: nat)
    requires EnvOk(env) && Typed(env, ref, m) && i <= |m.fields|
    ensures UnmarshalLoop(env, ref, MarshalFrom(env, ref, m, i), UpTo(env[ref], m, i)) == Some(m) <==>
      ReadableFrom(env, ref, m, i)
    decreases m, |m.fields| - i, 2, 0
  {
    hide MarshalField, FieldTyped, UpTo, ReadableField;
    if i == |m.fields| {
      AllSetAtEnd(env, ref, m);
    } else {
      FieldReadBack(env, ref, m, i);
    }
  }

  /** The elements of an array from `j` on. */
  lemma {:induction false} ElementsReadBack(env: Env, ref: nat, m: Message, i: nat, j: nat)
    requires EnvOk(env) && Typed(env, ref, m) && i < |m.fields| && FieldTyped(env, env[ref][i], m, i)
    requires m.fields[i].Some? && m.fields[i].value.VArray? && j <= |m.fields[i].value.ms|
    ensures UnmarshalLoop(env, ref, MarshalElements(env, env[ref][i], m, i, j) + MarshalFrom(env, ref, m, i + 1),
                          UpTo(env[ref], m, i)[i := Some(VArray(m.fields[i].value.ms[..j]))]) == Some(m)
       <==> ReadableElements(env, ref, m, i, j) && ReadableFrom(env, ref, m, i + 1)
    decreases m, |m.fields| - i, 0, |m.fields[i].value.ms| - j
  {
    hide Marshal, UnmarshalLoop, UnmarshalMessage, MarshalFrom, ReadableFrom, ItemReadable, Decoded, Typed;
    TypedParts(env, ref, m, i);
    var f, ms := env[ref][i], m.fields[i].value.ms;
    var rest := MarshalFrom(env, ref, m, i + 1);
    var fields := UpTo(env[ref], m, i)[i := Some(VArray(ms[..j]))];
    if j == |ms| {
      assert MarshalElements(env, f, m, i, j) + rest == rest;
      assert ms[..j] == ms;
      assert UpTo(env[ref], m, i + 1) == fields;
      FieldsReadBack(env, ref, m, i + 1);
    } else {
      var payload, more := MarshalFrom(env, f.ty.ref, ms[j], 0), MarshalElements(env, f, m, i, j + 1) + rest;
      assert MarshalElements(env, f, m, i, j) + rest == Marshal(f.tag, payload) + more;
      FieldsReadBack(env, f.ty.ref, ms[j], 0);
      MessageFromFields(env, f.ty.ref, ms[j]);
      NestedReadBack(env, f, ms[j], ReadableFrom(env, f.ty.ref, ms[j], 0));
      UpToShaped(env, ref, m, i);
      var next := UpTo(env[ref], m, i)[i := Some(VArray(ms[..j + 1]))];
      NextElement(ms, j);
      assert next == fields[i := Store(f, fields[i], VStruct(ms[j]))];
      ItemReadBack(env, ref, m, i, fields, payload, more, VStruct(ms[j]), next, ReadableFrom(env, f.ty.ref, ms[j], 0));
      ElementsReadBack(env, ref, m, i, j + 1);
    }
  }

  /**
    For every accepted schema and every complete message of any size, unmarshalling what marshalling wrote returns the
    message if and only if it is readable.
   */
  lemma {:induction false} MessageReadBack(env: Env, ref: nat, m: Message)
    requires EnvOk(env) && Typed(env, ref, m)
    ensures UnmarshalMessage(env, ref, MarshalMessage(env, ref, m)) == Some(m) <==> Readable(env, ref, m)
  {
    hide UnmarshalLoop, UnmarshalMessage, MarshalFrom, ReadableFrom;
    FieldsReadBack(env, ref, m, 0);
    MessageFromFields(env, ref, m);
  }

  /**
    evtag_marshal_<name> and evtag_unmarshal_<name>: a message in a larger stream is read back and the rest is
    left.
   */
  lemma {:induction false} TaggedMessageReadBack(env: Env, ref: nat, tag: nat, m: Message, rest: seq<Byte>)
    requires EnvOk(env) && Typed(env, ref, m) && tag < TWO32
    ensures var f, p := Field(tag, false, TStruct(ref)), MarshalMessage(env, ref, m); var b := Marshal(tag, p) + rest;
      ReadField(env, f, b) == Some((VStruct(m), rest)) <==> ItemReadable(f, |p|, |b|) && Readable(env, ref, m)
  {
    hide Marshal, UnmarshalMessage, ReadField, MarshalFrom, ReadableFrom, Decoded, HeadSeen;
    var f := Field(tag, false, TStruct(ref));
    MessageReadBack(env, ref, m);
    NestedReadBack(env, f, m, Readable(env, ref, m));
    ItemRead(env, f, MarshalMessage(env, ref, m), rest);
  }

  // ----- what is accepted -----

  predicate FieldComplete(env: Env, f: Field, m: Message, i: nat)
    requires i < |m.fields|
    decreases m, 0
  {
    match m.fields[i]
    case None => f.optional && !f.ty.TArray?
    case Some(VInt(n)) => f.ty.TInt? && n < TWO32
    case Some(VString(s)) => f.ty.TString?
    case Some(VBytes(b)) => f.ty.TBytes?
    case Some(VStruct(w)) => f.ty.TStruct? && Complete(env, f.ty.ref, w)
    case Some(VArray(ms)) => f.ty.TArray? && forall j :: 0 <= j < |ms| ==> Complete(env, f.ty.ref, ms[j])
  }

  /** Every required field is set, every value is of its field's type, and the same holds of all nested messages. */
  predicate Complete(env: Env, ref: nat, m: Message)
    decreases m, 1
  {
    ref < |env| && |m.fields| == |env[ref]| && forall i :: 0 <= i < |m.fields| ==> FieldComplete(env, env[ref][i], m, i)
  }

  ghost predicate PartComplete(env: Env, ref: nat, fields: seq<Option<Value>>)
    requires ref < |env|
  {
    && Shaped(env[ref], fields)
    && forall i :: 0 <= i < |fields| && fields[i].Some? ==> FieldComplete(env, env[ref][i], Message(fields), i)
  }

  lemma {:induction false} BlankComplete(env: Env, ref: nat)
    requires ref < |env|
    ensures PartComplete(env, ref, Blank(env[ref]))
  {
  }

  lemma {:induction false} SameField(env: Env, f: Field, m: Message, w: Message, i: nat)
    requires i < |m.fields| && i < |w.fields| && w.fields[i] == m.fields[i] && FieldComplete(env, f, m, i)
    ensures FieldComplete(env, f, w, i)
  {
  }

  lemma {:induction false} UnsetComplete(env: Env, schema: Schema, fields: seq<Option<Value>>, i: nat)
    requires AllSet(schema, fields) && Shaped(schema, fields) && i < |fields|
    requires fields[i].Some? ==> FieldComplete(env, schema[i], Message(fields), i)
    ensures FieldComplete(env, schema[i], Message(fields), i)
  {
  }

  lemma {:induction false} ElementsComplete(env: Env, f: Field, fields: seq<Option<Value>>, i: nat)
    requires i < |fields| && (fields[i].Some? ==> FieldComplete(env, f, Message(fields), i))
    requires if f.ty.TArray? then fields[i].Some? && fields[i].value.VArray? else fields[i].None?
    ensures fields[i].Some? ==>
      forall j :: 0 <= j < |fields[i].value.ms| ==> Complete(env, f.ty.ref, fields[i].value.ms[j])
  {
  }

  lemma {:induction false} LoopComplete(env: Env, ref: nat, b: seq<Byte>, fields: seq<Option<Value>>)
    requires ref < |env| && PartComplete(env, ref, fields) && UnmarshalLoop(env, ref, b, fields).Some?
    ensures Complete(env, ref, UnmarshalLoop(env, ref, b, fields).value)
    decreases |b|, 1
  {
    hide ReadField, DecodeTag, Store, FieldComplete;
    if b == [] {
      forall i | 0 <= i < |fields| ensures FieldComplete(env, env[ref][i], Message(fields), i) {
        UnsetComplete(env, env[ref], fields, i);
      }
    } else {
      var i := FindTag(env[ref], DecodeTag(b).value.0);
      var f := env[ref][i];
      var v := ReadField(env, f, b).value;
      var next := fields[i := Store(f, fields[i], v.0)];
      StoreExtends(env, f, fields[i], b);
      ElementsComplete(env, f, fields, i);
      ReadComplete(env, f, fields[i], b, next, i);
      forall k | 0 <= k < |next| && next[k].Some? ensures FieldComplete(env, env[ref][k], Message(next), k) {
        if k != i { SameField(env, env[ref][k], Message(fields), Message(next), k); }
      }
      LoopComplete(env, ref, v.1, next);
    }
  }

  /** Whatever the bytes, only complete messages are accepted. */
  lemma {:induction false} MessageComplete(env: Env, ref: nat, b: seq<Byte>)
    requires UnmarshalMessage(env, ref, b).Some?
    ensures Complete(env, ref, UnmarshalMessage(env, ref, b).value)
    decreases |b|, 2
  {
    hide UnmarshalLoop, PartComplete, Complete;
    BlankComplete(env, ref);
    LoopComplete(env, ref, b, Blank(env[ref]));
  }

  /** The value of a field is of its type, and complete if it is a message. */
  lemma {:induction false} ReadComplete(env: Env, f: Field, was: Option<Value>, b: seq<Byte>,
                                        fields: seq<Option<Value>>, i: nat)
    requires ReadField(env, f, b).Some? && i < |fields| && fields[i] == Store(f, was, ReadField(env, f, b).value.0)
    requires if f.ty.TArray? then was.Some? && was.value.VArray? else was.None?
    requires was.Some? ==> forall j :: 0 <= j < |was.value.ms| ==> Complete(env, f.ty.ref, was.value.ms[j])
    ensures FieldComplete(env, f, Message(fields), i)
    decreases |b|, 0
  {
    hide Split, PayloadLength, UnmarshalMessage, DecodeInt;
    if f.ty.TStruct? || f.ty.TArray? { MessageComplete(env, f.ty.ref, Tagged(b, f.tag).value.0); }
  }

  /** The bytes as a sequence of tagged items. */
  function Items(b: seq<Byte>): Option<seq<(nat, seq<Byte>)>> {
    if b == [] then Some([])
    else
      var first := Split(b);
      if first.None? then None
      else
        var rest := Items(first.value.2);
        if rest.None? then None else Some([(first.value.0, first.value.1)] + rest.value)
  }

  predicate IsArray(schema: Schema, tag: nat) {
    var i := FindTag(schema, tag);
    i < |schema| && schema[i].ty.TArray?
  }

  lemma {:induction false} ReadIsItem(env: Env, f: Field, b: seq<Byte>)
    requires ReadField(env, f, b).Some?
    ensures Split(b).Some? && Split(b).value.0 == f.tag && ReadField(env, f, b).value.1 == Split(b).value.2
    ensures DecodeTag(b).Some? && DecodeTag(b).value.0 == f.tag
  {
    hide UnmarshalMessage, DecodeInt, DecodeTag, PayloadLength;
  }

  /** What the loop accepts: items with tags of the schema, and of fields that are no arrays at most one each. */
  ghost predicate Accepted(schema: Schema, fields: seq<Option<Value>>, items: seq<(nat, seq<Byte>)>) {
    && |fields| == |schema|
    && (forall k :: 0 <= k < |items| ==>
          var i := FindTag(schema, items[k].0);
          i < |schema| && (!schema[i].ty.TArray? ==> fields[i].None?))
    && forall k, l :: 0 <= k < l < |items| && items[k].0 == items[l].0 ==> IsArray(schema, items[k].0)
  }

  lemma {:induction false} StoreSets(f: Field, was: Option<Value>, v: Value)
    ensures Store(f, was, v).Some?
  {
  }

  lemma {:induction false} AcceptedMore(schema: Schema, fields: seq<Option<Value>>, i: nat, next: seq<Option<Value>>,
                                        item: (nat, seq<Byte>), items: seq<(nat, seq<Byte>)>)
    requires i < |schema| == |fields| == |next| && i == FindTag(schema, item.0) && Accepted(schema, next, items)
    requires next[i].Some? && (schema[i].ty.TArray? || fields[i].None?)
    requires forall k :: 0 <= k < |fields| && k != i ==> next[k] == fields[k]
    ensures Accepted(schema, fields, [item] + items)
  {
    var all := [item] + items;
    forall k | 0 <= k < |all|
      ensures var j := FindTag(schema, all[k].0); j < |schema| && (!schema[j].ty.TArray? ==> fields[j].None?)
    {
      if k > 0 { assert all[k] == items[k - 1]; }
    }
    forall k, l | 0 <= k < l < |all| && all[k].0 == all[l].0 ensures IsArray(schema, all[k].0) {
      assert all[l] == items[l - 1];
      if k > 0 { assert all[k] == items[k - 1]; }
    }
  }

  lemma {:induction false} LoopAccepts(env: Env, ref: nat, b: seq<Byte>, fields: seq<Option<Value>>)
    requires ref < |env| && Shaped(env[ref], fields) && UnmarshalLoop(env, ref, b, fields).Some?
    ensures Items(b).Some? && Accepted(env[ref], fields, Items(b).value)
    decreases |b|
  {
    hide ReadField, DecodeTag, Store, Split;
    if b != [] {
      var i := FindTag(env[ref], DecodeTag(b).value.0);
      var f := env[ref][i];
      var v := ReadField(env, f, b).value;
      var next := fields[i := Store(f, fields[i], v.0)];
      StoreExtends(env, f, fields[i], b);
      StoreSets(f, fields[i], v.0);
      ReadIsItem(env, f, b);
      LoopAccepts(env, ref, v.1, next);
      AcceptedMore(env[ref], fields, i, next, (f.tag, Split(b).value.1), Items(v.1).value);
    }
  }

  predicate HasTag(schema: Schema, tag: nat) {
    exists i :: 0 <= i < |schema| && schema[i].tag == tag
  }

  lemma {:induction false} AcceptedTag(schema: Schema, fields: seq<Option<Value>>, items: seq<(nat, seq<Byte>)>, k: nat)
    requires Accepted(schema, fields, items) && k < |items|
    ensures HasTag(schema, items[k].0)
  {
    hide IsArray;
    var i := FindTag(schema, items[k].0);
    assert schema[i].tag == items[k].0;
  }

  /** Bytes that are accepted consist of items; each tag belongs to a field, and only arrays occur more than once. */
  lemma {:induction false} MessageAccepts(env: Env, ref: nat, b: seq<Byte>)
    requires UnmarshalMessage(env, ref, b).Some?
    ensures ref < |env| && Items(b).Some?
    ensures var items := Items(b).value;
      && (forall k :: 0 <= k < |items| ==> HasTag(env[ref], items[k].0))
      && forall k, l :: 0 <= k < l < |items| && items[k].0 == items[l].0 ==> IsArray(env[ref], items[k].0)
  {
    hide UnmarshalLoop, IsArray, Items, HasTag;
    var schema := env[ref];
    LoopAccepts(env, ref, b, Blank(schema));
    var items := Items(b).value;
    forall k | 0 <= k < |items| ensures HasTag(schema, items[k].0) { AcceptedTag(schema, Blank(schema), items, k); }
  }

  // ----- messages of ordinary size -----

  predicate FieldWhole(env: Env, f: Field, m: Message, i: nat)
    requires i < |m.fields| && FieldTyped(env, f, m, i)
    decreases m, 0
  {
    match m.fields[i]
    case Some(VString(s)) => |s| < TWO32
    case Some(VStruct(w)) => |MarshalFrom(env, f.ty.ref, w, 0)| < TWO32 && Whole(env, f.ty.ref, w)
    case Some(VArray(ms)) =>
      forall j :: 0 <= j < |ms| ==> |MarshalFrom(env, f.ty.ref, ms[j], 0)| < TWO32 && Whole(env, f.ty.ref, ms[j])
    case _ => true
  }

  /** No payload is cut: every one is shorter than 2^32 bytes. */
  predicate Whole(env: Env, ref: nat, m: Message)
    requires Typed(env, ref, m)
    decreases m, 1
  {
    forall i :: 0 <= i < |m.fields| ==> FieldTyped(env, env[ref][i], m, i) && FieldWhole(env, env[ref][i], m, i)
  }

  lemma {:induction false} SeenNotEmpty(tag: nat, len: nat, n: nat)
    requires HeadSeen(tag, len, n)
    ensures VisibleLength(n) > 0
  {
  }

  /** The first item is only seen if the length does not look negative. */
  lemma {:induction false} ReadableSeen(env: Env, ref: nat, m: Message, i: nat)
    requires Typed(env, ref, m) && i <= |m.fields| && ReadableFrom(env, ref, m, i)
    ensures MarshalFrom(env, ref, m, i) == [] || VisibleLength(|MarshalFrom(env, ref, m, i)|) > 0
    decreases |m.fields| - i
  {
    hide Marshal;
    if i < |m.fields| {
      assert FieldTyped(env, env[ref][i], m, i);
      ReadableSeen(env, ref, m, i + 1);
      if m.fields[i].Some? && m.fields[i].value.VArray? {
        var rest := MarshalFrom(env, ref, m, i + 1);
        assert MarshalFrom(env, ref, m, i) == MarshalElements(env, env[ref][i], m, i, 0) + rest;
        if |m.fields[i].value.ms| == 0 {
          assert MarshalFrom(env, ref, m, i) == rest;
        } else {
          assert ReadableField(env, ref, m, i) && ReadableElements(env, ref, m, i, 0);
          SeenNotEmpty(env[ref][i].tag, |MarshalFrom(env, env[ref][i].ty.ref, m.fields[i].value.ms[0], 0)|,
            |MarshalFrom(env, ref, m, i)|);
        }
      }
    }
  }

  lemma {:induction false} ShortPayload(env: Env, f: Field, m: Message, i: nat)
    requires i < |m.fields| && FieldTyped(env, f, m, i) && FieldWhole(env, f, m, i) && m.fields[i].Some?
    ensures |PayloadOf(env, f, m, i)| < TWO32
  {
    hide MarshalFrom, IntBytes;
    match m.fields[i].value
    case VInt(n) => IntShort(n);
    case VString(s) => CStringIs(s);
    case _ =>
  }

  lemma {:induction false} ShortElements(env: Env, ref: nat, m: Message, i: nat, j: nat)
    requires Typed(env, ref, m) && i < |m.fields| && FieldTyped(env, env[ref][i], m, i)
    requires FieldWhole(env, env[ref][i], m, i)
    requires m.fields[i].Some? && m.fields[i].value.VArray? && j <= |m.fields[i].value.ms|
    requires |MarshalElements(env, env[ref][i], m, i, j) + MarshalFrom(env, ref, m, i + 1)| < TWO31
    ensures ReadableElements(env, ref, m, i, j)
    decreases m, |m.fields| - i, 0, |m.fields[i].value.ms| - j
  {
    hide Marshal, HeadSeen, MarshalFrom, Whole, ReadableFrom;
    var f, ms, rest := env[ref][i], m.fields[i].value.ms, MarshalFrom(env, ref, m, i + 1);
    if j < |ms| {
      var p, more := MarshalFrom(env, f.ty.ref, ms[j], 0), MarshalElements(env, f, m, i, j + 1) + rest;
      assert MarshalElements(env, f, m, i, j) + rest == Marshal(f.tag, p) + more;
      ShortSeen(f.tag, p, more);
      MarshalLength(f.tag, p);
      ShortReadable(env, f.ty.ref, ms[j], 0);
      ShortElements(env, ref, m, i, j + 1);
    }
  }

  lemma {:induction false} ShortReadable(env: Env, ref: nat, m: Message, i: nat)
    requires Typed(env, ref, m) && i <= |m.fields| && Whole(env, ref, m) && |MarshalFrom(env, ref, m, i)| < TWO31
    ensures ReadableFrom(env, ref, m, i)
    decreases m, |m.fields| - i, 1, 0
  {
    hide Marshal, HeadSeen, ReadableElements;
    if i < |m.fields| {
      var f := env[ref][i];
      assert FieldTyped(env, f, m, i) && FieldWhole(env, f, m, i);
      var rest := MarshalFrom(env, ref, m, i + 1);
      ShortReadable(env, ref, m, i + 1);
      if m.fields[i].Some? && m.fields[i].value.VArray? {
        ShortElements(env, ref, m, i, 0);
      } else if m.fields[i].Some? {
        var p := PayloadOf(env, f, m, i);
        PayloadIs(env, f, m, i);
        ShortPayload(env, f, m, i);
        ShortSeen(f.tag, p, rest);
        MarshalLength(f.tag, p);
        if m.fields[i].value.VStruct? { ShortReadable(env, f.ty.ref, m.fields[i].value.m, 0); }
      }
    }
  }

  /** With no payload cut, a message of less than 2^32 bytes is readable exactly if its length fits an int. */
  lemma {:induction false} OrdinaryReadable(env: Env, ref: nat, m: Message)
    requires Typed(env, ref, m) && Whole(env, ref, m) && |MarshalMessage(env, ref, m)| < TWO32
    ensures Readable(env, ref, m) <==> |MarshalMessage(env, ref, m)| < TWO31
  {
    hide MarshalFrom, ReadableFrom;
    if |MarshalMessage(env, ref, m)| < TWO31 {
      ShortReadable(env, ref, m, 0);
    } else if Readable(env, ref, m) {
      ReadableSeen(env, ref, m, 0);
    }
  }

  /** Two required fields of bytes. */
  const TWO_BYTES: Env := [[Field(1, false, TBytes), Field(2, false, TBytes)]]

  lemma {:induction false} LongLengths()
    ensures |IntBytes(0xC000_0000)| == 5 && |IntBytes(0x4000_0000)| == 5 && TagBytes(1) == [1] && TagBytes(2) == [2]
  {
    assert |Nibbles(0xC000_0000)| == 8;
    assert |Nibbles(0x4000_0000)| == 8;
  }

  /** A message of 2^32 + 12 bytes that is read back: wherever a length is read, the buffer's length looks small. */
  lemma {:induction false} LongMessage(a: seq<Byte>, b: seq<Byte>)
    requires |a| == 0xC000_0000 && |b| == 0x4000_0000
    ensures var m := Message([Some(VBytes(a)), Some(VBytes(b))]);
      && EnvOk(TWO_BYTES) && Typed(TWO_BYTES, 0, m) && |MarshalMessage(TWO_BYTES, 0, m)| == TWO32 + 12
      && Readable(TWO_BYTES, 0, m)
  {
    hide Marshal, IntBytes, TagBytes;
    var m := Message([Some(VBytes(a)), Some(VBytes(b))]);
    LongLengths();
    MarshalLength(1, a);
    MarshalLength(2, b);
    var f, g := TWO_BYTES[0][0], TWO_BYTES[0][1];
    assert FieldTyped(TWO_BYTES, f, m, 0) && FieldTyped(TWO_BYTES, g, m, 1);
    assert MarshalFrom(TWO_BYTES, 0, m, 2) == [];
    assert MarshalFrom(TWO_BYTES, 0, m, 1) == Marshal(2, b);
    assert MarshalFrom(TWO_BYTES, 0, m, 0) == Marshal(1, a) + Marshal(2, b);
    assert ReadableFrom(TWO_BYTES, 0, m, 2);
    assert ReadableField(TWO_BYTES, 0, m, 1);
    assert ReadableFrom(TWO_BYTES, 0, m, 1);
    assert ReadableField(TWO_BYTES, 0, m, 0);
  }

  // ----- the instance of test/regress.gen.c -----

  /** The structs msg, kill and run. */
  const REGRESS: Env := [
    [Field(1, false, TString), Field(2, false, TString), Field(3, true, TStruct(1)), Field(4, false, TArray(2))],
    [Field(0x10121, false, TString), Field(2, false, TString), Field(3, true, TInt)],
    [Field(1, false, TString)]
  ]

  /** A msg with an attack and any runs comes back as it was sent. */
  lemma {:induction false} RegressReadBack(from: seq<Byte>, to: seq<Byte>, weapon: seq<Byte>, action: seq<Byte>,
                                           often: nat, hows: seq<Message>)
    requires NoZero(from) && NoZero(to) && NoZero(weapon) && NoZero(action) && often < TWO32
    requires forall i :: 0 <= i < |hows| ==> Typed(REGRESS, 2, hows[i])
    ensures var kill := Message([Some(VString(weapon)), Some(VString(action)), Some(VInt(often))]);
      var msg := Message([Some(VString(from)), Some(VString(to)), Some(VStruct(kill)), Some(VArray(hows))]);
      && Typed(REGRESS, 0, msg)
      && (Whole(REGRESS, 0, msg) && |MarshalMessage(REGRESS, 0, msg)| < TWO31 ==>
          UnmarshalMessage(REGRESS, 0, MarshalMessage(REGRESS, 0, msg)) == Some(msg))
  {
    hide MarshalMessage, UnmarshalMessage, Whole, Readable;
    var kill := Message([Some(VString(weapon)), Some(VString(action)), Some(VInt(often))]);
    var msg := Message([Some(VString(from)), Some(VString(to)), Some(VStruct(kill)), Some(VArray(hows))]);
    assert Typed(REGRESS, 1, kill);
    assert Typed(REGRESS, 0, msg);
    assert EnvOk(REGRESS);
    if Whole(REGRESS, 0, msg) && |MarshalMessage(REGRESS, 0, msg)| < TWO31 {
      MessageReadBack(REGRESS, 0, msg);
      OrdinaryReadable(REGRESS, 0, msg);
    }
  }

  // ----- the generator's list of entries -----

  /** class Struct of event_rpcgen.py */
  class Struct {
    var entries: Schema
    var tags: set<nat>

    ghost predicate Valid()
      reads this
    {
      DistinctTags(entries) && forall t :: t in tags <==> exists i :: 0 <= i < |entries| && entries[i].tag == t
    }

    constructor ()
      ensures Valid() && entries == []
    {
      entries, tags := [], {};
    }

    /** AddEntry; false where the generator reports a duplicate tag and ends. */
    method AddEntry(entry: Field) returns (ok: bool)
      requires Valid()
      modifies this
      ensures Valid()
      ensures ok <==> forall i :: 0 <= i < |old(entries)| ==> old(entries)[i].tag != entry.tag
      ensures entries == if ok then old(entries) + [entry] else old(entries)
    {
      if entry.tag in tags {
        return false;
      }
      ghost var was := entries;
      entries := entries + [entry];
      tags := tags + {entry.tag};
      assert forall i :: 0 <= i < |was| ==> entries[i] == was[i];
      assert entries[|was|] == entry;
      forall t | t in tags ensures exists i :: 0 <= i < |entries| && entries[i].tag == t {
        if t != entry.tag {
          var i :| 0 <= i < |was| && was[i].tag == t;
          assert entries[i].tag == t;
        }
      }
      return true;
    }
  }

  // ----- growing arrays -----

  /** The array part of a generated struct: <name>_data, _length and _num_allocated. */
  class Elements {
    var data: array<Message>
    var length: nat

    ghost predicate Valid()
      reads this
    {
      length <= data.Length && (data.Length == 0 || exists k: nat :: data.Length == Pow2(k))
    }

    ghost function Contents(): seq<Message>
      reads this, data
      requires length <= data.Length
    {
      data[..length]
    }

    constructor ()
      ensures Valid() && fresh(data) && Contents() == []
    {
      data := new Message[0];
      length := 0;
    }

    /**
      EntryArray.CodeAdd: room for one more, by doubling; `memory` and `made` are the results of realloc and of the
      element's constructor.
     */
    method Add(element: Message, memory: bool, made: bool) returns (ok: bool)
      requires Valid()
      modifies this, data
      ensures Valid() && (data == old(data) || fresh(data))
      ensures ok ==> Contents() == old(Contents()) + [element]
      ensures !ok ==> Contents() == old(Contents()) && !(memory && made)
    {
      length := length + 1;
      if length >= data.Length {
        var tobe := if data.Length == 0 then 1 else 2 * data.Length;
        if !memory {
          length := length - 1;
          return false;
        }
        ghost var k: nat :| data.Length == 0 || data.Length == Pow2(k);
        assert tobe == if data.Length == 0 then Pow2(0) else Pow2(k + 1);
        var bigger := new Message[tobe](_ => Message([]));
        forall i | 0 <= i < data.Length {
          bigger[i] := data[i];
        }
        data := bigger;
      }
      assert data[..length - 1] == old(data[..length]);
      if !made {
        length := length - 1;
        return false;
      }
      data[length - 1] := element;
      return true;
    }
  }

  // ----- the generated code on buffers -----

  /** evtag_unmarshal with the check of the tag. */
  method ReadPayload(evbuf: Buffer, needTag: nat) returns (payload: seq<Byte>, ok: bool)
    requires evbuf.Valid()
    modifies evbuf`misalign, evbuf`off
    ensures evbuf.Valid()
    ensures Tagged(old(evbuf.Contents()), needTag) == if ok then Some((payload, evbuf.Contents())) else None
  {
    hide Capacity, Unmarshal;
    var tag, res;
    tag, payload, res := ReadTagged(evbuf);
    ok := res != -1 && tag == needTag;
  }

  /** A new buffer with the given bytes. */
  method Filled(bytes: seq<Byte>) returns (tmp: Buffer)
    ensures fresh(tmp) && fresh(tmp.data) && tmp.Valid() && tmp.Contents() == bytes
  {
    hide Capacity;
    tmp := new Buffer();
    var _ := tmp.Add(bytes, true);
    assert tmp.Contents() == bytes;
  }

  lemma {:induction false} NoStruct(env: Env, ref: nat, b: seq<Byte>)
    requires ref >= |env|
    ensures UnmarshalMessage(env, ref, b) == None
  {
  }

  /** evtag_unmarshal_<name> on bytes. */
  function Nested(env: Env, ref: nat, tag: nat, b: seq<Byte>): Option<(Message, seq<Byte>)> {
    var u := Tagged(b, tag);
    if u.None? then None
    else
      var m := UnmarshalMessage(env, ref, u.value.0);
      if m.None? then None else Some((m.value, u.value.1))
  }

  /** evtag_payload_length */
  method PeekPayload(evbuf: Buffer) returns (n: Option<nat>)
    requires evbuf.Valid()
    ensures n == PayloadLength(evbuf.Contents())
  {
    hide Capacity, DecodeTag, DecodeInt;
    var bytes := evbuf.data[evbuf.misalign..evbuf.misalign + evbuf.off];
    var tmp := Filled(bytes);
    var _, r := ReadTag(tmp, true);
    if r == -1 {
      return None;
    }
    var len;
    len, r := ReadInt(tmp, false);
    return if r == -1 then None else Some(len);
  }

  /** evtag_unmarshal_<name> */
  method ReadNested(env: Env, ref: nat, tag: nat, evbuf: Buffer) returns (m: Option<Message>)
    requires evbuf.Valid()
    modifies evbuf`misalign, evbuf`off
    ensures evbuf.Valid()
    ensures Nested(env, ref, tag, old(evbuf.Contents())) == if m.None? then None else Some((m.value, evbuf.Contents()))
    decreases |evbuf.Contents()|, 0
  {
    hide Capacity, Tagged, UnmarshalMessage;
    var payload, ok := ReadPayload(evbuf, tag);
    if !ok {
      return None;
    }
    if ref >= |env| {
      NoStruct(env, ref, payload);
      return None;
    }
    var tmp := Filled(payload);
    m := UnmarshalStruct(env, ref, tmp);
  }

  /** CodeUnmarshal of one field. */
  method ReadFieldFrom(env: Env, f: Field, evbuf: Buffer) returns (v: Option<Value>)
    requires evbuf.Valid()
    modifies evbuf`misalign, evbuf`off
    ensures evbuf.Valid()
    ensures ReadField(env, f, old(evbuf.Contents())) == if v.None? then None else Some((v.value, evbuf.Contents()))
    decreases |evbuf.Contents()|, 1
  {
    hide Capacity, UnmarshalInt, Tagged, PayloadLength, UnmarshalMessage;
    match f.ty
    case TInt =>
      var n, res := ReadTaggedInt(evbuf, f.tag);
      return if res == -1 then None else Some(VInt(n));
    case TString =>
      var payload, ok := ReadPayload(evbuf, f.tag);
      return if ok then Some(VString(payload)) else None;
    case TBytes =>
      var n := PeekPayload(evbuf);
      if n.None? || n.value > evbuf.off {
        return None;
      }
      var payload, ok := ReadPayload(evbuf, f.tag);
      return if ok && |payload| == n.value then Some(VBytes(payload)) else None;
    case TStruct(ref) =>
      var m := ReadNested(env, ref, f.tag, evbuf);
      return if m.None? then None else Some(VStruct(m.value));
    case TArray(ref) =>
      var m := ReadNested(env, ref, f.tag, evbuf);
      return if m.None? then None else Some(VStruct(m.value));
  }

  /** <name>_unmarshal: on success the buffer is empty. */
  method UnmarshalStruct(env: Env, ref: nat, evbuf: Buffer) returns (r: Option<Message>)
    requires evbuf.Valid() && ref < |env|
    modifies evbuf`misalign, evbuf`off
    ensures evbuf.Valid() && r == UnmarshalMessage(env, ref, old(evbuf.Contents()))
    ensures r.Some? ==> evbuf.Contents() == []
    decreases |evbuf.Contents()|, 2
  {
    hide Capacity, ReadField, DecodeTag, FindTag;
    var schema := env[ref];
    var fields := Blank(schema);
    while evbuf.off > 0
      invariant evbuf.Valid() && |fields| == |schema| && |evbuf.Contents()| <= |old(evbuf.Contents())|
      invariant UnmarshalLoop(env, ref, old(evbuf.Contents()), Blank(schema))
        == UnmarshalLoop(env, ref, evbuf.Contents(), fields)
      decreases evbuf.off
    {
      var tag, res := ReadTag(evbuf, false);
      if res == -1 {
        return None;
      }
      var i := FindTag(schema, tag);
      if i == |schema| || (!schema[i].ty.TArray? && fields[i].Some?) {
        return None;
      }
      var v := ReadFieldFrom(env, schema[i], evbuf);
      if v.None? {
        return None;
      }
      fields := fields[i := Store(schema[i], fields[i], v.value)];
    }
    return if AllSet(schema, fields) then Some(Message(fields)) else None;
  }

  lemma {:induction false} Regroup(a: seq<Byte>, b: seq<Byte>, c: seq<Byte>)
    ensures a + (b + c) == (a + b) + c
  {
  }

  /** EntryArray.CodeMarshal */
  method WriteElements(env: Env, f: Field, m: Message, i: nat, evbuf: Buffer)
    requires evbuf.Valid() && EnvOk(env) && FieldOk(env, f) && i < |m.fields| && FieldTyped(env, f, m, i)
    requires m.fields[i].Some? && m.fields[i].value.VArray?
    modifies evbuf, evbuf.data
    ensures evbuf.Valid() && (evbuf.data == old(evbuf.data) || fresh(evbuf.data))
    ensures evbuf.Contents() == old(evbuf.Contents()) + MarshalElements(env, f, m, i, 0)
    decreases m, 0
  {
    hide Capacity, Marshal, MarshalFrom;
    var ms := m.fields[i].value.ms;
    ghost var was := evbuf.Contents();
    var j := 0;
    while j < |ms|
      invariant 0 <= j <= |ms| && evbuf.Valid() && (evbuf.data == old(evbuf.data) || fresh(evbuf.data))
      invariant was + MarshalElements(env, f, m, i, 0) == evbuf.Contents() + MarshalElements(env, f, m, i, j)
    {
      ghost var now := evbuf.Contents();
      WriteNested(env, f.ty.ref, f.tag, ms[j], evbuf);
      Regroup(now, Marshal(f.tag, MarshalFrom(env, f.ty.ref, ms[j], 0)), MarshalElements(env, f, m, i, j + 1));
      j := j + 1;
    }
  }

  /** CodeMarshal of one field. */
  method WriteFieldTo(env: Env, f: Field, m: Message, i: nat, evbuf: Buffer)
    requires evbuf.Valid() && EnvOk(env) && FieldOk(env, f) && i < |m.fields| && FieldTyped(env, f, m, i)
    modifies evbuf, evbuf.data
    ensures evbuf.Valid() && (evbuf.data == old(evbuf.data) || fresh(evbuf.data))
    ensures evbuf.Contents() == old(evbuf.Contents()) + MarshalField(env, f, m, i)
    decreases m, 1
  {
    hide Capacity, Marshal, MarshalFrom, MarshalElements;
    match m.fields[i]
    case None =>
    case Some(VInt(n)) =>
      var scratch := Filled([]);
      ghost var filled, p := WriteInt(evbuf, scratch, f.tag, n, true, ALL);
    case Some(VString(s)) => ghost var p := WriteTagged(evbuf, f.tag, CString(s), ALL);
    case Some(VBytes(b)) => ghost var p := WriteTagged(evbuf, f.tag, b, ALL);
    case Some(VStruct(m')) => WriteNested(env, f.ty.ref, f.tag, m', evbuf);
    case Some(VArray(ms)) => WriteElements(env, f, m, i, evbuf);
  }

  /** <name>_marshal */
  method MarshalStruct(env: Env, ref: nat, m: Message, evbuf: Buffer)
    requires evbuf.Valid() && EnvOk(env) && Typed(env, ref, m)
    modifies evbuf, evbuf.data
    ensures evbuf.Valid() && (evbuf.data == old(evbuf.data) || fresh(evbuf.data))
    ensures evbuf.Contents() == old(evbuf.Contents()) + MarshalMessage(env, ref, m)
    decreases m, 2
  {
    hide Capacity, MarshalField;
    ghost var was := evbuf.Contents();
    var i := 0;
    while i < |m.fields|
      invariant 0 <= i <= |m.fields| && evbuf.Valid() && (evbuf.data == old(evbuf.data) || fresh(evbuf.data))
      invariant was + MarshalFrom(env, ref, m, 0) == evbuf.Contents() + MarshalFrom(env, ref, m, i)
    {
      assert SchemaOk(env, env[ref]) && FieldOk(env, env[ref][i]) && FieldTyped(env, env[ref][i], m, i);
      ghost var now := evbuf.Contents();
      WriteFieldTo(env, env[ref][i], m, i, evbuf);
      Regroup(now, MarshalField(env, env[ref][i], m, i), MarshalFrom(env, ref, m, i + 1));
      i := i + 1;
    }
  }

  /** evtag_marshal_<name> */
  method WriteNested(env: Env, ref: nat, tag: nat, m: Message, evbuf: Buffer)
    requires evbuf.Valid() && EnvOk(env) && Typed(env, ref, m) && tag < TWO32
    modifies evbuf, evbuf.data
    ensures evbuf.Valid() && (evbuf.data == old(evbuf.data) || fresh(evbuf.data))
    ensures evbuf.Contents() == old(evbuf.Contents()) + Marshal(tag, MarshalFrom(env, ref, m, 0))
    decreases m, 3
  {
    hide Capacity, Marshal, MarshalFrom;
    var buf := Filled([]);
    MarshalStruct(env, ref, m, buf);
    assert buf.Contents() == MarshalFrom(env, ref, m, 0);
    ghost var p := WriteTagged(evbuf, tag, buf.data[buf.misalign..buf.misalign + buf.off], ALL);
  }
}
