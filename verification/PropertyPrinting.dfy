// Printing a property section: `build_bytes` and `encode` write the fields of a struct in
// a fixed order, each identifier followed by its value. Reading the result gives the same
// fields back, and printing what was read never takes more room than it had.
module PropertyPrinting {
  import opened Wire
  import opened Properties

  const PUBLISH_ORDER: seq<Byte> := [
    PAYLOAD_FORMAT_INDICATOR, MESSAGE_EXPIRY_INTERVAL, TOPIC_ALIAS, RESPONSE_TOPIC,
    CORRELATION_DATA, USER_PROPERTY, SUBSCRIPTION_IDENTIFIER, CONTENT_TYPE]

  // PUBACK, PUBREC, PUBREL, PUBCOMP, SUBACK and UNSUBACK carry the same two properties.
  const REASON_ORDER: seq<Byte> := [REASON_STRING, USER_PROPERTY]

  ghost predicate Distinct(order: seq<Byte>) {
    forall i, j :: 0 <= i < j < |order| ==> order[i] != order[j]
  }

  predicate IsRuled(section: Section, id: Byte) {
    RuleOf(section, id).Some?
  }

  function KindOf(section: Section, id: Byte): Kind
    requires IsRuled(section, id)
  {
    RuleOf(section, id).value.kind
  }

  function RepeatOf(section: Section, id: Byte): Repeat
    requires IsRuled(section, id)
  {
    RuleOf(section, id).value.repeat
  }

  ghost predicate Printable(section: Section, order: seq<Byte>) {
    Distinct(order) && forall id :: id in order ==> IsRuled(section, id)
  }

  predicate AllTyped(kind: Kind, vs: seq<Value>) {
    forall i :: 0 <= i < |vs| ==> Typed(kind, vs[i])
  }

  predicate AllFit(kind: Kind, vs: seq<Value>) {
    forall i :: 0 <= i < |vs| ==> Fits(kind, vs[i])
  }

  /** What the Rust types guarantee: an Option holds at most one value, each value is of its type. */
  ghost predicate TypedFields(section: Section, f: Fields) {
    forall id :: id in f && IsRuled(section, id) ==>
      (RepeatOf(section, id) != Many ==> |f[id]| <= 1) && AllTyped(KindOf(section, id), f[id])
  }

  /** Fields that their wire format can carry; a field that is not a Vec holds one value. */
  ghost predicate FittingFields(section: Section, f: Fields) {
    forall id :: id in f ==>
      && IsRuled(section, id)
      && (RepeatOf(section, id) != Many ==> |f[id]| <= 1)
      && AllFit(KindOf(section, id), f[id])
  }

  // An empty Vec is printed like an absent one, and read back as absent.
  function Normal(f: Fields): (g: Fields)
  {
    map id | id in f && f[id] != [] :: f[id]
  }

  function PrintItem(kind: Kind, id: Byte, v: Value): (b: Bytes)
    requires Typed(kind, v)
    ensures |b| == 1 + |PrintValue(kind, v)| >= 2
  {
    [id] + PrintValue(kind, v)
  }

  function PrintVals(kind: Kind, id: Byte, vs: seq<Value>): Bytes
    requires AllTyped(kind, vs)
  {
    if vs == [] then [] else PrintItem(kind, id, vs[0]) + PrintVals(kind, id, vs[1..])
  }

  function PrintFields(section: Section, order: seq<Byte>, f: Fields): Bytes
    requires forall id :: id in order ==> IsRuled(section, id)
    requires TypedFields(section, f)
  {
    if order == [] then []
    else PrintVals(KindOf(section, order[0]), order[0], Get(f, order[0])) + PrintFields(section, order[1..], f)
  }

  // ---------------------------------------------------------------- the loops of the source

  lemma PrintValsOne(kind: Kind, id: Byte, v: Value)
    requires Typed(kind, v)
    ensures PrintVals(kind, id, [v]) == PrintItem(kind, id, v)
  {
    hide Typed, PrintItem;
    assert [v][1..] == [];
    assert PrintItem(kind, id, v) + [] == PrintItem(kind, id, v);
  }

  lemma PrintValsCons(kind: Kind, id: Byte, vs: seq<Value>)
    requires AllTyped(kind, vs) && vs != []
    ensures AllTyped(kind, vs[1..]) && Typed(kind, vs[0])
    ensures PrintVals(kind, id, vs) == PrintItem(kind, id, vs[0]) + PrintVals(kind, id, vs[1..])
  {
    hide Typed, PrintItem;
  }

  lemma AppendAssociates(a: Bytes, b: Bytes, c: Bytes)
    ensures (a + b) + c == a + (b + c)
  {
  }

  lemma AllTypedSnoc(kind: Kind, vs: seq<Value>, v: Value)
    requires AllTyped(kind, vs) && Typed(kind, v)
    ensures AllTyped(kind, vs + [v])
  {
    hide Typed;
  }

  lemma {:induction false} PrintValsSnoc(kind: Kind, id: Byte, vs: seq<Value>, v: Value)
    requires AllTyped(kind, vs) && Typed(kind, v)
    ensures AllTyped(kind, vs + [v])
    ensures PrintVals(kind, id, vs + [v]) == PrintVals(kind, id, vs) + PrintItem(kind, id, v)
    decreases |vs|
  {
    hide PrintItem, Typed, PrintVals;
    AllTypedSnoc(kind, vs, v);
    hide AllTyped;
    if vs == [] {
      assert vs + [v] == [v];
      PrintNothing(kind, id);
      PrintValsOne(kind, id, v);
      assert [] + PrintItem(kind, id, v) == PrintItem(kind, id, v);
    } else {
      PrintValsCons(kind, id, vs);
      PrintValsSnoc(kind, id, vs[1..], v);
      DropAppend(vs, [v], 1);
      PrintValsCons(kind, id, vs + [v]);
      AppendAssociates(PrintItem(kind, id, vs[0]), PrintVals(kind, id, vs[1..]), PrintItem(kind, id, v));
    }
  }

  lemma PrintFieldsOfNone(section: Section, f: Fields)
    requires TypedFields(section, f)
    ensures PrintFields(section, [], f) == []
  {
  }

  lemma PrintFieldsTurn(section: Section, order: seq<Byte>, i: nat, f: Fields)
    requires i < |order| && TypedFields(section, f) && forall id :: id in order ==> IsRuled(section, id)
    ensures AllTyped(KindOf(section, order[i]), Get(f, order[i]))
    ensures PrintFields(section, order[i..], f)
         == PrintVals(KindOf(section, order[i]), order[i], Get(f, order[i])) + PrintFields(section, order[i + 1..], f)
  {
    hide PrintVals, Typed, KindOf, RuleOf;
    assert order[i] in order && order[i..][1..] == order[i + 1..];
  }

  lemma PrintNothing(kind: Kind, id: Byte)
    ensures PrintVals(kind, id, []) == []
  {
  }

  // ---------------------------------------------------------------- reading back

  lemma StepPrintItem(section: Section, id: Byte, v: Value, t: Bytes, acc: Fields)
    requires IsRuled(section, id) && Fits(KindOf(section, id), v)
    requires RepeatOf(section, id) == Once ==> id !in acc
    requires !AuthOrderBroken(section, Put(acc, id, v, RepeatOf(section, id)))
    ensures var b := PrintItem(KindOf(section, id), id, v);
            Step(section, b + t, acc) == Ok(Put(acc, id, v, RepeatOf(section, id)), |b|)
  {
    hide RuleOf, ParseValue, PrintValue, Fits;
    var kind := KindOf(section, id);
    assert Typed(kind, v) by { FitsIsTyped(kind, v); }
    ValueRoundTrip(kind, v, t);
    var b := PrintItem(kind, id, v);
    assert (b + t)[0] == id;
    assert (b + t)[1..] == PrintValue(kind, v) + t;
  }

  lemma FitsIsTyped(kind: Kind, v: Value)
    requires Fits(kind, v)
    ensures Typed(kind, v)
  {
    hide Typed;
  }

  // The fields gathered once the values `vs` of one identifier have been read as well.
  function Gathered(acc: Fields, id: Byte, vs: seq<Value>, repeat: Repeat): Fields
    decreases |vs|
  {
    if vs == [] then acc else Gathered(Put(acc, id, vs[0], repeat), id, vs[1..], repeat)
  }

  lemma {:induction false} GatheredAt(acc: Fields, id: Byte, vs: seq<Value>, repeat: Repeat, k: Byte)
    requires repeat != Many ==> |vs| <= 1 && (vs != [] ==> id !in acc)
    ensures Get(Gathered(acc, id, vs, repeat), k) == if k == id then Get(acc, id) + vs else Get(acc, k)
    ensures k in Gathered(acc, id, vs, repeat) <==> k in acc || (k == id && vs != [])
    decreases |vs|
  {
    if vs == [] {
      assert Get(acc, id) + [] == Get(acc, id);
    } else {
      GatheredAt(Put(acc, id, vs[0], repeat), id, vs[1..], repeat, k);
      assert (Get(acc, id) + [vs[0]]) + vs[1..] == Get(acc, id) + vs;
      assert [] + [vs[0]] == [vs[0]];
    }
  }

  ghost predicate ReadableVals(section: Section, id: Byte, vs: seq<Value>, acc: Fields) {
    && IsRuled(section, id)
    && AllFit(KindOf(section, id), vs)
    && (RepeatOf(section, id) != Many ==> |vs| <= 1 && (vs != [] ==> id !in acc))
    && (vs != [] ==> !AuthOrderBroken(section, acc[id := vs]))
  }

  /** The loop reads the bytes `b`, whatever follows, and so gets from `acc` to `end`. */
  ghost predicate ReadsTo(section: Section, b: Bytes, t: Bytes, left: nat, acc: Fields, end: Fields) {
    Loop(section, b + t, |b| + left, acc) == Loop(section, t, left, end).From(|b|)
  }

  lemma ReadsNothing(section: Section, t: Bytes, left: nat, acc: Fields)
    ensures ReadsTo(section, [], t, left, acc, acc)
  {
    hide Loop;
    assert [] + t == t;
  }

  lemma ReadsBoth(
      section: Section, first: Bytes, second: Bytes, t: Bytes, left: nat, acc: Fields, mid: Fields, end: Fields)
    requires ReadsTo(section, first, second + t, |second| + left, acc, mid)
    requires ReadsTo(section, second, t, left, mid, end)
    ensures ReadsTo(section, first + second, t, left, acc, end)
  {
    hide Loop;
    AppendAssociates(first, second, t);
  }

  /** One printed item is one turn of the loop. */
  lemma ReadsItem(section: Section, id: Byte, v: Value, t: Bytes, left: nat, acc: Fields)
    requires IsRuled(section, id) && Fits(KindOf(section, id), v)
    requires RepeatOf(section, id) != Many ==> id !in acc
    requires !AuthOrderBroken(section, Put(acc, id, v, RepeatOf(section, id)))
    ensures Typed(KindOf(section, id), v)
    ensures var item := PrintItem(KindOf(section, id), id, v);
            ReadsTo(section, item, t, left, acc, Put(acc, id, v, RepeatOf(section, id)))
  {
    hide Step, Loop, RuleOf, Fits, PrintItem;
    FitsIsTyped(KindOf(section, id), v);
    var b := PrintItem(KindOf(section, id), id, v);
    StepPrintItem(section, id, v, t, acc);
    LoopTurn(section, b + t, |b| + left, acc);
    assert (b + t)[|b|..] == t;
  }

  lemma ReadableHead(section: Section, id: Byte, vs: seq<Value>, acc: Fields)
    requires ReadableVals(section, id, vs, acc) && vs != []
    ensures Fits(KindOf(section, id), vs[0])
    ensures RepeatOf(section, id) != Many ==> id !in acc
    ensures !AuthOrderBroken(section, Put(acc, id, vs[0], RepeatOf(section, id)))
  {
    hide RuleOf, Fits;
  }

  lemma ReadableTail(section: Section, id: Byte, vs: seq<Value>, acc: Fields)
    requires ReadableVals(section, id, vs, acc) && vs != []
    ensures ReadableVals(section, id, vs[1..], Put(acc, id, vs[0], RepeatOf(section, id)))
  {
    hide RuleOf, Fits;
  }

  lemma {:induction false} ReadsVals(section: Section, id: Byte, vs: seq<Value>, t: Bytes, left: nat, acc: Fields)
    requires ReadableVals(section, id, vs, acc)
    requires AllTyped(KindOf(section, id), vs)
    ensures ReadsTo(section, PrintVals(KindOf(section, id), id, vs), t, left, acc,
                    Gathered(acc, id, vs, RepeatOf(section, id)))
    decreases |vs|
  {
    assert IsRuled(section, id);
    hide ReadsTo, ReadableVals, PrintItem, Put, RuleOf, Fits, Typed, AllTyped;
    if vs == [] {
      ReadsNothing(section, t, left, acc);
    } else {
      ReadableHead(section, id, vs, acc);
      ReadableTail(section, id, vs, acc);
      PrintValsCons(KindOf(section, id), id, vs);
      var item, b := PrintItem(KindOf(section, id), id, vs[0]), PrintVals(KindOf(section, id), id, vs[1..]);
      var acc' := Put(acc, id, vs[0], RepeatOf(section, id));
      ReadsItem(section, id, vs[0], b + t, |b| + left, acc);
      ReadsVals(section, id, vs[1..], t, left, acc');
      ReadsBoth(section, item, b, t, left, acc, acc', Gathered(acc, id, vs, RepeatOf(section, id)));
    }
  }

  // The fields gathered once those that `order` names have been read as well.
  function GatheredAll(section: Section, acc: Fields, order: seq<Byte>, f: Fields): Fields
    requires forall id :: id in order ==> IsRuled(section, id)
    decreases |order|
  {
    if order == [] then acc
    else
      var id := order[0];
      GatheredAll(section, Gathered(acc, id, Get(f, id), RepeatOf(section, id)), order[1..], f)
  }

  lemma {:induction false} GatheredAllAt(section: Section, acc: Fields, order: seq<Byte>, f: Fields, k: Byte)
    requires ReadableFields(section, order, f, acc)
    ensures Get(GatheredAll(section, acc, order, f), k) == if k in order then Get(f, k) else Get(acc, k)
    ensures k in GatheredAll(section, acc, order, f) <==> k in acc || (k in order && Get(f, k) != [])
    decreases |order|
  {
    hide RuleOf, Gathered, Fits;
    if order != [] {
      var id, rest := order[0], order[1..];
      assert order == [id] + rest && id !in rest;
      FieldReadable(section, order, f, acc);
      GatheredAt(acc, id, Get(f, id), RepeatOf(section, id), k);
      GatheredAt(acc, id, Get(f, id), RepeatOf(section, id), id);
      assert [] + Get(f, id) == Get(f, id);
      GatheredAllAt(section, Gathered(acc, id, Get(f, id), RepeatOf(section, id)), rest, f, k);
    }
  }

  lemma GatheredAllIsNormal(section: Section, order: seq<Byte>, f: Fields)
    requires ReadableFields(section, order, f, map[]) && forall id :: id in f ==> id in order
    ensures GatheredAll(section, map[], order, f) == Normal(f)
  {
    hide GatheredAll, ReadableFields;
    assert Printable(section, order) by { ReadableIsPrintable(section, order, f); }
    var g := GatheredAll(section, map[], order, f);
    forall k: Byte ensures (k in g <==> k in Normal(f)) && (k in g ==> g[k] == Normal(f)[k]) {
      GatheredAllAt(section, map[], order, f, k);
    }
  }

  predicate MethodFirst(order: seq<Byte>) {
    forall j :: 0 <= j < |order| && order[j] == AUTHENTICATION_DATA ==> AUTHENTICATION_METHOD in order[..j]
  }

  /** Printed in this order, authentication data comes after its method (CONNECT only). */
  predicate AuthReadable(section: Section, order: seq<Byte>, f: Fields, acc: Fields) {
    && !AuthOrderBroken(section, acc)
    && (|| section != InConnect
        || AUTHENTICATION_METHOD in acc
        || Get(f, AUTHENTICATION_DATA) == []
        || (Get(f, AUTHENTICATION_METHOD) != [] && MethodFirst(order)))
  }

  lemma AuthReadableStep(section: Section, order: seq<Byte>, f: Fields, acc: Fields, acc': Fields)
    requires AuthReadable(section, order, f, acc) && order != []
    requires forall k :: k in acc' <==> k in acc || (k == order[0] && Get(f, order[0]) != [])
    ensures Get(f, order[0]) != [] ==> !AuthOrderBroken(section, acc[order[0] := Get(f, order[0])])
    ensures AuthReadable(section, order[1..], f, acc')
  {
    var id, rest := order[0], order[1..];
    if section == InConnect {
      if id == AUTHENTICATION_DATA {
        DataIsNotFirst(order);
      } else if id != AUTHENTICATION_METHOD && MethodFirst(order) {
        forall j | 0 <= j < |rest| && rest[j] == AUTHENTICATION_DATA ensures AUTHENTICATION_METHOD in rest[..j] {
          assert order[j + 1] == AUTHENTICATION_DATA && order[..j + 1] == [id] + rest[..j];
        }
      }
    }
  }

  lemma DataIsNotFirst(order: seq<Byte>)
    requires order != [] && order[0] == AUTHENTICATION_DATA
    ensures !MethodFirst(order)
  {
    assert AUTHENTICATION_METHOD !in order[..0];
  }

  ghost predicate ReadableFields(section: Section, order: seq<Byte>, f: Fields, acc: Fields) {
    && AuthReadable(section, order, f, acc)
    && Printable(section, order)
    && FittingFields(section, f)
    && TypedFields(section, f)
    && forall id :: id in order ==> id !in acc
  }

  lemma FieldReadable(section: Section, order: seq<Byte>, f: Fields, acc: Fields)
    requires ReadableFields(section, order, f, acc) && order != []
    ensures ReadableVals(section, order[0], Get(f, order[0]), acc)
    ensures AllTyped(KindOf(section, order[0]), Get(f, order[0]))
    ensures ReadableFields(section, order[1..], f,
                           Gathered(acc, order[0], Get(f, order[0]), RepeatOf(section, order[0])))
  {
    hide RuleOf, Fits, Typed, Gathered, AuthReadable, AuthOrderBroken;
    var id, rest := order[0], order[1..];
    assert id in order && id !in rest;
    assert forall x :: x in rest ==> x in order;
    var acc' := Gathered(acc, id, Get(f, id), RepeatOf(section, id));
    forall x ensures x in acc' <==> x in acc || (x == id && Get(f, id) != []) {
      GatheredAt(acc, id, Get(f, id), RepeatOf(section, id), x);
    }
    AuthReadableStep(section, order, f, acc, acc');
  }

  lemma {:induction false} ReadsFields(section: Section, order: seq<Byte>, f: Fields, t: Bytes, left: nat, acc: Fields)
    requires ReadableFields(section, order, f, acc)
    ensures ReadsTo(section, PrintFields(section, order, f), t, left, acc, GatheredAll(section, acc, order, f))
    decreases |order|
  {
    hide ReadsTo, ReadableVals, PrintVals, IsRuled, KindOf, Gathered;
    if order == [] {
      ReadsNothing(section, t, left, acc);
    } else {
      FieldReadable(section, order, f, acc);
      var id := order[0];
      var first, rest := PrintVals(KindOf(section, id), id, Get(f, id)), PrintFields(section, order[1..], f);
      var acc' := Gathered(acc, id, Get(f, id), RepeatOf(section, id));
      ReadsVals(section, id, Get(f, id), rest + t, |rest| + left, acc);
      ReadsFields(section, order[1..], f, t, left, acc');
      ReadsBoth(section, first, rest, t, left, acc, acc', GatheredAll(section, acc, order, f));
    }
  }

  /** Printed fields are read back whole, in normal form, whatever follows them. */
  lemma FieldsRoundTrip(section: Section, order: seq<Byte>, f: Fields, t: Bytes)
    requires ReadableFields(section, order, f, map[])
    requires forall id :: id in f ==> id in order
    requires |PrintFields(section, order, f)| < VAR_INT_LIMIT
    ensures var b := PrintFields(section, order, f);
            var head := EncodeVarInt(|b|);
            ParseSection(section, head + b + t) == Ok(Normal(f), |head| + |b|)
  {
    hide Loop, VarInt, EncodeVarInt, ReadableFields, GatheredAll, Normal;
    assert TypedFields(section, f) && Printable(section, order) by { ReadableIsPrintable(section, order, f); }
    var b := PrintFields(section, order, f);
    var head := EncodeVarInt(|b|);
    assert head + b + t == head + (b + t);
    VarIntRoundTrip(|b|, b + t);
    assert (head + (b + t))[|head|..] == b + t;
    ReadsFields(section, order, f, t, 0, map[]);
    LoopTurn(section, t, 0, GatheredAll(section, map[], order, f));
    GatheredAllIsNormal(section, order, f);
  }

  lemma ReadableIsPrintable(section: Section, order: seq<Byte>, f: Fields)
    requires ReadableFields(section, order, f, map[])
    ensures TypedFields(section, f) && Printable(section, order)
  {
    hide RuleOf, Typed, Fits;
  }

  // ---------------------------------------------------------------- room

  lemma {:induction false} PrintFieldsLocal(section: Section, order: seq<Byte>, f: Fields, g: Fields)
    requires Printable(section, order) && TypedFields(section, f) && TypedFields(section, g)
    requires forall id :: id in order ==> Get(f, id) == Get(g, id)
    ensures PrintFields(section, order, f) == PrintFields(section, order, g)
    decreases |order|
  {
    hide PrintVals, Typed, IsRuled, KindOf;
    if order != [] {
      assert order[0] in order;
      assert forall id :: id in order[1..] ==> id in order;
      PrintFieldsLocal(section, order[1..], f, g);
    }
  }

  lemma AllFitIsTyped(kind: Kind, vs: seq<Value>)
    requires AllFit(kind, vs)
    ensures AllTyped(kind, vs)
  {
    hide Fits, Typed;
    forall i | 0 <= i < |vs| ensures Typed(kind, vs[i]) {
      FitsIsTyped(kind, vs[i]);
    }
  }

  lemma FittingIsTyped(section: Section, f: Fields)
    requires FittingFields(section, f)
    ensures TypedFields(section, f)
  {
    hide RuleOf, AllFit, AllTyped;
    forall id | id in f ensures AllTyped(KindOf(section, id), f[id]) {
      AllFitIsTyped(KindOf(section, id), f[id]);
    }
  }

  lemma PutFits(section: Section, f: Fields, id: Byte, v: Value)
    requires FittingFields(section, f) && IsRuled(section, id) && Fits(KindOf(section, id), v)
    requires RepeatOf(section, id) == Once ==> id !in f
    ensures FittingFields(section, Put(f, id, v, RepeatOf(section, id)))
  {
    hide RuleOf, Fits;
  }

  lemma PutValsRoom(kind: Kind, id: Byte, vs: seq<Value>, v: Value, repeat: Repeat)
    requires Typed(kind, v) && AllTyped(kind, vs)
    ensures var after := if repeat == Many then vs + [v] else [v];
            && AllTyped(kind, after)
            && |PrintVals(kind, id, after)| <= |PrintVals(kind, id, vs)| + |PrintItem(kind, id, v)|
  {
    hide Typed, PrintItem;
    if repeat == Many {
      PrintValsSnoc(kind, id, vs, v);
    } else {
      PrintValsOne(kind, id, v);
    }
  }

  lemma {:induction false} PutRoom(section: Section, order: seq<Byte>, f: Fields, id: Byte, v: Value)
    requires Printable(section, order) && IsRuled(section, id) && Typed(KindOf(section, id), v)
    requires TypedFields(section, f) && TypedFields(section, Put(f, id, v, RepeatOf(section, id)))
    ensures |PrintFields(section, order, Put(f, id, v, RepeatOf(section, id)))|
         <= |PrintFields(section, order, f)| + |PrintItem(KindOf(section, id), id, v)|
    decreases |order|
  {
    hide Typed, PrintItem, PrintVals, IsRuled, KindOf, RepeatOf;
    if order != [] {
      var g := Put(f, id, v, RepeatOf(section, id));
      assert order[0] in order;
      assert forall x :: x in order[1..] ==> x in order;
      if order[0] == id {
        assert id !in order[1..];
        PrintFieldsLocal(section, order[1..], f, g);
        assert [] + [v] == [v];
        PutValsRoom(KindOf(section, id), id, Get(f, id), v, RepeatOf(section, id));
      } else {
        assert Get(g, order[0]) == Get(f, order[0]);
        PutRoom(section, order[1..], f, id, v);
      }
    }
  }

  /** One turn keeps the fields printable, and the room they need grows by no more than it read. */
  lemma StepRoom(section: Section, order: seq<Byte>, s: Bytes, acc: Fields)
    requires Printable(section, order) && FittingFields(section, acc) && TypedFields(section, acc)
    requires Step(section, s, acc).Ok?
    ensures var step := Step(section, s, acc);
            && FittingFields(section, step.value) && TypedFields(section, step.value)
            && |PrintFields(section, order, step.value)| <= |PrintFields(section, order, acc)| + step.used
  {
    hide RuleOf, ParseValue, PrintFields, Fits, Typed, FittingFields, TypedFields, Put;
    var rule := RuleOf(section, s[0]).value;
    var v := ParseValue(rule.kind, s[1..]).value;
    ParsedValueFits(rule.kind, s[1..]);
    FitsIsTyped(rule.kind, v);
    PutFits(section, acc, s[0], v);
    FittingIsTyped(section, Put(acc, s[0], v, rule.repeat));
    PutRoom(section, order, acc, s[0], v);
  }

  ghost predicate NoEmptyField(f: Fields) {
    forall id :: id in f ==> f[id] != []
  }

  lemma StepNotEmpty(section: Section, s: Bytes, acc: Fields)
    requires NoEmptyField(acc) && Step(section, s, acc).Ok?
    ensures NoEmptyField(Step(section, s, acc).value)
  {
    hide RuleOf, ParseValue;
  }

  /** What a section was read as can be printed again, in no more room, and is in normal form. */
  lemma {:induction false} LoopRoom(section: Section, order: seq<Byte>, s: Bytes, left: int, acc: Fields)
    requires Printable(section, order) && FittingFields(section, acc) && TypedFields(section, acc)
    requires NoEmptyField(acc) && Loop(section, s, left, acc).Ok?
    ensures var f := Loop(section, s, left, acc).value;
            && FittingFields(section, f) && TypedFields(section, f) && NoEmptyField(f)
            && |PrintFields(section, order, f)| <= |PrintFields(section, order, acc)| + left
    decreases |s|
  {
    hide Step, Loop, PrintFields, FittingFields, TypedFields, Printable, NoEmptyField;
    LoopTurn(section, s, left, acc);
    if left > 0 {
      var step := Step(section, s, acc);
      StepRoom(section, order, s, acc);
      StepNotEmpty(section, s, acc);
      LoopRoom(section, order, s[step.used..], left - step.used, step.value);
    }
  }

  lemma {:induction false} PrintEmpty(section: Section, order: seq<Byte>)
    requires Printable(section, order)
    ensures TypedFields(section, map[]) && PrintFields(section, order, map[]) == []
    decreases |order|
  {
    hide IsRuled, KindOf;
    if order != [] {
      assert forall x :: x in order[1..] ==> x in order;
      PrintEmpty(section, order[1..]);
    }
  }

  /** Printing a section again, length included, takes no more room than it was read from. */
  lemma SectionRoom(section: Section, order: seq<Byte>, s: Bytes)
    requires Printable(section, order) && ParseSection(section, s).Ok?
    ensures var f := ParseSection(section, s).value;
            && FittingFields(section, f) && TypedFields(section, f) && Normal(f) == f
            && var b := PrintFields(section, order, f);
               |b| < VAR_INT_LIMIT && |EncodeVarInt(|b|)| + |b| <= ParseSection(section, s).used
  {
    hide Loop, VarInt, PrintFields, IsRuled;
    var length := VarInt(s);
    assert FittingFields(section, map[]) && TypedFields(section, map[]) && NoEmptyField(map[]);
    PrintEmpty(section, order);
    LoopRoom(section, order, s[length.used..], length.value, map[]);
    VarIntShortest(s);
    var f := ParseSection(section, s).value;
    EncodeVarIntMonotone(|PrintFields(section, order, f)|, length.value, 4);
    assert Normal(f) == f;
  }

  lemma OrdersArePrintable()
    ensures Printable(InPublish, PUBLISH_ORDER)
    ensures Printable(InPubrel, REASON_ORDER)
    ensures forall id: Byte :: IsRuled(InPublish, id) ==> id in PUBLISH_ORDER
    ensures forall id: Byte :: IsRuled(InPubrel, id) ==> id in REASON_ORDER
  {
  }
}
