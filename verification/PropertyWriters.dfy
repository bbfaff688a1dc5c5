// Property sections as the encoders write them, identifier by identifier, each in its own
// format. They are proved to write what the table of rules prescribes.
module PropertyWriters {
  import opened Wire
  import opened Properties
  import opened PropertyPrinting

  function First(f: Fields, id: Byte): Option<Value> {
    if Get(f, id) == [] then None else Some(Get(f, id)[0])
  }

  function ByteField(f: Fields, id: Byte): Bytes {
    match First(f, id)
    case Some(Num(n)) => [id, n % 0x100]
    case _ => []
  }

  function TwoByteField(f: Fields, id: Byte): Bytes {
    match First(f, id)
    case Some(Num(n)) => [id] + U16Bytes(n)
    case _ => []
  }

  function FourByteField(f: Fields, id: Byte): Bytes {
    match First(f, id)
    case Some(Num(n)) => [id] + U32Bytes(n % 0x1_0000_0000)
    case _ => []
  }

  function StringField(f: Fields, id: Byte): Bytes {
    match First(f, id)
    case Some(Str(b)) => [id] + Prefixed(b)
    case _ => []
  }

  function UserProperty(v: Value): Bytes {
    match v
    case Pair(key, value) => [0x26] + Prefixed(key) + Prefixed(value)
    case _ => []
  }

  function UserProperties(vs: seq<Value>): Bytes {
    if vs == [] then [] else UserProperties(vs[..|vs| - 1]) + UserProperty(vs[|vs| - 1])
  }

  lemma UserPropertiesOfNone()
    ensures UserProperties([]) == []
  {
  }

  lemma UserPropertiesTurn(vs: seq<Value>, i: nat)
    requires i < |vs|
    ensures UserProperties(vs[..i + 1]) == UserProperties(vs[..i]) + UserProperty(vs[i])
  {
    assert vs[..i + 1][..i] == vs[..i];
  }

  function SubscriptionIdentifier(v: Value): Bytes {
    match v
    case Num(n) => [0x0B] + EncodeVarInt(n)
    case _ => []
  }

  function SubscriptionIdentifiers(vs: seq<Value>): Bytes {
    if vs == [] then [] else SubscriptionIdentifiers(vs[..|vs| - 1]) + SubscriptionIdentifier(vs[|vs| - 1])
  }

  /** The properties of PUBLISH, in the order in which they are written. */
  function PublishPiece(f: Fields, i: nat): Bytes {
    if i == 0 then ByteField(f, 0x01)
    else if i == 1 then FourByteField(f, 0x02)
    else if i == 2 then TwoByteField(f, 0x23)
    else if i == 3 then StringField(f, 0x08)
    else if i == 4 then StringField(f, 0x09)
    else if i == 5 then UserProperties(Get(f, 0x26))
    else if i == 6 then SubscriptionIdentifiers(Get(f, 0x0B))
    else if i == 7 then StringField(f, 0x03)
    else []
  }

  // ---------------------------------------------------------------- what the table prescribes

  lemma SingleField(section: Section, f: Fields, id: Byte)
    requires TypedFields(section, f) && IsRuled(section, id) && RepeatOf(section, id) != Many
    ensures AllTyped(KindOf(section, id), Get(f, id))
    ensures First(f, id).Some? ==> Typed(KindOf(section, id), First(f, id).value)
    ensures PrintVals(KindOf(section, id), id, Get(f, id))
         == if First(f, id).Some? then PrintItem(KindOf(section, id), id, First(f, id).value) else []
  {
    hide RuleOf, Typed, PrintItem;
    if First(f, id).Some? {
      assert id in f && |f[id]| == 1 && f[id] == [f[id][0]];
      PrintValsOne(KindOf(section, id), id, f[id][0]);
    } else {
      PrintNothing(KindOf(section, id), id);
    }
  }

  lemma ItemFormats(id: Byte, kind: Kind, v: Value)
    requires Typed(kind, v)
    ensures kind == Flag ==> v.Num? && PrintItem(kind, id, v) == [id, v.n % 0x100]
    ensures kind == TwoBytesNonZero ==> v.Num? && PrintItem(kind, id, v) == [id] + U16Bytes(v.n)
    ensures kind == FourBytes ==> v.Num? && v.n < 0x1_0000_0000 && PrintItem(kind, id, v) == [id] + U32Bytes(v.n)
    ensures kind == Text || kind == Blob ==> v.Str? && PrintItem(kind, id, v) == [id] + Prefixed(v.b)
    ensures kind == TextPair ==> v.Pair? && PrintItem(kind, id, v) == [id] + Prefixed(v.key) + Prefixed(v.value)
    ensures kind == VarNumber ==> v.Num? && PrintItem(kind, id, v) == [id] + EncodeVarInt(v.n)
  {
    hide U16Bytes, U32Bytes, Prefixed, EncodeVarInt, ValidUtf8;
    if kind == TextPair {
      assert [id] + (Prefixed(v.key) + Prefixed(v.value)) == [id] + Prefixed(v.key) + Prefixed(v.value);
    }
  }

  lemma FieldFormats(section: Section, f: Fields, id: Byte)
    requires TypedFields(section, f) && IsRuled(section, id) && RepeatOf(section, id) != Many
    ensures AllTyped(KindOf(section, id), Get(f, id))
    ensures var printed := PrintVals(KindOf(section, id), id, Get(f, id));
            match KindOf(section, id)
            case Flag => printed == ByteField(f, id)
            case TwoBytesNonZero => printed == TwoByteField(f, id)
            case FourBytes => printed == FourByteField(f, id)
            case Text => printed == StringField(f, id)
            case Blob => printed == StringField(f, id)
            case _ => true
  {
    hide RuleOf, TypedFields, AllTyped, Typed, PrintVals, PrintItem, U16Bytes, U32Bytes, Prefixed, Get;
    SingleField(section, f, id);
    if First(f, id).Some? {
      ItemFormats(id, KindOf(section, id), First(f, id).value);
    }
  }

  lemma {:induction false} UserPropertiesPrinted(vs: seq<Value>)
    requires AllTyped(TextPair, vs)
    ensures UserProperties(vs) == PrintVals(TextPair, 0x26, vs)
    decreases |vs|
  {
    hide Typed, PrintItem, PrintVals, UserProperty;
    if vs == [] {
      PrintNothing(TextPair, 0x26);
    } else {
      var n := |vs| - 1;
      assert vs == vs[..n] + [vs[n]];
      UserPropertiesPrinted(vs[..n]);
      PrintValsSnoc(TextPair, 0x26, vs[..n], vs[n]);
      UserPropertyPrinted(vs[n]);
    }
  }

  lemma UserPropertyPrinted(v: Value)
    requires Typed(TextPair, v)
    ensures UserProperty(v) == PrintItem(TextPair, 0x26, v)
  {
    ItemFormats(0x26, TextPair, v);
    hide PrintItem, Prefixed, Typed;
  }

  lemma {:induction false} SubscriptionIdentifiersPrinted(vs: seq<Value>)
    requires AllTyped(VarNumber, vs)
    ensures SubscriptionIdentifiers(vs) == PrintVals(VarNumber, 0x0B, vs)
    decreases |vs|
  {
    hide Typed, PrintItem, PrintVals, SubscriptionIdentifier;
    if vs == [] {
      PrintNothing(VarNumber, 0x0B);
    } else {
      var n := |vs| - 1;
      assert vs == vs[..n] + [vs[n]];
      SubscriptionIdentifiersPrinted(vs[..n]);
      PrintValsSnoc(VarNumber, 0x0B, vs[..n], vs[n]);
      SubscriptionIdentifierPrinted(vs[n]);
    }
  }

  lemma SubscriptionIdentifierPrinted(v: Value)
    requires Typed(VarNumber, v)
    ensures SubscriptionIdentifier(v) == PrintItem(VarNumber, 0x0B, v)
  {
    ItemFormats(0x0B, VarNumber, v);
    hide PrintItem, EncodeVarInt, Typed;
  }

  lemma PublishRules()
    ensures RuleOf(InPublish, 0x01) == Some(Rule(Flag, LastWins))
    ensures RuleOf(InPublish, 0x02) == Some(Rule(FourBytes, LastWins))
    ensures RuleOf(InPublish, 0x23) == Some(Rule(TwoBytesNonZero, Once))
    ensures RuleOf(InPublish, 0x08) == Some(Rule(Text, Once))
    ensures RuleOf(InPublish, 0x09) == Some(Rule(Blob, Once)) && RuleOf(InPublish, 0x26) == Some(Rule(TextPair, Many))
    ensures RuleOf(InPublish, 0x0B) == Some(Rule(VarNumber, Many)) && RuleOf(InPublish, 0x03) == Some(Rule(Text, Once))
  {
  }

  lemma ManyTyped(section: Section, f: Fields, id: Byte)
    requires TypedFields(section, f) && IsRuled(section, id)
    ensures AllTyped(KindOf(section, id), Get(f, id))
  {
    hide RuleOf, Typed;
  }

  /** Section 3.3.2.3 of MQTT 5.0: the table prescribes exactly the formats spelled out above. */
  lemma PublishPiecePrinted(f: Fields, i: nat)
    requires TypedFields(InPublish, f) && i < |PUBLISH_ORDER|
    ensures var id := PUBLISH_ORDER[i];
            && IsRuled(InPublish, id) && AllTyped(KindOf(InPublish, id), Get(f, id))
            && PublishPiece(f, i) == PrintVals(KindOf(InPublish, id), id, Get(f, id))
  {
    hide PrintVals, TypedFields, AllTyped, RuleOf, UserProperties, SubscriptionIdentifiers, ByteField, TwoByteField,
      FourByteField, StringField, Get;
    PublishRules();
    var id := PUBLISH_ORDER[i];
    if i == 5 {
      ManyTyped(InPublish, f, id);
      UserPropertiesPrinted(Get(f, 0x26));
    } else if i == 6 {
      ManyTyped(InPublish, f, id);
      SubscriptionIdentifiersPrinted(Get(f, 0x0B));
    } else {
      FieldFormats(InPublish, f, id);
    }
  }

  // ---------------------------------------------------------------- the writers

  // What the table prescribes from the `i`th property on.
  function FieldsFrom(f: Fields, i: nat): Bytes
    requires TypedFields(InPublish, f) && i <= 8
  {
    OrdersArePrintable();
    PrintFields(InPublish, PUBLISH_ORDER[i..], f)
  }

  lemma FieldsFromTurn(f: Fields, i: nat)
    requires TypedFields(InPublish, f) && i < 8
    ensures FieldsFrom(f, i) == PublishPiece(f, i) + FieldsFrom(f, i + 1)
  {
    hide PrintFields, PrintVals, PublishPiece, TypedFields;
    OrdersArePrintable();
    PublishPiecePrinted(f, i);
    PrintFieldsTurn(InPublish, PUBLISH_ORDER, i, f);
  }

  ghost predicate WrittenUpTo(f: Fields, i: nat, buf: Bytes)
    requires TypedFields(InPublish, f) && i <= 8
  {
    FieldsFrom(f, 0) == buf + FieldsFrom(f, i)
  }

  lemma WriteOne(f: Fields, i: nat, buf: Bytes)
    requires TypedFields(InPublish, f) && i < 8 && WrittenUpTo(f, i, buf)
    ensures WrittenUpTo(f, i + 1, buf + PublishPiece(f, i))
  {
    FieldsFromTurn(f, i);
    hide FieldsFrom, PublishPiece, TypedFields;
    AppendAssociates(buf, PublishPiece(f, i), FieldsFrom(f, i + 1));
  }

  lemma WriteStart(f: Fields)
    requires TypedFields(InPublish, f)
    ensures WrittenUpTo(f, 0, [])
  {
    hide FieldsFrom, TypedFields;
    assert [] + FieldsFrom(f, 0) == FieldsFrom(f, 0);
  }

  lemma WriteEnd(f: Fields, buf: Bytes)
    requires TypedFields(InPublish, f) && WrittenUpTo(f, 8, buf)
    ensures Printable(InPublish, PUBLISH_ORDER) && buf == PrintFields(InPublish, PUBLISH_ORDER, f)
  {
    OrdersArePrintable();
    PrintFieldsOfNone(InPublish, f);
    assert PUBLISH_ORDER[8..] == [] && PUBLISH_ORDER[0..] == PUBLISH_ORDER && buf + [] == buf;
    hide PrintFields;
  }

  method WriteUserProperties(f: Fields) returns (buf: Bytes)
    ensures buf == UserProperties(Get(f, 0x26))
  {
    hide UserProperties, Prefixed;
    buf := [];
    UserPropertiesOfNone();
    if 0x26 in f {
      var vs := f[0x26];
      for i := 0 to |vs|
        invariant buf == UserProperties(vs[..i])
      {
        UserPropertiesTurn(vs, i);
        ghost var before := buf;
        match vs[i] {
          case Pair(key, value) =>
            buf := buf + [0x26];
            buf := buf + Prefixed(key);
            buf := buf + Prefixed(value);
            assert buf == before + ([0x26] + Prefixed(key) + Prefixed(value));
          case _ =>
        }
      }
      assert vs[..|vs|] == vs;
    }
  }

  method WriteSubscriptionIdentifiers(f: Fields) returns (buf: Bytes)
    ensures buf == SubscriptionIdentifiers(Get(f, 0x0B))
  {
    hide SubscriptionIdentifiers, EncodeVarInt;
    buf := [];
    SubscriptionIdentifiersTurns([], 0);
    if 0x0B in f {
      var vs := f[0x0B];
      for i := 0 to |vs|
        invariant buf == SubscriptionIdentifiers(vs[..i])
      {
        SubscriptionIdentifiersTurns(vs, i);
        ghost var before := buf;
        match vs[i] {
          case Num(n) =>
            buf := buf + [0x0B];
            var length := EncodeVariableBytes(n);
            buf := buf + length;
            assert buf == before + ([0x0B] + length);
          case _ =>
        }
      }
      assert vs[..|vs|] == vs;
    }
  }

  lemma SubscriptionIdentifiersTurns(vs: seq<Value>, i: nat)
    ensures SubscriptionIdentifiers([]) == []
    ensures i < |vs| ==>
              SubscriptionIdentifiers(vs[..i + 1]) == SubscriptionIdentifiers(vs[..i]) + SubscriptionIdentifier(vs[i])
  {
    if i < |vs| {
      assert vs[..i + 1][..i] == vs[..i];
    }
  }

  /** `build_bytes` of PUBLISH: field after field, two of them in loops. */
  method WritePublishProperties(f: Fields) returns (buf: Bytes)
    requires TypedFields(InPublish, f)
    ensures Printable(InPublish, PUBLISH_ORDER)
    ensures buf == PrintFields(InPublish, PUBLISH_ORDER, f)
  {
    hide TypedFields, WrittenUpTo, PrintFields, ByteField, FourByteField, TwoByteField, StringField, UserProperties,
      SubscriptionIdentifiers, Printable;
    buf := [];
    WriteStart(f);
    WriteOne(f, 0, buf);
    buf := buf + ByteField(f, 0x01);
    WriteOne(f, 1, buf);
    buf := buf + FourByteField(f, 0x02);
    WriteOne(f, 2, buf);
    buf := buf + TwoByteField(f, 0x23);
    WriteOne(f, 3, buf);
    buf := buf + StringField(f, 0x08);
    WriteOne(f, 4, buf);
    buf := buf + StringField(f, 0x09);
    WriteOne(f, 5, buf);
    var users := WriteUserProperties(f);
    buf := buf + users;
    WriteOne(f, 6, buf);
    var ids := WriteSubscriptionIdentifiers(f);
    buf := buf + ids;
    WriteOne(f, 7, buf);
    buf := buf + StringField(f, 0x03);
    WriteEnd(f, buf);
  }

  /** Section 3.4.2.2 of MQTT 5.0 and its likes: a reason string and user properties. */
  lemma ReasonBytesPrinted(f: Fields)
    requires TypedFields(InPubrel, f)
    ensures Printable(InPubrel, REASON_ORDER)
    ensures PrintFields(InPubrel, REASON_ORDER, f) == StringField(f, 0x1F) + UserProperties(Get(f, 0x26))
  {
    hide PrintVals, TypedFields, AllTyped, RuleOf, UserProperties, StringField, PrintFields, Get;
    OrdersArePrintable();
    ReasonRules();
    FieldFormats(InPubrel, f, 0x1F);
    ManyTyped(InPubrel, f, 0x26);
    UserPropertiesPrinted(Get(f, 0x26));
    PrintFieldsTurn(InPubrel, REASON_ORDER, 0, f);
    PrintFieldsTurn(InPubrel, REASON_ORDER, 1, f);
    PrintFieldsOfNone(InPubrel, f);
    assert REASON_ORDER[0..] == REASON_ORDER && REASON_ORDER[2..] == [];
    assert UserProperties(Get(f, 0x26)) + [] == UserProperties(Get(f, 0x26));
  }

  lemma ReasonRules()
    ensures RuleOf(InPubrel, 0x1F) == Some(Rule(Text, LastWins)) && RuleOf(InPubrel, 0x26) == Some(Rule(TextPair, Many))
  {
  }
}
