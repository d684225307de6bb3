/** `decode_struct`: the field-by-field conversion of a filled-in ctypes structure
    into a named tuple, and its two uses, `plugin_info_t` and `param_info_t`. */
module Structs {
  import opened Wrappers
  import opened Abi
  import opened Failures

  /** The two ctypes field types the ABI structures use. */
  datatype FieldType = CharPtr | CInt
  datatype Field = Field(name: string, ty: FieldType)

  /** The value read from a field: a `c_char_p` (null or text) or a `c_int`. */
  datatype RawValue = Ptr(text: Option<string>) | Int(value: Int32)

  /** The enum classes `enum_remap` may name, and their members. */
  datatype EnumClass = PluginTypeEnum | ColourModelEnum | ParamEnum
  datatype EnumValue =
    | PluginTypeValue(pluginType: PluginType)
    | ColourModelValue(colourModel: ColourModel)
    | ParamKindValue(kind: ParamKind)

  /** One element of the decoded tuple. */
  datatype Decoded = NoneValue | Text(s: string) | Integer(i: int) | Member(e: EnumValue)

  function Remap(cls: EnumClass, code: int): (r: Option<EnumValue>)
    ensures cls == PluginTypeEnum ==> r == (if 0 <= code < 4 then Some(PluginTypeValue(PluginTypeOf(code).value)) else None)
    ensures cls == ColourModelEnum ==> r == (if 0 <= code < 3 then Some(ColourModelValue(ColourModelOf(code).value)) else None)
    ensures cls == ParamEnum ==> r == (if 0 <= code < 5 then Some(ParamKindValue(ParamKindOf(code).value)) else None)
  {
    match cls
    case PluginTypeEnum =>
      (match PluginTypeOf(code) case Some(t) => Some(PluginTypeValue(t)) case None => None)
    case ColourModelEnum =>
      (match ColourModelOf(code) case Some(m) => Some(ColourModelValue(m)) case None => None)
    case ParamEnum =>
      (match ParamKindOf(code) case Some(k) => Some(ParamKindValue(k)) case None => None)
  }

  /** What ctypes guarantees: a pointer field reads as a pointer, an int field as an int. */
  predicate WellTyped(fields: seq<Field>, raw: seq<RawValue>)
  {
    |raw| == |fields| && forall i :: 0 <= i < |fields| ==> ((fields[i].ty == CharPtr) <==> raw[i].Ptr?)
  }

  /** One loop iteration of `decode_struct`. */
  function DecodeField(f: Field, v: RawValue, remap: map<string, EnumClass>): Result<Decoded, Error>
    requires (f.ty == CharPtr) <==> v.Ptr?
  {
    if f.ty == CharPtr then
      if f.name == "name" || v.text.Some? then
        (match v.text case Some(s) => Success(Text(s)) case None => Failure(NullName))
      else Success(NoneValue)
    else if f.name in remap then
      (match Remap(remap[f.name], v.value)
       case Some(e) => Success(Member(e))
       case None => Failure(BadEnumCode(f.name, v.value)))
    else Success(Integer(v.value))
  }

  /** The meaning of one decoded field, stated without `DecodeField`'s case order. */
  predicate FieldMeaning(f: Field, v: RawValue, remap: map<string, EnumClass>, d: Decoded)
    requires (f.ty == CharPtr) <==> v.Ptr?
  {
    if v.Ptr? then
      (d == NoneValue <==> (v.text.None? && f.name != "name"))
      && (v.text.Some? ==> d == Text(v.text.value))
    else if f.name in remap then
      d.Member? && Remap(remap[f.name], v.value) == Some(d.e)
    else d == Integer(v.value)
  }

  /** Decoding a field fails exactly for a null `name` pointer or an out-of-range
      enum code, and otherwise yields a value with `FieldMeaning`. */
  lemma DecodeFieldSpec(f: Field, v: RawValue, remap: map<string, EnumClass>)
    requires (f.ty == CharPtr) <==> v.Ptr?
    ensures DecodeField(f, v, remap).Failure? <==>
              (v.Ptr? && v.text.None? && f.name == "name")
              || (v.Int? && f.name in remap && Remap(remap[f.name], v.value).None?)
    ensures DecodeField(f, v, remap).Success? ==> FieldMeaning(f, v, remap, DecodeField(f, v, remap).value)
  {
  }

  /** Every field decodes. */
  predicate AllDecode(fields: seq<Field>, raw: seq<RawValue>, remap: map<string, EnumClass>)
    requires WellTyped(fields, raw)
  {
    forall i :: 0 <= i < |fields| ==> DecodeField(fields[i], raw[i], remap).Success?
  }

  /** Field `i` is the first that does not decode, and fails with `e`. */
  predicate FirstFailureAt(fields: seq<Field>, raw: seq<RawValue>, remap: map<string, EnumClass>, i: int, e: Error)
    requires WellTyped(fields, raw)
  {
    && 0 <= i < |fields|
    && (forall j :: 0 <= j < i ==> DecodeField(fields[j], raw[j], remap).Success?)
    && DecodeField(fields[i], raw[i], remap) == Failure(e)
  }

  lemma WellTypedTail(fields: seq<Field>, raw: seq<RawValue>)
    requires WellTyped(fields, raw) && |fields| > 0
    ensures WellTyped(fields[1..], raw[1..])
  {
    forall i | 0 <= i < |fields[1..]|
      ensures (fields[1..][i].ty == CharPtr) <==> raw[1..][i].Ptr?
    {
      assert fields[1..][i] == fields[i + 1];
    }
  }

  lemma FailureShifts(fields: seq<Field>, raw: seq<RawValue>, remap: map<string, EnumClass>, e: Error)
    requires WellTyped(fields, raw) && |fields| > 0
    requires DecodeField(fields[0], raw[0], remap).Success?
    requires WellTyped(fields[1..], raw[1..])
    requires exists i :: FirstFailureAt(fields[1..], raw[1..], remap, i, e)
    ensures exists i :: FirstFailureAt(fields, raw, remap, i, e)
  {
    var i :| FirstFailureAt(fields[1..], raw[1..], remap, i, e);
    forall j | 0 <= j < i + 1
      ensures DecodeField(fields[j], raw[j], remap).Success?
    {
      if j > 0 {
        assert fields[j] == fields[1..][j - 1] && raw[j] == raw[1..][j - 1];
      }
    }
    assert fields[i + 1] == fields[1..][i] && raw[i + 1] == raw[1..][i];
    assert FirstFailureAt(fields, raw, remap, i + 1, e);
  }

  lemma SuccessShifts(fields: seq<Field>, raw: seq<RawValue>, remap: map<string, EnumClass>,
                      d: Decoded, tail: seq<Decoded>)
    requires WellTyped(fields, raw) && |fields| > 0
    requires DecodeField(fields[0], raw[0], remap) == Success(d)
    requires FieldMeaning(fields[0], raw[0], remap, d)
    requires WellTyped(fields[1..], raw[1..])
    requires AllDecode(fields[1..], raw[1..], remap)
    requires |tail| >= |fields| - 1
    requires forall i :: 0 <= i < |fields| - 1 ==> FieldMeaning(fields[1..][i], raw[1..][i], remap, tail[i])
    ensures AllDecode(fields, raw, remap)
    ensures forall i :: 0 <= i < |fields| ==> FieldMeaning(fields[i], raw[i], remap, ([d] + tail)[i])
  {
    forall i | 0 <= i < |fields|
      ensures DecodeField(fields[i], raw[i], remap).Success?
      ensures FieldMeaning(fields[i], raw[i], remap, ([d] + tail)[i])
    {
      if i > 0 {
        assert fields[i] == fields[1..][i - 1] && raw[i] == raw[1..][i - 1] && ([d] + tail)[i] == tail[i - 1];
      }
    }
  }

  /** `decode_struct(structval, structtype, tupletype, enum_remap, extra)`: every field
      in `_fields_` order, then `extra`. The first field that cannot be decoded ends the
      decoding with that field's error, as the raised exception does. */
  function DecodeStruct(fields: seq<Field>, raw: seq<RawValue>, remap: map<string, EnumClass>,
                        extra: seq<Decoded>): (r: Result<seq<Decoded>, Error>)
    requires WellTyped(fields, raw)
    decreases |fields|
    ensures r.Success? <==> AllDecode(fields, raw, remap)
    ensures r.Success? ==> |r.value| == |fields| + |extra| && r.value[|fields|..] == extra
    ensures r.Success? ==> forall i :: 0 <= i < |fields| ==> FieldMeaning(fields[i], raw[i], remap, r.value[i])
    ensures r.Failure? ==> exists i :: FirstFailureAt(fields, raw, remap, i, r.error)
  {
    if |fields| == 0 then Success(extra)
    else
      DecodeFieldSpec(fields[0], raw[0], remap);
      match DecodeField(fields[0], raw[0], remap)
      case Failure(e) =>
        assert FirstFailureAt(fields, raw, remap, 0, e);
        Failure(e)
      case Success(d) =>
        WellTypedTail(fields, raw);
        match DecodeStruct(fields[1..], raw[1..], remap, extra)
        case Failure(e) =>
          FailureShifts(fields, raw, remap, e);
          Failure(e)
        case Success(tail) =>
          SuccessShifts(fields, raw, remap, d, tail);
          assert ([d] + tail)[|fields|..] == tail[|fields[1..]|..];
          Success([d] + tail)
  }

  /** Decoding stops with the error of field `k` when every field before it decodes
      and field `k` does not. */
  lemma DecodeStructFailsAt(fields: seq<Field>, raw: seq<RawValue>, remap: map<string, EnumClass>,
                            extra: seq<Decoded>, k: int)
    requires WellTyped(fields, raw) && 0 <= k < |fields|
    requires forall j :: 0 <= j < k ==> DecodeField(fields[j], raw[j], remap).Success?
    requires DecodeField(fields[k], raw[k], remap).Failure?
    ensures DecodeStruct(fields, raw, remap, extra) == Failure(DecodeField(fields[k], raw[k], remap).error)
  {
    var d := DecodeStruct(fields, raw, remap, extra);
    var i :| FirstFailureAt(fields, raw, remap, i, d.error);
    assert i == k;
  }

  // ---------------------------------------------------------------- plugin_info_t

  /** `F0R.plugin_info_t` as filled in by `f0r_get_plugin_info`. */
  datatype RawPluginInfo = RawPluginInfo(
    name: Option<string>, author: Option<string>,
    pluginType: Int32, colourModel: Int32, frei0rVersion: Int32,
    majorVersion: Int32, minorVersion: Int32, numParams: Int32,
    explanation: Option<string>)

  /** The `PluginInfo` named tuple with its enum fields remapped. */
  datatype PluginInfo = PluginInfo(
    name: string, author: Option<string>,
    pluginType: PluginType, colourModel: ColourModel, frei0rVersion: int,
    majorVersion: int, minorVersion: int, numParams: int,
    explanation: Option<string>)

  const PluginInfoFields: seq<Field> := [
    Field("name", CharPtr), Field("author", CharPtr),
    Field("plugin_type", CInt), Field("colour_model", CInt), Field("frei0r_version", CInt),
    Field("major_version", CInt), Field("minor_version", CInt), Field("num_params", CInt),
    Field("explanation", CharPtr)]

  const PluginInfoRemap: map<string, EnumClass> :=
    map["plugin_type" := PluginTypeEnum, "colour_model" := ColourModelEnum]

  function PluginInfoValues(c: RawPluginInfo): (raw: seq<RawValue>)
    ensures WellTyped(PluginInfoFields, raw)
  {
    [Ptr(c.name), Ptr(c.author), Int(c.pluginType), Int(c.colourModel), Int(c.frei0rVersion),
     Int(c.majorVersion), Int(c.minorVersion), Int(c.numParams), Ptr(c.explanation)]
  }

  function OptText(d: Decoded): Option<string>
  {
    if d.Text? then Some(d.s) else None
  }

  predicate PluginInfoDecodable(c: RawPluginInfo)
  {
    c.name.Some? && PluginTypeOf(c.pluginType).Some? && ColourModelOf(c.colourModel).Some?
  }

  // The facts about `plugin_info_t` below are proved one field (or one kind of field) per
  // lemma on purpose: each concrete field name compared against the remap dictionary
  // is a string comparison the solver must unfold, and asking for all nine fields at
  // once makes a single proof obligation too costly for the solver. Field names
  // are told apart from the two remapped ones by their lengths (`NotRemapped`).

  lemma PluginInfoFieldsSucceed(c: RawPluginInfo)
    requires PluginInfoDecodable(c)
    ensures forall i :: 0 <= i < 9 ==>
              DecodeField(PluginInfoFields[i], PluginInfoValues(c)[i], PluginInfoRemap).Success?
  {
    var raw := PluginInfoValues(c);
    var fs := PluginInfoFields;
    var rm := PluginInfoRemap;
    assert DecodeField(fs[1], raw[1], rm).Success? && DecodeField(fs[4], raw[4], rm).Success?;
    assert DecodeField(fs[5], raw[5], rm).Success? && DecodeField(fs[6], raw[6], rm).Success?;
    assert DecodeField(fs[7], raw[7], rm).Success? && DecodeField(fs[8], raw[8], rm).Success?;
    DecodeFieldSpec(fs[0], raw[0], rm);
    DecodeFieldSpec(fs[2], raw[2], rm);
    DecodeFieldSpec(fs[3], raw[3], rm);
  }

  lemma PluginInfoFirstFailure(c: RawPluginInfo)
    requires !PluginInfoDecodable(c)
    ensures var d := DecodeStruct(PluginInfoFields, PluginInfoValues(c), PluginInfoRemap, []);
            && d.Failure?
            && (c.name.None? ==> d.error == NullName)
            && (c.name.Some? && PluginTypeOf(c.pluginType).None? ==>
                  d.error == BadEnumCode("plugin_type", c.pluginType))
            && (c.name.Some? && PluginTypeOf(c.pluginType).Some? && ColourModelOf(c.colourModel).None? ==>
                  d.error == BadEnumCode("colour_model", c.colourModel))
  {
    var raw := PluginInfoValues(c);
    var fs := PluginInfoFields;
    var rm := PluginInfoRemap;
    if c.name.None? {
      PluginInfoNullName(c);
    } else if PluginTypeOf(c.pluginType).None? {
      PluginInfoBadType(c);
    } else {
      PluginInfoBadModel(c);
    }
  }

  lemma PluginInfoNullName(c: RawPluginInfo)
    requires c.name.None?
    ensures DecodeStruct(PluginInfoFields, PluginInfoValues(c), PluginInfoRemap, []) == Failure(NullName)
  {
    var raw := PluginInfoValues(c);
    var fs := PluginInfoFields;
    var rm := PluginInfoRemap;
    assert DecodeField(fs[0], raw[0], rm) == Failure(NullName);
    var d := DecodeStruct(fs, raw, rm, []);
    var i :| FirstFailureAt(fs, raw, rm, i, d.error);
    assert i == 0;
  }

  lemma PluginInfoBadType(c: RawPluginInfo)
    requires c.name.Some? && PluginTypeOf(c.pluginType).None?
    ensures DecodeStruct(PluginInfoFields, PluginInfoValues(c), PluginInfoRemap, [])
              == Failure(BadEnumCode("plugin_type", c.pluginType))
  {
    var raw := PluginInfoValues(c);
    var fs := PluginInfoFields;
    var rm := PluginInfoRemap;
    assert DecodeField(fs[0], raw[0], rm).Success? && DecodeField(fs[1], raw[1], rm).Success?;
    assert rm[fs[2].name] == PluginTypeEnum;
    assert DecodeField(fs[2], raw[2], rm) == Failure(BadEnumCode("plugin_type", c.pluginType));
    var d := DecodeStruct(fs, raw, rm, []);
    var i :| FirstFailureAt(fs, raw, rm, i, d.error);
    assert i == 2;
  }

  lemma PluginInfoBadModel(c: RawPluginInfo)
    requires c.name.Some? && PluginTypeOf(c.pluginType).Some? && ColourModelOf(c.colourModel).None?
    ensures DecodeStruct(PluginInfoFields, PluginInfoValues(c), PluginInfoRemap, [])
              == Failure(BadEnumCode("colour_model", c.colourModel))
  {
    var raw := PluginInfoValues(c);
    var fs := PluginInfoFields;
    var rm := PluginInfoRemap;
    PluginInfoHeadDecodes(c);
    assert rm[fs[3].name] == ColourModelEnum;
    assert DecodeField(fs[3], raw[3], rm) == Failure(BadEnumCode("colour_model", c.colourModel));
    DecodeStructFailsAt(fs, raw, rm, [], 3);
  }

  /** With a name and a known plugin type, the first three fields decode. */
  lemma PluginInfoHeadDecodes(c: RawPluginInfo)
    requires c.name.Some? && PluginTypeOf(c.pluginType).Some?
    ensures forall j :: 0 <= j < 3 ==>
              DecodeField(PluginInfoFields[j], PluginInfoValues(c)[j], PluginInfoRemap).Success?
  {
    var raw := PluginInfoValues(c);
    var fs := PluginInfoFields;
    var rm := PluginInfoRemap;
    assert DecodeField(fs[0], raw[0], rm).Success? && DecodeField(fs[1], raw[1], rm).Success?;
    assert rm[fs[2].name] == PluginTypeEnum;
    assert DecodeField(fs[2], raw[2], rm).Success?;
  }

  lemma PluginInfoOutcome(c: RawPluginInfo)
    ensures var d := DecodeStruct(PluginInfoFields, PluginInfoValues(c), PluginInfoRemap, []);
            && (d.Success? <==> PluginInfoDecodable(c))
            && (c.name.None? ==> d.error == NullName)
            && (c.name.Some? && PluginTypeOf(c.pluginType).None? ==>
                  d.error == BadEnumCode("plugin_type", c.pluginType))
            && (c.name.Some? && PluginTypeOf(c.pluginType).Some? && ColourModelOf(c.colourModel).None? ==>
                  d.error == BadEnumCode("colour_model", c.colourModel))
  {
    if PluginInfoDecodable(c) {
      PluginInfoFieldsSucceed(c);
    } else {
      PluginInfoFirstFailure(c);
    }
  }

  lemma PluginInfoFieldValues(c: RawPluginInfo)
    requires DecodeStruct(PluginInfoFields, PluginInfoValues(c), PluginInfoRemap, []).Success?
    ensures var t := DecodeStruct(PluginInfoFields, PluginInfoValues(c), PluginInfoRemap, []).value;
            && |t| == 9 && t[0] == Text(c.name.value) && OptText(t[1]) == c.author
            && t[2] == Member(PluginTypeValue(PluginTypeOf(c.pluginType).value))
            && t[3] == Member(ColourModelValue(ColourModelOf(c.colourModel).value))
            && t[4] == Integer(c.frei0rVersion) && t[5] == Integer(c.majorVersion)
            && t[6] == Integer(c.minorVersion) && t[7] == Integer(c.numParams)
            && OptText(t[8]) == c.explanation
  {
    PluginInfoTextValues(c);
    PluginInfoEnumValues(c);
    PluginInfoIntValues(c);
  }

  /** Only the two names of lengths 11 and 12 are remapped in `plugin_info_t`. */
  lemma NotRemapped(name: string)
    requires |name| != |"plugin_type"| && |name| != |"colour_model"|
    ensures name !in PluginInfoRemap
  {
  }

  /** A decoded integer field that is not remapped holds the integer read. */
  lemma IntFieldValue(fields: seq<Field>, raw: seq<RawValue>, remap: map<string, EnumClass>, extra: seq<Decoded>, i: int)
    requires WellTyped(fields, raw) && DecodeStruct(fields, raw, remap, extra).Success?
    requires 0 <= i < |fields| && fields[i].ty == CInt && fields[i].name !in remap
    ensures DecodeStruct(fields, raw, remap, extra).value[i] == Integer(raw[i].value)
  {
  }

  /** A decoded remapped field holds the enum member its code names. */
  lemma EnumFieldValue(fields: seq<Field>, raw: seq<RawValue>, remap: map<string, EnumClass>, extra: seq<Decoded>, i: int)
    requires WellTyped(fields, raw) && DecodeStruct(fields, raw, remap, extra).Success?
    requires 0 <= i < |fields| && fields[i].ty == CInt && fields[i].name in remap
    ensures DecodeStruct(fields, raw, remap, extra).value[i].Member?
    ensures Remap(remap[fields[i].name], raw[i].value) == Some(DecodeStruct(fields, raw, remap, extra).value[i].e)
  {
  }

  /** A decoded pointer field holds the text read, or None for a null pointer. */
  lemma PtrFieldValue(fields: seq<Field>, raw: seq<RawValue>, remap: map<string, EnumClass>, extra: seq<Decoded>, i: int)
    requires WellTyped(fields, raw) && DecodeStruct(fields, raw, remap, extra).Success?
    requires 0 <= i < |fields| && fields[i].ty == CharPtr
    ensures raw[i].text.Some? ==> DecodeStruct(fields, raw, remap, extra).value[i] == Text(raw[i].text.value)
    ensures fields[i].name != "name" ==> OptText(DecodeStruct(fields, raw, remap, extra).value[i]) == raw[i].text
    ensures fields[i].name == "name" ==> raw[i].text.Some?
  {
    DecodeFieldSpec(fields[i], raw[i], remap);
  }

  lemma PluginInfoTextValues(c: RawPluginInfo)
    requires DecodeStruct(PluginInfoFields, PluginInfoValues(c), PluginInfoRemap, []).Success?
    ensures var t := DecodeStruct(PluginInfoFields, PluginInfoValues(c), PluginInfoRemap, []).value;
            && |t| == 9 && c.name.Some? && t[0] == Text(c.name.value) && OptText(t[1]) == c.author
            && OptText(t[8]) == c.explanation
  {
    var raw := PluginInfoValues(c);
    var fs := PluginInfoFields;
    var rm := PluginInfoRemap;
    assert fs[0] == Field("name", CharPtr) && fs[1] == Field("author", CharPtr) && fs[8] == Field("explanation", CharPtr);
    PtrFieldValue(fs, raw, rm, [], 0);
    PtrFieldValue(fs, raw, rm, [], 1);
    PtrFieldValue(fs, raw, rm, [], 8);
  }

  lemma PluginInfoEnumValues(c: RawPluginInfo)
    requires DecodeStruct(PluginInfoFields, PluginInfoValues(c), PluginInfoRemap, []).Success?
    ensures var t := DecodeStruct(PluginInfoFields, PluginInfoValues(c), PluginInfoRemap, []).value;
            && |t| == 9
            && t[2] == Member(PluginTypeValue(PluginTypeOf(c.pluginType).value))
            && t[3] == Member(ColourModelValue(ColourModelOf(c.colourModel).value))
  {
    PluginInfoTypeValue(c);
    PluginInfoModelValue(c);
  }

  lemma PluginInfoTypeValue(c: RawPluginInfo)
    requires DecodeStruct(PluginInfoFields, PluginInfoValues(c), PluginInfoRemap, []).Success?
    ensures var t := DecodeStruct(PluginInfoFields, PluginInfoValues(c), PluginInfoRemap, []).value;
            && |t| == 9 && t[2] == Member(PluginTypeValue(PluginTypeOf(c.pluginType).value))
  {
    var raw := PluginInfoValues(c);
    RemappedFields();
    EnumFieldValue(PluginInfoFields, raw, PluginInfoRemap, [], 2);
    var t := DecodeStruct(PluginInfoFields, raw, PluginInfoRemap, []).value;
    assert Remap(PluginTypeEnum, c.pluginType) == Some(t[2].e);
  }

  lemma PluginInfoModelValue(c: RawPluginInfo)
    requires DecodeStruct(PluginInfoFields, PluginInfoValues(c), PluginInfoRemap, []).Success?
    ensures var t := DecodeStruct(PluginInfoFields, PluginInfoValues(c), PluginInfoRemap, []).value;
            && |t| == 9 && t[3] == Member(ColourModelValue(ColourModelOf(c.colourModel).value))
  {
    var raw := PluginInfoValues(c);
    RemappedFields();
    EnumFieldValue(PluginInfoFields, raw, PluginInfoRemap, [], 3);
    var t := DecodeStruct(PluginInfoFields, raw, PluginInfoRemap, []).value;
    assert Remap(ColourModelEnum, c.colourModel) == Some(t[3].e);
  }

  /** The two `plugin_info_t` fields that `enum_remap` names. */
  lemma RemappedFields()
    ensures PluginInfoFields[2].ty == CInt && PluginInfoFields[2].name in PluginInfoRemap
    ensures PluginInfoRemap[PluginInfoFields[2].name] == PluginTypeEnum
    ensures PluginInfoFields[3].ty == CInt && PluginInfoFields[3].name in PluginInfoRemap
    ensures PluginInfoRemap[PluginInfoFields[3].name] == ColourModelEnum
  {
    assert PluginInfoFields[2] == Field("plugin_type", CInt);
    assert PluginInfoFields[3] == Field("colour_model", CInt);
  }

  lemma PluginInfoIntValues(c: RawPluginInfo)
    requires DecodeStruct(PluginInfoFields, PluginInfoValues(c), PluginInfoRemap, []).Success?
    ensures var t := DecodeStruct(PluginInfoFields, PluginInfoValues(c), PluginInfoRemap, []).value;
            && |t| == 9
            && t[4] == Integer(c.frei0rVersion) && t[5] == Integer(c.majorVersion)
            && t[6] == Integer(c.minorVersion) && t[7] == Integer(c.numParams)
  {
    FrameworkVersionField(c);
    MajorVersionField(c);
    MinorVersionField(c);
    NumParamsField(c);
  }

  lemma FrameworkVersionField(c: RawPluginInfo)
    requires DecodeStruct(PluginInfoFields, PluginInfoValues(c), PluginInfoRemap, []).Success?
    ensures DecodeStruct(PluginInfoFields, PluginInfoValues(c), PluginInfoRemap, []).value[4] == Integer(c.frei0rVersion)
  {
    NotRemapped(PluginInfoFields[4].name);
    IntFieldValue(PluginInfoFields, PluginInfoValues(c), PluginInfoRemap, [], 4);
  }

  lemma MajorVersionField(c: RawPluginInfo)
    requires DecodeStruct(PluginInfoFields, PluginInfoValues(c), PluginInfoRemap, []).Success?
    ensures DecodeStruct(PluginInfoFields, PluginInfoValues(c), PluginInfoRemap, []).value[5] == Integer(c.majorVersion)
  {
    NotRemapped(PluginInfoFields[5].name);
    IntFieldValue(PluginInfoFields, PluginInfoValues(c), PluginInfoRemap, [], 5);
  }

  lemma MinorVersionField(c: RawPluginInfo)
    requires DecodeStruct(PluginInfoFields, PluginInfoValues(c), PluginInfoRemap, []).Success?
    ensures DecodeStruct(PluginInfoFields, PluginInfoValues(c), PluginInfoRemap, []).value[6] == Integer(c.minorVersion)
  {
    NotRemapped(PluginInfoFields[6].name);
    IntFieldValue(PluginInfoFields, PluginInfoValues(c), PluginInfoRemap, [], 6);
  }

  lemma NumParamsField(c: RawPluginInfo)
    requires DecodeStruct(PluginInfoFields, PluginInfoValues(c), PluginInfoRemap, []).Success?
    ensures DecodeStruct(PluginInfoFields, PluginInfoValues(c), PluginInfoRemap, []).value[7] == Integer(c.numParams)
  {
    NotRemapped(PluginInfoFields[7].name);
    IntFieldValue(PluginInfoFields, PluginInfoValues(c), PluginInfoRemap, [], 7);
  }

  /** `decode_struct(c_info, F0R.plugin_info_t, plugin_info, {"plugin_type" : PLUGIN_TYPE,
      "colour_model" : COLOUR_MODEL}, ())` followed by reading the tuple's fields. */
  function DecodePluginInfo(c: RawPluginInfo): (r: Result<PluginInfo, Error>)
    ensures r.Success? <==> PluginInfoDecodable(c)
    ensures c.name.None? ==> r == Failure(NullName)
    ensures c.name.Some? && PluginTypeOf(c.pluginType).None? ==> r == Failure(BadEnumCode("plugin_type", c.pluginType))
    ensures c.name.Some? && PluginTypeOf(c.pluginType).Some? && ColourModelOf(c.colourModel).None? ==>
              r == Failure(BadEnumCode("colour_model", c.colourModel))
    ensures r.Success? ==> r.value == PluginInfo(c.name.value, c.author,
              PluginTypeOf(c.pluginType).value, ColourModelOf(c.colourModel).value,
              c.frei0rVersion, c.majorVersion, c.minorVersion, c.numParams, c.explanation)
  {
    PluginInfoOutcome(c);
    match DecodeStruct(PluginInfoFields, PluginInfoValues(c), PluginInfoRemap, [])
    case Failure(e) =>
      Failure(e)
    case Success(t) =>
      PluginInfoFieldValues(c);
      Success(PluginInfo(t[0].s, OptText(t[1]), t[2].e.pluginType, t[3].e.colourModel,
                         t[4].i, t[5].i, t[6].i, t[7].i, OptText(t[8])))
  }

  // ---------------------------------------------------------------- param_info_t

  /** `F0R.param_info_t` as filled in by `f0r_get_param_info`. */
  datatype RawParamInfo = RawParamInfo(name: Option<string>, kind: Int32, explanation: Option<string>)

  /** The `PluginParamInfo` named tuple: the struct's fields plus the declaration index. */
  datatype ParamInfo = ParamInfo(name: string, kind: ParamKind, explanation: Option<string>, index: int)

  const ParamInfoFields: seq<Field> := [Field("name", CharPtr), Field("type", CInt), Field("explanation", CharPtr)]

  const ParamInfoRemap: map<string, EnumClass> := map["type" := ParamEnum]

  function ParamInfoValues(c: RawParamInfo): (raw: seq<RawValue>)
    ensures WellTyped(ParamInfoFields, raw)
  {
    [Ptr(c.name), Int(c.kind), Ptr(c.explanation)]
  }

  /** `decode_struct(c_info, F0R.param_info_t, param_info, {"type" : PARAM}, (i,))`. */
  function DecodeParamInfo(c: RawParamInfo, index: int): (r: Result<ParamInfo, Error>)
    ensures r.Success? <==> c.name.Some? && ParamKindOf(c.kind).Some?
    ensures c.name.None? ==> r == Failure(NullName)
    ensures c.name.Some? && ParamKindOf(c.kind).None? ==> r == Failure(BadEnumCode("type", c.kind))
    ensures r.Success? ==> r.value == ParamInfo(c.name.value, ParamKindOf(c.kind).value, c.explanation, index)
  {
    var raw := ParamInfoValues(c);
    var fs := ParamInfoFields;
    var rm := ParamInfoRemap;
    assert DecodeField(fs[2], raw[2], rm).Success?;
    DecodeFieldSpec(fs[0], raw[0], rm);
    DecodeFieldSpec(fs[1], raw[1], rm);
    match DecodeStruct(fs, raw, rm, [Integer(index)])
    case Failure(e) =>
      Failure(e)
    case Success(t) =>
      assert FieldMeaning(fs[0], raw[0], rm, t[0]) && FieldMeaning(fs[1], raw[1], rm, t[1]);
      assert FieldMeaning(fs[2], raw[2], rm, t[2]);
      assert t[3] == t[3..][0];
      Success(ParamInfo(t[0].s, t[1].e.kind, OptText(t[2]), t[3].i))
  }
}
