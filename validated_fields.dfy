/** Validated dataclass fields: integer fields valid on one range or on a
    union of ranges, fixed-length byte strings, and an optional wrapper that
    also accepts None. Each field checks a value, renders it for messages,
    builds its invalid-value message, offers sample invalid values, and names
    the marshmallow field that serializes it. */
module ValidatedFields {
  import opened Wrappers
  import opened Python
  import opened Codecs
  import opened ErrorHandling

  /** A range field's `formatter`: none, `hex`, `str`, or another callable,
      known by its `__name__` and what it returns. */
  datatype Formatter =
    | NoFormatter
    | HexFormatter
    | StrFormatter
    | OtherFormatter(fname: string, render: int -> string)

  /** `_format_value`: `str(value)` without a formatter, else the formatter's text. */
  function FormatInt(formatter: Formatter, value: int): string {
    match formatter
    case NoFormatter => IntToString(value)
    case HexFormatter => PyHex(value)
    case StrFormatter => IntToString(value)
    case OtherFormatter(_, render) => render(value)
  }

  /** What the hex formatter writes, `int(s, 16)` reads back. */
  lemma HexFormatRoundTrip(value: nat)
    ensures StartsWith(FormatInt(HexFormatter, value), "0x")
    ensures ParseHexAddress(FormatInt(HexFormatter, value)) == Some(value)
  {
    ParseHexAddressOfPyHex(value);
  }

  /** The marshmallow field classes the core chooses between. */
  datatype MarshmallowKind = IntegerKind | IntAsHexKind | IntAsStrKind | BytesAsHexKind | BytesAsBase64StrKind

  /** A marshmallow field: its class and the three settings the core touches. */
  datatype MarshmallowField = MarshmallowField(kind: MarshmallowKind, required: bool, allowNone: bool, loadDefaultNone: bool)

  /** `cls(required=required)`: None stays disallowed and the load default missing. */
  function NewMarshmallowField(kind: MarshmallowKind, required: bool): (m: MarshmallowField)
    ensures m.kind == kind && m.required == required && !m.allowNone && !m.loadDefaultNone
  {
    MarshmallowField(kind, required, false, false)
  }

  /** The bounds of a `RangeValidatedField`: lower inclusive, upper exclusive. */
  datatype RangeBounds = RangeBounds(lower: int, upper: int) {
    predicate Contains(value: int) {
      lower <= value < upper
    }
  }

  /** `any(r.is_valid(value) for r in ranges)` */
  function AnyContains(ranges: seq<RangeBounds>, value: int): (r: bool)
    ensures r <==> exists k :: 0 <= k < |ranges| && ranges[k].Contains(value)
  {
    if ranges == [] then false
    else ranges[0].Contains(value) || AnyContains(ranges[1..], value)
  }

  /** A value handed to a field: an int, a bytes object or None. */
  datatype FieldValue = IntValue(i: int) | BytesValue(b: seq<byte>) | NoneValue

  const EMPTY_MIN_ERROR := Exception("ValueError", "min() arg is an empty sequence")
  const BYTES_LENGTH_ERROR := Exception("AssertionError", "Bytes length must be at least 1.")

  /** `self.name if name is None else name` */
  function NameInMessages(name: Option<string>, own: string): string {
    if name.None? then own else name.value
  }

  /** The message of the range fields: the name, the formatted value and "is out of range". */
  function OutOfRangeMessage(subject: string, formatted: string): (r: string)
    ensures StartsWith(r, subject + " ")
  {
    var head := subject + " ";
    assert (head + formatted)[..|head|] == head;
    assert (head + formatted + " is out of range")[..|head|] == head;
    head + formatted + " is out of range"
  }

  /** The message of the bytes field: the name, the hex of the value, the
      expected and the actual length. */
  function WrongLengthMessage(subject: string, b: seq<byte>, length: int): (r: string)
    ensures StartsWith(r, subject + " ")
    ensures r == subject + " " + Hexlify(b) + " length is not " + IntToString(length)
                 + " bytes, instead it is " + NatToString(|b|)
  {
    var head := subject + " ";
    var withValue := head + Hexlify(b) + " length is not ";
    var withLength := withValue + IntToString(length) + " bytes, instead it is ";
    assert withValue[..|head|] == head;
    assert withLength[..|head|] == withValue[..|head|];
    assert (withLength + NatToString(|b|))[..|head|] == withLength[..|head|];
    withLength + NatToString(|b|)
  }

  /** A name as an f-string renders it: None becomes "None". */
  function NameText(name: Option<string>): string {
    if name.None? then "None" else name.value
  }

  /** `b"\x00" * n`, empty when n is not positive. */
  function Zeros(n: int): (z: seq<byte>)
    ensures |z| == if n < 0 then 0 else n
  {
    seq(if n < 0 then 0 else n, _ => 0 as byte)
  }

  /** `[value for value in values if value is not None]` */
  function WithoutNone(values: seq<FieldValue>): (r: seq<FieldValue>)
    ensures |r| <= |values|
    ensures forall x :: x in r <==> x in values && !x.NoneValue?
  {
    if values == [] then []
    else if values[0].NoneValue? then WithoutNone(values[1..])
    else [values[0]] + WithoutNone(values[1..])
  }

  /** The filter keeps the order of the values it keeps: it distributes over
      concatenation, so each value is kept or dropped in place. */
  lemma {:induction false} WithoutNoneAppend(a: seq<FieldValue>, b: seq<FieldValue>)
    ensures WithoutNone(a + b) == WithoutNone(a) + WithoutNone(b)
  {
    if a == [] {
      assert a + b == b;
    } else {
      assert (a + b)[0] == a[0] && (a + b)[1..] == a[1..] + b;
      WithoutNoneAppend(a[1..], b);
    }
  }

  /** `min(xs)` */
  function SeqMin(xs: seq<int>): (m: int)
    requires xs != []
    ensures m in xs && forall k :: 0 <= k < |xs| ==> m <= xs[k]
  {
    if |xs| == 1 then xs[0]
    else
      var rest := SeqMin(xs[1..]);
      if xs[0] <= rest then xs[0] else rest
  }

  /** `max(xs)` */
  function SeqMax(xs: seq<int>): (m: int)
    requires xs != []
    ensures m in xs && forall k :: 0 <= k < |xs| ==> xs[k] <= m
  {
    if |xs| == 1 then xs[0]
    else
      var rest := SeqMax(xs[1..]);
      if xs[0] >= rest then xs[0] else rest
  }

  function Lowers(ranges: seq<RangeBounds>): (r: seq<int>)
    ensures |r| == |ranges| && forall k :: 0 <= k < |ranges| ==> r[k] == ranges[k].lower
  {
    seq(|ranges|, k requires 0 <= k < |ranges| => ranges[k].lower)
  }

  function Uppers(ranges: seq<RangeBounds>): (r: seq<int>)
    ensures |r| == |ranges| && forall k :: 0 <= k < |ranges| ==> r[k] == ranges[k].upper
  {
    seq(|ranges|, k requires 0 <= k < |ranges| => ranges[k].upper)
  }

  /** `MultiRangeValidatedField.get_invalid_values`: one below the least lower
      bound and one above the greatest upper bound; `min` of an empty list raises. */
  function MultiRangeInvalidValues(ranges: seq<RangeBounds>): (r: Result<seq<int>, Exception>)
    ensures r.Err? <==> ranges == []
    ensures r.Err? ==> r.error == EMPTY_MIN_ERROR
    ensures r.Ok? ==> |r.value| == 2 && forall k :: 0 <= k < 2 ==> !AnyContains(ranges, r.value[k])
  {
    if ranges == [] then Err(EMPTY_MIN_ERROR)
    else
      var low, high := SeqMin(Lowers(ranges)), SeqMax(Uppers(ranges));
      assert forall k :: 0 <= k < |ranges| ==> !ranges[k].Contains(low - 1) && !ranges[k].Contains(high + 1) by {
        forall k | 0 <= k < |ranges|
          ensures !ranges[k].Contains(low - 1) && !ranges[k].Contains(high + 1)
        {
          assert Lowers(ranges)[k] == ranges[k].lower;
          assert Uppers(ranges)[k] == ranges[k].upper;
        }
      }
      Ok([low - 1, high + 1])
  }

  function IntValues(xs: seq<int>): (r: seq<FieldValue>)
    ensures |r| == |xs| && forall k :: 0 <= k < |xs| ==> r[k] == IntValue(xs[k])
  {
    seq(|xs|, k requires 0 <= k < |xs| => IntValue(xs[k]))
  }

  /** A validated field. An `Optional` takes its name and error code from the
      field it wraps and keeps a copy of that field's marshmallow field. */
  datatype Field =
    | Range(name: string, errorCode: ErrorCode, formatter: Formatter, bounds: RangeBounds)
    | MultiRange(name: string, errorCode: ErrorCode, formatter: Formatter, validRanges: seq<RangeBounds>)
    | BytesLength(name: string, errorCode: ErrorCode, length: int)
    | Optional(inner: Field, mfield: MarshmallowField)
  {
    /** `self.name` */
    function Name(): string {
      if Optional? then inner.Name() else name
    }

    /** `self.error_code` */
    function Code(): ErrorCode {
      if Optional? then inner.Code() else errorCode
    }

    /** The values of the field's type `T`. */
    predicate HasType(v: FieldValue) {
      match this
      case Range(_, _, _, _) => v.IntValue?
      case MultiRange(_, _, _, _) => v.IntValue?
      case BytesLength(_, _, _) => v.BytesValue?
      case Optional(inner, _) => v.NoneValue? || inner.HasType(v)
    }

    /** `is_valid(value)`: a range holds its lower bound and not its upper
        one, a multi-range holds what one of its ranges holds, a byte string
        must have exactly the length, and the optional wrapper admits None. */
    predicate IsValid(v: FieldValue): (r: bool)
      requires HasType(v)
      ensures Range? ==> (r <==> bounds.lower <= v.i < bounds.upper)
      ensures MultiRange? ==> (r <==> exists k :: 0 <= k < |validRanges| && validRanges[k].lower <= v.i < validRanges[k].upper)
      ensures BytesLength? ==> (r <==> |v.b| == length)
      ensures Optional? ==> (r <==> v.NoneValue? || inner.IsValid(v))
    {
      match this
      case Range(_, _, _, bounds) => bounds.Contains(v.i)
      case MultiRange(_, _, _, ranges) => AnyContains(ranges, v.i)
      case BytesLength(_, _, length) => |v.b| == length
      case Optional(inner, _) => v.NoneValue? || inner.IsValid(v)
    }

    /** `format(value)`: bytes as lower-case hex, None as "None". */
    function Format(v: FieldValue): string
      requires HasType(v)
    {
      match this
      case Range(_, _, formatter, _) => FormatInt(formatter, v.i)
      case MultiRange(_, _, formatter, _) => FormatInt(formatter, v.i)
      case BytesLength(_, _, _) => Hexlify(v.b)
      case Optional(inner, _) => if v.NoneValue? then "None" else inner.Format(v)
    }

    /** `format_invalid_value_error_message(value, name)`. Every message about
        a value other than None opens with the name it was given, or else the
        field's own name; the optional wrapper answers None with the given name
        as an f-string renders it. */
    function InvalidValueMessage(v: FieldValue, name: Option<string>): (r: string)
      requires HasType(v)
      ensures !v.NoneValue? ==> StartsWith(r, NameInMessages(name, Name()) + " ")
      ensures Optional? && v.NoneValue? ==> r == NameText(name) + " is valid (None)."
      ensures (Range? || MultiRange?) ==>
                r == NameInMessages(name, this.name) + " " + FormatInt(formatter, v.i) + " is out of range"
      ensures (Range? || MultiRange?) && (formatter.NoFormatter? || formatter.StrFormatter?) ==>
                r == NameInMessages(name, this.name) + " " + IntToString(v.i) + " is out of range"
      ensures (Range? || MultiRange?) && formatter.HexFormatter? ==>
                r == NameInMessages(name, this.name) + " " + PyHex(v.i) + " is out of range"
      ensures BytesLength? ==>
                r == NameInMessages(name, this.name) + " " + Hexlify(v.b) + " length is not " + IntToString(length)
                     + " bytes, instead it is " + NatToString(|v.b|)
    {
      match this
      case Range(own, _, formatter, _) => OutOfRangeMessage(NameInMessages(name, own), FormatInt(formatter, v.i))
      case MultiRange(own, _, formatter, _) => OutOfRangeMessage(NameInMessages(name, own), FormatInt(formatter, v.i))
      case BytesLength(own, _, length) => WrongLengthMessage(NameInMessages(name, own), v.b, length)
      case Optional(inner, _) =>
        if v.NoneValue? then NameText(name) + " is valid (None)." else inner.InvalidValueMessage(v, name)
    }

    /** `validate(value, name)`: fails, with the field's error code, exactly
        when the value is invalid; the optional wrapper passes None and hands
        anything else to the field it wraps. */
    function Validate(v: FieldValue, name: Option<string>): (r: Outcome<StarkException>)
      requires HasType(v)
      ensures r.Pass? <==> IsValid(v)
      ensures r.Fail? ==> r.error == StarkException(Code(), InvalidValueMessage(v, name))
      ensures Optional? && v.NoneValue? ==> r.Pass?
      ensures Optional? && !v.NoneValue? ==> r == inner.Validate(v, name)
    {
      StarkAssert(IsValid(v), Code(), InvalidValueMessage(v, name))
    }

    /** `get_invalid_values()` */
    function GetInvalidValues(): (r: Result<seq<FieldValue>, Exception>) {
      match this
      case Range(_, _, _, bounds) => Ok([IntValue(bounds.lower - 1), IntValue(bounds.upper)])
      case MultiRange(_, _, _, ranges) =>
        var values :- MultiRangeInvalidValues(ranges);
        Ok(IntValues(values))
      case BytesLength(_, _, length) => Ok([BytesValue(Zeros(length - 1)), BytesValue(Zeros(length + 1))])
      case Optional(inner, _) =>
        var values :- inner.GetInvalidValues();
        Ok(WithoutNone(values))
    }

    /** `MultiRangeValidatedField.get_invalid_values`, collecting the bounds
        in a loop before taking their least and greatest. */
    method MultiRangeGetInvalidValues() returns (r: Result<seq<FieldValue>, Exception>)
      requires MultiRange?
      ensures r == GetInvalidValues()
    {
      var mins: seq<int> := [];
      var maxs: seq<int> := [];
      for k := 0 to |validRanges|
        invariant mins == Lowers(validRanges[..k])
        invariant maxs == Uppers(validRanges[..k])
      {
        mins := mins + [validRanges[k].lower];
        maxs := maxs + [validRanges[k].upper];
      }
      assert validRanges[..|validRanges|] == validRanges;
      if mins == [] {
        return Err(EMPTY_MIN_ERROR);
      }
      var values := [SeqMin(mins) - 1, SeqMax(maxs) + 1];
      assert MultiRangeInvalidValues(validRanges) == Ok(values);
      assert IntValues(values) == [IntValue(values[0]), IntValue(values[1])];
      return Ok([IntValue(values[0]), IntValue(values[1])]);
    }

    /** `get_marshmallow_field()`: a range field's class follows its
        formatter, and a formatter without one raises NotImplementedError. */
    function MarshmallowOf(): (r: Result<MarshmallowField, Exception>)
      ensures r.Err? <==> (Range? || MultiRange?) && formatter.OtherFormatter?
      ensures r.Err? ==> r.error.kind == "NotImplementedError"
      ensures r.Ok? && !Optional? ==> r.value.required && !r.value.allowNone
      ensures r.Ok? && Optional? ==> r.value == mfield
      ensures r.Ok? && BytesLength? ==> r.value.kind == BytesAsHexKind
      ensures r.Ok? && (Range? || MultiRange?) ==>
                r.value.kind == match formatter
                  case HexFormatter => IntAsHexKind
                  case StrFormatter => IntAsStrKind
                  case _ => IntegerKind
    {
      match this
      case Optional(_, mfield) => Ok(mfield)
      case BytesLength(_, _, _) => Ok(NewMarshmallowField(BytesAsHexKind, true))
      case _ =>
        match formatter
        case HexFormatter => Ok(NewMarshmallowField(IntAsHexKind, true))
        case StrFormatter => Ok(NewMarshmallowField(IntAsStrKind, true))
        case NoFormatter => Ok(NewMarshmallowField(IntegerKind, true))
        case OtherFormatter(fname, _) =>
          Err(Exception("NotImplementedError",
            name + ": The given formatter " + fname + " does not have a suitable metadata."))
    }

    /** A field as its constructor leaves it: a positive byte length, and an
        optional wrapper's marshmallow field copied from the field it wraps
        with None allowed, None as load default and not required. */
    predicate WellFormed() {
      match this
      case BytesLength(_, _, length) => length > 0
      case Optional(inner, mfield) =>
        inner.WellFormed() && inner.MarshmallowOf().Ok?
        && mfield == inner.MarshmallowOf().value.(allowNone := true, loadDefaultNone := true, required := false)
      case _ => true
    }

    /** `metadata(field_name)` */
    function Metadata(fieldName: Option<string>): (r: Result<map<MetadataKey, MetadataValue>, Exception>)
      ensures r.Ok? <==> MarshmallowOf().Ok?
      ensures r.Ok? ==> r.value.Keys == {MarshmallowFieldKey, ValidatedFieldKey, NameInMessagesKey}
      ensures r.Ok? ==> r.value[MarshmallowFieldKey] == MarshmallowEntry(MarshmallowOf().value)
      ensures r.Ok? ==> r.value[ValidatedFieldKey] == FieldEntry(this)
      ensures r.Ok? ==> r.value[NameInMessagesKey] == NameEntry(NameInMessages(fieldName, Name()))
    {
      var m :- MarshmallowOf();
      Ok(map[MarshmallowFieldKey := MarshmallowEntry(m), ValidatedFieldKey := FieldEntry(this),
             NameInMessagesKey := NameEntry(NameInMessages(fieldName, Name()))])
    }
  }

  /** `OptionalField(field, none_probability)`; it fails where the wrapped
      field has no marshmallow field. */
  function NewOptionalField(field: Field): (r: Result<Field, Exception>)
    ensures r.Ok? <==> field.MarshmallowOf().Ok?
    ensures r.Err? ==> r.error == field.MarshmallowOf().error
    ensures r.Ok? ==> r.value.Optional? && r.value.inner == field
    ensures r.Ok? ==> r.value.Name() == field.Name() && r.value.Code() == field.Code()
    ensures r.Ok? ==> r.value.mfield.allowNone && r.value.mfield.loadDefaultNone && !r.value.mfield.required
    ensures r.Ok? && field.WellFormed() ==> r.value.WellFormed()
  {
    var m :- field.MarshmallowOf();
    Ok(Optional(field, m.(allowNone := true, loadDefaultNone := true, required := false)))
  }

  /** `BytesLengthField(name, error_code, length)`: the length must be positive. */
  function NewBytesLengthField(name: string, errorCode: ErrorCode, length: int): (r: Result<Field, Exception>)
    ensures r.Ok? <==> length > 0
    ensures r.Err? ==> r.error == BYTES_LENGTH_ERROR
    ensures r.Ok? ==> r.value.WellFormed() && r.value.Name() == name && r.value.Code() == errorCode
  {
    if length > 0 then Ok(BytesLength(name, errorCode, length)) else Err(BYTES_LENGTH_ERROR)
  }

  /** What a byte field writes in its messages, unhexlify reads back. */
  lemma BytesFormatRoundTrip(field: Field, b: seq<byte>)
    requires field.BytesLength?
    ensures Unhexlify(field.Format(BytesValue(b))) == Ok(b)
  {
    UnhexlifyHexlify(b);
  }

  /** The sample invalid values of a well-formed field all have its type and
      are all rejected by it; the only failure is `min` of an empty range list. */
  lemma {:induction false} InvalidValuesAreInvalid(field: Field)
    requires field.WellFormed()
    ensures field.GetInvalidValues().Err? <==> EmptyMultiRange(field)
    ensures field.GetInvalidValues().Ok? ==>
              var values := field.GetInvalidValues().value;
              forall k :: 0 <= k < |values| ==> field.HasType(values[k]) && !field.IsValid(values[k])
  {
    match field
    case Range(_, _, _, _) =>
    case MultiRange(_, _, _, ranges) =>
    case BytesLength(_, _, _) =>
    case Optional(inner, _) =>
      InvalidValuesAreInvalid(inner);
      if inner.GetInvalidValues().Ok? {
        var values := inner.GetInvalidValues().value;
        var kept := WithoutNone(values);
        forall k | 0 <= k < |kept|
          ensures field.HasType(kept[k]) && !field.IsValid(kept[k])
        {
          assert kept[k] in values;
        }
      }
  }

  /** A multi-range field without ranges, possibly inside optional wrappers. */
  predicate EmptyMultiRange(field: Field) {
    match field
    case MultiRange(_, _, _, ranges) => ranges == []
    case Optional(inner, _) => EmptyMultiRange(inner)
    case _ => false
  }

  /** The keys of a metadata dict. */
  datatype MetadataKey = MarshmallowFieldKey | ValidatedFieldKey | NameInMessagesKey

  datatype MetadataValue =
    | MarshmallowEntry(m: MarshmallowField)
    | FieldEntry(f: Field)
    | NameEntry(s: string)

  /** `_generate_metadata(marshmallow_field_cls, validated_field, required)`:
      `required` defaults to True, and the `validated_field` key is added only
      when a field is given. */
  method GenerateMetadata(kind: MarshmallowKind, validatedField: Option<Field>, required: Option<bool>)
    returns (metadata: map<MetadataKey, MetadataValue>)
    ensures MarshmallowFieldKey in metadata && NameInMessagesKey !in metadata
    ensures ValidatedFieldKey in metadata <==> validatedField.Some?
    ensures metadata[MarshmallowFieldKey] == MarshmallowEntry(NewMarshmallowField(kind, required != Some(false)))
    ensures validatedField.Some? ==> metadata[ValidatedFieldKey] == FieldEntry(validatedField.value)
  {
    var isRequired: bool;
    if required.None? {
      isRequired := true;
    } else {
      isRequired := required.value;
    }
    metadata := map[MarshmallowFieldKey := MarshmallowEntry(NewMarshmallowField(kind, isRequired))];
    if validatedField.Some? {
      metadata := metadata[ValidatedFieldKey := FieldEntry(validatedField.value)];
    }
  }
}
