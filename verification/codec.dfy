/** The `PARAM.to_f0r` / `PARAM.from_f0r` codec: host values to and from the ctypes
    cell that `f0r_set_param_value` / `f0r_get_param_value` exchange with the plugin. */
module ParamCodec {
  import opened Wrappers
  import opened Abi
  import opened Failures

  /** Host-side records standing for qahirah's Colour and Vector. */
  datatype Colour = Colour(r: real, g: real, b: real, a: real)
  datatype Vector = Vector(x: real, y: real)

  /** A host value handed to or returned by parameter access. */
  datatype HostValue =
    | BoolValue(b: bool)
    | RealValue(x: real)
    | ColourValue(c: Colour)
    | VectorValue(v: Vector)
    | TextValue(s: string)

  /** The native cell of each parameter type: `c_double` (bool and double),
      `param_colour_t`, `param_position_t`, and a `c_char_p` that may be null. */
  datatype NativeCell =
    | DoubleCell(d: real)
    | ColourCell(r: real, g: real, b: real)
    | PositionCell(x: real, y: real)
    | StringCell(p: Option<string>)

  /** `PARAM._f0r_type`: which cell shape belongs to which parameter type. */
  predicate CellFits(k: ParamKind, c: NativeCell)
  {
    match k
    case BoolParam => c.DoubleCell?
    case DoubleParam => c.DoubleCell?
    case ColourParam => c.ColourCell?
    case PositionParam => c.PositionCell?
    case StringParam => c.StringCell?
  }

  /** The zero-initialised cell `param.type.f0r_type()` allocates before a native call. */
  function ZeroCell(k: ParamKind): (c: NativeCell)
    ensures CellFits(k, c)
    ensures c.DoubleCell? ==> c.d == 0.0
    ensures c.StringCell? ==> c.p.None?
    ensures c.ColourCell? ==> c.r == 0.0 && c.g == 0.0 && c.b == 0.0
    ensures c.PositionCell? ==> c.x == 0.0 && c.y == 0.0
  {
    match k
    case BoolParam => DoubleCell(0.0)
    case DoubleParam => DoubleCell(0.0)
    case ColourParam => ColourCell(0.0, 0.0, 0.0)
    case PositionParam => PositionCell(0.0, 0.0)
    case StringParam => StringCell(None)
  }

  /** `float(v)` and assignment to a `c_double`: a bool becomes 1.0 or 0.0,
      a number is kept, anything else is refused. */
  function AsFloat(v: HostValue): Option<real>
  {
    match v
    case BoolValue(b) => Some(if b then 1.0 else 0.0)
    case RealValue(x) => Some(x)
    case _ => None
  }

  /** The text a `c_char_p` holds as C sees it and as its `.value` reads: everything
      before the first NUL character. */
  function CString(s: string): (r: string)
    ensures |r| <= |s| && r == s[..|r|]
    ensures '\0' !in r
    ensures |r| < |s| ==> s[|r|] == '\0'
  {
    if s == [] || s[0] == '\0' then []
    else [s[0]] + CString(s[1..])
  }

  /** Reading a C string back changes nothing more, and text without NUL crosses whole. */
  lemma CStringStable(s: string)
    ensures CString(CString(s)) == CString(s)
    ensures '\0' !in s ==> CString(s) == s
  {
    var r := CString(s);
    assert r == r[..|r|];
    if '\0' !in s {
      assert |r| == |s|;
    }
  }

  /** Whether `to_f0r` of parameter type `k` accepts a host value of this shape. */
  predicate Accepts(k: ParamKind, v: HostValue)
  {
    match k
    case BoolParam => v.BoolValue? || v.RealValue?
    case DoubleParam => v.BoolValue? || v.RealValue?
    case ColourParam => v.ColourValue?
    case PositionParam => v.VectorValue?
    case StringParam => v.TextValue?
  }

  /** Encode a host value for parameter type `k`. `narrow` is the platform's conversion
      of a Python float to a 32-bit `c_float`, applied to each colour channel; the alpha
      channel of the colour is dropped; text keeps what precedes its first NUL. */
  function ToF0r(k: ParamKind, v: HostValue, narrow: real -> real): (r: Result<NativeCell, Error>)
    ensures r.Success? <==> Accepts(k, v)
    ensures r.Failure? ==> r.error == TypeMismatch
    ensures r.Success? ==> CellFits(k, r.value)
    ensures r.Success? && (k == BoolParam || k == DoubleParam) && v.BoolValue? ==>
              r.value.d == (if v.b then 1.0 else 0.0)
    ensures r.Success? && (k == BoolParam || k == DoubleParam) && v.RealValue? ==> r.value.d == v.x
    ensures r.Success? && k == ColourParam ==>
              r.value == ColourCell(narrow(v.c.r), narrow(v.c.g), narrow(v.c.b))
    ensures r.Success? && k == PositionParam ==> r.value == PositionCell(v.v.x, v.v.y)
    ensures r.Success? && k == StringParam ==> r.value == StringCell(Some(CString(v.s)))
  {
    match k
    case BoolParam | DoubleParam =>
      (match AsFloat(v)
       case Some(x) => Success(DoubleCell(x))
       case None => Failure(TypeMismatch))
    case ColourParam =>
      if v.ColourValue? then Success(ColourCell(narrow(v.c.r), narrow(v.c.g), narrow(v.c.b)))
      else Failure(TypeMismatch)
    case PositionParam =>
      if v.VectorValue? then Success(PositionCell(v.v.x, v.v.y)) else Failure(TypeMismatch)
    case StringParam =>
      if v.TextValue? then Success(StringCell(Some(CString(v.s)))) else Failure(TypeMismatch)
  }

  /** The shape of host value each parameter type decodes to. */
  predicate HasKind(k: ParamKind, v: HostValue)
  {
    match k
    case BoolParam => v.BoolValue?
    case DoubleParam => v.RealValue?
    case ColourParam => v.ColourValue?
    case PositionParam => v.VectorValue?
    case StringParam => v.TextValue?
  }

  /** Decode the cell a native `f0r_get_param_value` filled in. A null string pointer
      cannot be decoded (`None.decode()` raises); a string is read up to its first NUL. */
  function FromF0r(k: ParamKind, c: NativeCell): (r: Result<HostValue, Error>)
    requires CellFits(k, c)
    ensures r.Failure? <==> (k == StringParam && c.p.None?)
    ensures r.Failure? ==> r.error == NullString
    ensures r.Success? ==> HasKind(k, r.value)
    ensures r.Success? && k == BoolParam ==> (r.value.b <==> c.d >= 0.5)
    ensures r.Success? && k == DoubleParam ==> r.value.x == c.d
    ensures r.Success? && k == ColourParam ==>
              r.value.c == Colour(c.r, c.g, c.b, 1.0)
    ensures r.Success? && k == PositionParam ==> r.value.v == Vector(c.x, c.y)
    ensures r.Success? && k == StringParam ==> r.value.s == CString(c.p.value)
  {
    match k
    case BoolParam => Success(BoolValue(c.d >= 0.5))
    case DoubleParam => Success(RealValue(c.d))
    case ColourParam => Success(ColourValue(Colour(c.r, c.g, c.b, 1.0)))
    case PositionParam => Success(VectorValue(Vector(c.x, c.y)))
    case StringParam =>
      (match c.p
       case Some(s) => Success(TextValue(CString(s)))
       case None => Failure(NullString))
  }

  /** What a value stored by `to_f0r` reads back as, stated per parameter type
      independently of the codec: bools survive exactly, numbers given to a bool
      parameter read back as "at least one half", doubles and positions are copied,
      text is cut at its first NUL, and a colour keeps its narrowed channels with alpha
      forced to 1. */
  function ReadBack(k: ParamKind, v: HostValue, narrow: real -> real): HostValue
    requires Accepts(k, v)
  {
    match k
    case BoolParam => if v.BoolValue? then v else BoolValue(v.x >= 0.5)
    case DoubleParam => if v.RealValue? then v else RealValue(if v.b then 1.0 else 0.0)
    case ColourParam => ColourValue(Colour(narrow(v.c.r), narrow(v.c.g), narrow(v.c.b), 1.0))
    case PositionParam => v
    case StringParam => TextValue(CString(v.s))
  }

  /** Decoding what was encoded gives `ReadBack`: the codec round trip. */
  lemma RoundTrip(k: ParamKind, v: HostValue, narrow: real -> real)
    requires Accepts(k, v)
    ensures ToF0r(k, v, narrow).Success?
    ensures FromF0r(k, ToF0r(k, v, narrow).value) == Success(ReadBack(k, v, narrow))
  {
    if k == StringParam {
      CStringStable(v.s);
    }
  }

  /** A bool survives the round trip; a colour survives it exactly when its channels
      are already 32-bit floats and its alpha is 1. */
  lemma BoolAndColourRoundTrip(b: bool, c: Colour, narrow: real -> real)
    ensures FromF0r(BoolParam, ToF0r(BoolParam, BoolValue(b), narrow).value) == Success(BoolValue(b))
    ensures narrow(c.r) == c.r && narrow(c.g) == c.g && narrow(c.b) == c.b && c.a == 1.0 ==>
              FromF0r(ColourParam, ToF0r(ColourParam, ColourValue(c), narrow).value) == Success(ColourValue(c))
  {
    RoundTrip(BoolParam, BoolValue(b), narrow);
    RoundTrip(ColourParam, ColourValue(c), narrow);
  }

  /** The bool threshold: 0.5 itself reads as true, anything below as false. */
  lemma BoolThreshold(d: real)
    ensures FromF0r(BoolParam, DoubleCell(0.5)) == Success(BoolValue(true))
    ensures d < 0.5 ==> FromF0r(BoolParam, DoubleCell(d)) == Success(BoolValue(false))
  {
  }
}
