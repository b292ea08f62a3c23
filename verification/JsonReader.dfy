/** Reading back what `stableJson` prints, after RFC 8259 and without a look at the printer: which text stands for which value. */
module JsonReader {
  import opened Wrappers
  import opened Texts
  import opened KeyedSort
  import opened Json
  import opened CanonicalJson

  /** What was read, and the text after it. */
  datatype Read<+T> = Got(value: T, rest: Text) | Bad

  // ---- Strings ----

  predicate High(c: CodeUnit) { 0xD800 <= c <= 0xDBFF }

  predicate Low(c: CodeUnit) { 0xDC00 <= c <= 0xDFFF }

  /** The character that a backslash and this one stand for, where there is such a short form. */
  function ShortForm(c: CodeUnit): Option<CodeUnit> {
    match c
    case 34 => Some(34)
    case 92 => Some(92)
    case 98 => Some(8)
    case 116 => Some(9)
    case 110 => Some(10)
    case 102 => Some(12)
    case 114 => Some(13)
    case _ => None
  }

  /** The characters that are written with `\u`: control characters without a short form, and surrogates standing alone. */
  predicate LongForm(c: CodeUnit) {
    (c < 32 && c != 8 && c != 9 && c != 10 && c != 12 && c != 13) || High(c) || Low(c)
  }

  function HexUnit(c: CodeUnit): Option<nat> {
    if 48 <= c <= 57 then Some(c - 48) else if 97 <= c <= 102 then Some(c - 87) else None
  }

  /** The value of four hexadecimal digits, in lower case as `JSON.stringify` writes them. */
  function ReadHex(a: CodeUnit, b: CodeUnit, c: CodeUnit, d: CodeUnit): Option<CodeUnit> {
    if HexUnit(a).Some? && HexUnit(a).value < 16 && HexUnit(b).Some? && HexUnit(b).value < 16
       && HexUnit(c).Some? && HexUnit(c).value < 16 && HexUnit(d).Some? && HexUnit(d).value < 16
    then Some(4096 * HexUnit(a).value + 256 * HexUnit(b).value + 16 * HexUnit(c).value + HexUnit(d).value)
    else None
  }

  function Prepend(head: Text, r: Read<Text>): Read<Text> {
    if r.Bad? then Bad else Got(head + r.value, r.rest)
  }

  /** The characters up to the closing quotation mark (section 7 of RFC 8259). The reader is as strict as `JSON.stringify` is:
      nothing is escaped needlessly, and a surrogate pair stands unescaped. */
  function ReadChars(t: Text): (r: Read<Text>)
    ensures r.Got? ==> |r.rest| < |t|
    decreases |t|
  {
    if t == [] then Bad
    else if t[0] == 34 then Got([], t[1..])
    else if t[0] == 92 then
      if |t| >= 2 && ShortForm(t[1]).Some? then Prepend([ShortForm(t[1]).value], ReadChars(t[2..]))
      else if |t| >= 6 && t[1] == 117 && ReadHex(t[2], t[3], t[4], t[5]).Some? then
        ReadLong(ReadHex(t[2], t[3], t[4], t[5]).value, ReadChars(t[6..]))
      else Bad
    else if t[0] < 32 || Low(t[0]) then Bad
    else if High(t[0]) then if |t| >= 2 && Low(t[1]) then Prepend(t[..2], ReadChars(t[2..])) else Bad
    else Prepend(t[..1], ReadChars(t[1..]))
  }

  function ReadLong(c: CodeUnit, r: Read<Text>): Read<Text> {
    if !LongForm(c) || (r.Got? && r.value != [] && High(c) && Low(r.value[0])) then Bad else Prepend([c], r)
  }

  // ---- Numbers ----

  predicate Numeral(c: CodeUnit) {
    48 <= c <= 57 || c == 45 || c == 43 || c == 46 || c == 101
  }

  function NumeralEnd(t: Text, i: nat): (n: nat)
    requires i <= |t|
    ensures i <= n <= |t|
    decreases |t| - i
  {
    if i < |t| && Numeral(t[i]) then NumeralEnd(t, i + 1) else i
  }

  /** The number that decimal digits stand for. */
  function Value(digits: Text): int {
    if digits == [] then 0 else 10 * Value(digits[..|digits| - 1]) + (digits[|digits| - 1] as int - 48)
  }

  /** A numeral with a fraction or an exponent stands for itself, any other for an integer. */
  function ReadNumeral(t: Text): Number
    requires t != []
  {
    if 46 in t || 101 in t then Printed(t) else if t[0] == 45 then Whole(-Value(t[1..])) else Whole(Value(t))
  }

  // ---- Values ----

  function Literal(t: Text, name: Text, v: Json): (r: Read<Json>)
    ensures r.Got? && name != [] ==> |r.rest| < |t|
  {
    if name <= t then Got(v, t[|name|..]) else Bad
  }

  /** A value (section 3 of RFC 8259, without white space), and, as the printer leaves them, a bare `undefined` and an empty
      place in an array for `undefined`. */
  function ReadValue(t: Text): (r: Read<Json>)
    ensures r.Got? ==> |r.rest| < |t|
    decreases |t|, 0
  {
    if t == [] then Bad
    else if t[0] == 34 then
      var r := ReadChars(t[1..]);
      if r.Bad? then Bad else Got(Str(r.value), r.rest)
    else if t[0] == 91 then
      if |t| >= 2 && t[1] == 93 then Got(Arr([]), t[2..])
      else
        var r := ReadItems(t[1..]);
        if r.Bad? then Bad else Got(Arr(r.value), r.rest)
    else if t[0] == 123 then
      if |t| >= 2 && t[1] == 125 then Got(Obj([]), t[2..])
      else
        var r := ReadFields(t[1..]);
        if r.Bad? then Bad else Got(Obj(r.value), r.rest)
    else if t[0] == 116 then Literal(t, [116, 114, 117, 101], Bool(true))
    else if t[0] == 102 then Literal(t, [102, 97, 108, 115, 101], Bool(false))
    else if t[0] == 110 then Literal(t, [110, 117, 108, 108], Null)
    else if t[0] == 117 then Literal(t, [117, 110, 100, 101, 102, 105, 110, 101, 100], Undefined)
    else if Numeral(t[0]) then
      var n := NumeralEnd(t, 1);
      Got(Num(ReadNumeral(t[..n])), t[n..])
    else Bad
  }

  function ReadSlot(t: Text): (r: Read<Json>)
    ensures r.Got? ==> |r.rest| <= |t|
    decreases |t|, 1
  {
    if t != [] && (t[0] == 44 || t[0] == 93) then Got(Undefined, t) else ReadValue(t)
  }

  /** The elements up to the closing bracket. */
  function ReadItems(t: Text): (r: Read<seq<Json>>)
    ensures r.Got? ==> |r.rest| < |t|
    decreases |t|, 2
  {
    var v := ReadSlot(t);
    if v.Bad? || v.rest == [] then Bad
    else if v.rest[0] == 93 then Got([v.value], v.rest[1..])
    else if v.rest[0] != 44 then Bad
    else
      var r := ReadItems(v.rest[1..]);
      if r.Bad? then Bad else Got([v.value] + r.value, r.rest)
  }

  /** The members up to the closing brace. */
  function ReadFields(t: Text): (r: Read<seq<Keyed<Json>>>)
    ensures r.Got? ==> |r.rest| < |t|
    decreases |t|, 2
  {
    if t == [] || t[0] != 34 then Bad
    else
      var k := ReadChars(t[1..]);
      if k.Bad? || k.rest == [] || k.rest[0] != 58 then Bad
      else
        var v := ReadValue(k.rest[1..]);
        if v.Bad? || v.rest == [] then Bad
        else if v.rest[0] == 125 then Got([Keyed(k.value, v.value)], v.rest[1..])
        else if v.rest[0] != 44 then Bad
        else
          var r := ReadFields(v.rest[1..]);
          if r.Bad? then Bad else Got([Keyed(k.value, v.value)] + r.value, r.rest)
  }

  // ---- Strings and numbers read back ----

  lemma ReadHex4(c: CodeUnit)
    ensures var h := Hex4(c); |h| == 4 && ReadHex(h[0], h[1], h[2], h[3]) == Some(c)
  {
    HexValue(c);
  }

  lemma ReadsLong(c: CodeUnit, rest: Text)
    ensures ReadChars([92, 117] + Hex4(c) + rest) == ReadLong(c, ReadChars(rest))
  {
    var h := Hex4(c);
    var t := [92, 117] + h + rest;
    ReadHex4(c);
    assert t[0] == 92 && t[1] == 117 && t[2] == h[0] && t[3] == h[1] && t[4] == h[2] && t[5] == h[3] && t[6..] == rest;
  }

  lemma ReadsShort(c: CodeUnit, rest: Text)
    requires ShortForm(c).Some?
    ensures ReadChars([92, c] + rest) == Prepend([ShortForm(c).value], ReadChars(rest))
  {
    var t := [92, c] + rest;
    assert t[0] == 92 && t[1] == c && t[2..] == rest;
  }

  lemma ReadsPlain(c: CodeUnit, rest: Text)
    requires c >= 32 && c != 34 && c != 92 && !High(c) && !Low(c)
    ensures ReadChars([c] + rest) == Prepend([c], ReadChars(rest))
  {
    var t := [c] + rest;
    assert t[..1] == [c] && t[1..] == rest;
  }

  lemma ReadsPair(a: CodeUnit, b: CodeUnit, rest: Text)
    requires High(a) && Low(b)
    ensures ReadChars([a, b] + rest) == Prepend([a, b], ReadChars(rest))
  {
    var t := [a, b] + rest;
    assert t[..2] == [a, b] && t[2..] == rest;
  }

  lemma ReadsChunk(s: Text, rest: Text, x: Text)
    requires s != [] && ReadChars(rest) == Got(s[ChunkLength(s)..], x)
    ensures ReadChars(Chunk(s) + rest) == Got(s, x)
  {
    var c := s[0];
    if ChunkLength(s) == 2 {
      ReadsPair(c, s[1], rest);
      assert [c, s[1]] + s[2..] == s;
    } else {
      assert [c] + s[1..] == s;
      if c == 34 || c == 92 {
        ReadsShort(c, rest);
      } else if c == 8 || c == 9 || c == 10 || c == 12 || c == 13 {
        ReadsShort(Chunk(s)[1], rest);
      } else if c < 32 || Lead(c) || Trail(c) {
        ReadsLong(c, rest);
        assert |s| >= 2 ==> s[1..][0] == s[1];
      } else {
        ReadsPlain(c, rest);
      }
    }
  }

  /** Reading what a string is escaped to, up to the closing quotation mark, gives the string. */
  lemma {:induction false} ReadsEscaped(s: Text, x: Text)
    ensures ReadChars(Rest(s, x)) == Got(s, x)
  {
    RestOpens(s, x);
    if s == [] {
      assert Rest(s, x)[1..] == x;
    } else {
      ReadsEscaped(s[ChunkLength(s)..], x);
      ReadsChunk(s, Rest(s[ChunkLength(s)..], x), x);
    }
  }

  lemma {:induction false} ValueOfDigits(n: nat)
    ensures Value(Digits(n)) == n
  {
    if n >= 10 {
      ValueOfDigits(n / 10);
      var t := Digits(n);
      assert t[..|t| - 1] == Digits(n / 10);
    } else {
      assert Digits(n)[..0] == [];
    }
  }

  lemma ReadsNumber(x: Number)
    requires ValidNumber(x)
    ensures NumberText(x) != [] && ReadNumeral(NumberText(x)) == x
  {
    NumberUnits(x);
    if x.Whole? {
      DecimalSign(x.n);
      if x.n < 0 {
        assert Decimal(x.n)[1..] == Digits(-x.n);
        ValueOfDigits(-x.n);
      } else {
        ValueOfDigits(x.n);
      }
    }
  }

  lemma {:induction false} NumeralEndAt(p: Text, x: Text, i: nat)
    requires i <= |p| && (forall c :: c in p ==> Numeral(c)) && (x == [] || !Numeral(x[0]))
    ensures NumeralEnd(p + x, i) == |p|
    decreases |p| - i
  {
    if i < |p| {
      assert (p + x)[i] == p[i] && p[i] in p;
      NumeralEndAt(p, x, i + 1);
    }
  }

  // ---- Values read back ----

  lemma ReadsLiteral(name: Text, x: Text, v: Json)
    ensures Literal(name + x, name, v) == Got(v, x)
  {
  }

  lemma ReadsStr(s: Text, x: Text)
    ensures ReadValue(Quote(s) + x) == Got(Str(s), x)
  {
    var t := Quote(s) + x;
    assert t == [34] + Rest(s, x);
    assert t[1..] == Rest(s, x);
    ReadsEscaped(s, x);
  }

  lemma ReadsNum(n: Number, x: Text)
    requires ValidNumber(n) && Closed(x)
    ensures ReadValue(NumberText(n) + x) == Got(Num(n), x)
  {
    var p := NumberText(n);
    var t := p + x;
    NumberUnits(n);
    ReadsNumber(n);
    assert p[0] in p && t[0] == p[0];
    NumeralEndAt(p, x, 1);
    assert t[..|p|] == p && t[|p|..] == x;
  }

  lemma ReadsWord(v: Json, x: Text)
    requires v.Undefined? || v.Null? || v.Bool?
    ensures ReadValue(Enc(v) + x) == Got(v, x)
  {
    var name: Text :=
      if v.Undefined? then [117, 110, 100, 101, 102, 105, 110, 101, 100]
      else if v.Null? then [110, 117, 108, 108]
      else if v.b then [116, 114, 117, 101]
      else [102, 97, 108, 115, 101];
    assert Enc(v) == name;
    ReadsLiteral(name, x, v);
    assert (name + x)[0] == name[0];
  }

  lemma {:induction false} ReadsValue(v: Json, x: Text)
    requires CanonicalTree(v) && Closed(x)
    ensures ReadValue(Enc(v) + x) == Got(v, x)
    decreases v, 1
  {
    match v
    case Num(n) => ReadsNum(n, x);
    case Str(s) => ReadsStr(s, x);
    case Arr(s) => ReadsArr(s, x);
    case Obj(f) => ReadsObj(f, x);
    case _ => ReadsWord(v, x);
  }

  lemma OpensArray(t: Text)
    requires t != [] && t[0] != 93
    ensures ReadValue([91] + t) == var r := ReadItems(t); if r.Bad? then Bad else Got(Arr(r.value), r.rest)
  {
    assert ([91] + t)[1..] == t;
  }

  lemma OpensObject(t: Text)
    requires t != [] && t[0] != 125
    ensures ReadValue([123] + t) == var r := ReadFields(t); if r.Bad? then Bad else Got(Obj(r.value), r.rest)
  {
    assert ([123] + t)[1..] == t;
  }

  lemma {:induction false} ReadsArr(s: seq<Json>, x: Text)
    requires CanonicalTree(Arr(s)) && Closed(x)
    ensures ReadValue(Enc(Arr(s)) + x) == Got(Arr(s), x)
    decreases s, 1
  {
    ArrayText(s, x);
    if s == [] {
      assert [91] + ([] + ([93] + x)) == [91, 93] + x;
      assert ([91, 93] + x)[2..] == x;
    } else {
      ItemsNotClosed(s, x);
      OpensArray(EncItems(s) + ([93] + x));
      ReadsItems(s, x);
    }
  }

  lemma {:induction false} ReadsObj(f: seq<Keyed<Json>>, x: Text)
    requires CanonicalTree(Obj(f)) && Closed(x)
    ensures ReadValue(Enc(Obj(f)) + x) == Got(Obj(f), x)
    decreases f, 1
  {
    ObjectText(f, x);
    FieldsOpen(f, x);
    if f == [] {
      assert [123] + ([125] + x) == [123, 125] + x;
      assert ([123, 125] + x)[2..] == x;
    } else {
      OpensObject(EncFields(f) + ([125] + x));
      ReadsFields(f, x);
    }
  }

  lemma {:induction false} ReadsSlot(v: Json, x: Text)
    requires CanonicalTree(v) && x != [] && (x[0] == 44 || x[0] == 93)
    ensures ReadSlot(Slot(v) + x) == Got(v, x)
    decreases v, 2
  {
    SlotOpens(v, x);
    if v.Undefined? {
      assert Slot(v) + x == x;
    } else {
      EncOpens(v);
      ReadsValue(v, x);
    }
  }

  lemma {:induction false} ReadsItems(s: seq<Json>, x: Text)
    requires s != [] && forall i :: 0 <= i < |s| ==> CanonicalTree(s[i])
    ensures ReadItems(EncItems(s) + ([93] + x)) == Got(s, x)
    decreases s, 0
  {
    ItemsSplit(s, x);
    ItemsTailRest(s, x);
    ReadsSlot(s[0], ItemsTail(s, x));
    ReadsItem(s[0], Slot(s[0]), ItemsTail(s, x));
    if |s| > 1 {
      ReadsItems(s[1..], x);
    }
    HeadAndRest(s);
  }

  lemma HeadAndRest<T>(s: seq<T>)
    requires s != []
    ensures s == [s[0]] + s[1..] && (|s| == 1 ==> s == [s[0]])
  {
  }

  lemma ReadsItem(v: Json, slot: Text, tail: Text)
    requires tail != [] && (tail[0] == 44 || tail[0] == 93) && ReadSlot(slot + tail) == Got(v, tail)
    ensures ReadItems(slot + tail) ==
              if tail[0] == 93 then Got([v], tail[1..])
              else var r := ReadItems(tail[1..]); if r.Bad? then Bad else Got([v] + r.value, r.rest)
  {
  }

  lemma FieldsTailRest(s: seq<Keyed<Json>>, x: Text)
    requires s != []
    ensures FieldsTail(s, x)[1..] == if |s| == 1 then x else EncFields(s[1..]) + ([125] + x)
  {
  }

  lemma ReadsKey(key: Text, t: Text)
    ensures var k := Quote(key) + ([58] + t);
            k != [] && k[0] == 34 && ReadChars(k[1..]) == Got(key, [58] + t) && ([58] + t)[1..] == t
  {
    var k := Quote(key) + ([58] + t);
    assert k == [34] + Rest(key, [58] + t);
    assert k[1..] == Rest(key, [58] + t);
    ReadsEscaped(key, [58] + t);
  }

  lemma {:induction false} ReadsFields(s: seq<Keyed<Json>>, x: Text)
    requires s != [] && forall i :: 0 <= i < |s| ==> CanonicalTree(s[i].val)
    ensures ReadFields(EncFields(s) + ([125] + x)) == Got(s, x)
    decreases s, 0
  {
    FieldsSplit(s, x);
    FieldsTailRest(s, x);
    ReadsValue(s[0].val, FieldsTail(s, x));
    ReadsField(s[0], FieldsTail(s, x));
    if |s| > 1 {
      ReadsFields(s[1..], x);
    }
    HeadAndRest(s);
  }

  lemma ReadsField(f: Keyed<Json>, tail: Text)
    requires tail != [] && (tail[0] == 44 || tail[0] == 125) && ReadValue(Enc(f.val) + tail) == Got(f.val, tail)
    ensures ReadFields(Quote(f.key) + ([58] + (Enc(f.val) + tail))) ==
              if tail[0] == 125 then Got([f], tail[1..])
              else var r := ReadFields(tail[1..]); if r.Bad? then Bad else Got([f] + r.value, r.rest)
  {
    ReadsKey(f.key, Enc(f.val) + tail);
  }

  // ---- What `stableJson` prints ----

  /** The keys of every object in the tree stand in code-unit order. */
  ghost predicate KeysInOrder(v: Json) {
    match v
    case Arr(items) => forall i :: 0 <= i < |items| ==> KeysInOrder(items[i])
    case Obj(fields) =>
      && (forall i, j :: 0 <= i < j < |fields| ==> ComesBefore(fields[i].key, fields[j].key))
      && forall i :: 0 <= i < |fields| ==> KeysInOrder(fields[i].val)
    case _ => true
  }

  lemma SortedInOrder(s: seq<Keyed<Json>>)
    requires Sorted(s) && DistinctKeys(s)
    ensures forall i, j :: 0 <= i < j < |s| ==> ComesBefore(s[i].key, s[j].key)
  {
    forall i, j | 0 <= i < j < |s| ensures ComesBefore(s[i].key, s[j].key) {
      LessTotal(s[i].key, s[j].key);
      LessExactly(s[i].key, s[j].key);
    }
  }

  /** A canonical tree is in order, holds nothing that printing loses, and is its own canonical tree. */
  lemma {:induction false} CanonSettled(v: Json)
    requires WellFormed(v)
    ensures WellFormed(Canon(v)) && Plain(Canon(v)) && Canon(Canon(v)) == Canon(v) && KeysInOrder(Canon(v))
    ensures Canon(v).Undefined? <==> v.Undefined?
  {
    match v
    case Arr(items) =>
      forall i | 0 <= i < |items| ensures Settled(items[i]) {
        CanonSettled(items[i]);
      }
      if !LoneUndefined(items) {
        ItemsSettled(items);
      }
    case Obj(fields) =>
      forall i | 0 <= i < |fields| ensures Settled(fields[i].val) {
        CanonSettled(fields[i].val);
      }
      FieldsSettled(fields);
    case _ =>
  }

  ghost predicate Settled(v: Json) {
    && WellFormed(Canon(v)) && Plain(Canon(v)) && Canon(Canon(v)) == Canon(v) && KeysInOrder(Canon(v))
    && (Canon(v).Undefined? <==> v.Undefined?)
  }

  lemma ItemsSettled(items: seq<Json>)
    requires !LoneUndefined(items) && forall i :: 0 <= i < |items| ==> Settled(items[i])
    ensures Settled(Arr(items))
  {
    var c := CanonItems(items);
    forall i | 0 <= i < |c| ensures c[i] == Canon(items[i]) && Settled(items[i]) {
    }
    assert !LoneUndefined(c);
    assert CanonItems(c) == c;
  }

  ghost predicate SettledTree(v: Json) {
    WellFormed(v) && Plain(v) && Canon(v) == v && KeysInOrder(v)
  }

  lemma FieldsSettled(fields: seq<Keyed<Json>>)
    requires DistinctKeys(fields) && forall i :: 0 <= i < |fields| ==> Settled(fields[i].val)
    ensures Settled(Obj(fields))
  {
    var c := CanonFields(fields);
    SortSorted(c);
    CanonDistinct(fields);
    forall i | 0 <= i < |c| ensures SettledTree(c[i].val) {
      assert Settled(fields[i].val);
    }
    SortKeeps(c, (f: Keyed<Json>) => SettledTree(f.val));
    SortedSettled(Sort(c));
  }

  lemma SortKeeps<T>(s: seq<Keyed<T>>, p: Keyed<T> -> bool)
    requires forall i :: 0 <= i < |s| ==> p(s[i])
    ensures forall i :: 0 <= i < |Sort(s)| ==> p(Sort(s)[i])
  {
    SortMembers(s);
    forall i | 0 <= i < |Sort(s)| ensures p(Sort(s)[i]) {
      var j :| 0 <= j < |s| && s[j] == Sort(s)[i];
    }
  }

  lemma SortedSettled(s: seq<Keyed<Json>>)
    requires Sorted(s) && DistinctKeys(s) && forall i :: 0 <= i < |s| ==> SettledTree(s[i].val)
    ensures SettledTree(Obj(s))
  {
    SortedInOrder(s);
    SortOfSorted(s);
    ItselfFields(s);
    assert WellFormed(Obj(s)) && Plain(Obj(s));
  }

  lemma ItselfFields(s: seq<Keyed<Json>>)
    requires forall i :: 0 <= i < |s| ==> Canon(s[i].val) == s[i].val
    ensures CanonFields(s) == s
  {
  }

  lemma SortOfSorted<T>(s: seq<Keyed<T>>)
    requires Sorted(s) && DistinctKeys(s)
    ensures Sort(s) == s
  {
    SortSorted(s);
    SameElements(Sort(s), s);
    KeysMultiset(Sort(s), s);
    DistinctMultiset(Keys(s), Keys(Sort(s)));
    KeysDistinct(Sort(s));
    SortedUnique(Sort(s), s);
  }

  lemma KeysDistinct<T>(s: seq<Keyed<T>>)
    requires forall i, j :: 0 <= i < j < |Keys(s)| ==> Keys(s)[i] != Keys(s)[j]
    ensures DistinctKeys(s)
  {
    forall i, j | 0 <= i < j < |s| ensures s[i].key != s[j].key {
      assert Keys(s)[i] != Keys(s)[j];
    }
  }

  /** What is printed reads back, with nothing left over, as a value equal to the one printed up to the order of object keys
      (after the two collapses), whose keys stand in code-unit order. */
  lemma PrintReadsBack(v: Json)
    requires WellFormed(v)
    ensures ReadValue(Print(v)) == Got(Canon(v), [])
    ensures EqualUpToKeyOrder(Canon(v), Collapse(v)) && KeysInOrder(Canon(v))
  {
    CanonTree(v);
    PrintIsEncCanon(v);
    ReadsValue(Canon(v), []);
    assert Enc(Canon(v)) + [] == Enc(Canon(v));
    CanonSettled(v);
    CollapsePlain(v);
    CanonSame(Canon(v), Collapse(v));
  }
}
