/** `stableJson` is canonical and uniquely decodable: two values print the same exactly when they
    are equal up to the order of object keys, apart from two collapses that are stated exactly. */
module CanonicalJson {
  import opened Texts
  import opened KeyedSort
  import opened Json

  // ---- Equality up to key order, and the values the printer keeps apart ----

  /** Equality of values when the order of the fields of an object does not matter, at any depth. */
  ghost predicate EqualUpToKeyOrder(a: Json, b: Json)
    decreases a, 1
  {
    match (a, b)
    case (Arr(s), Arr(t)) =>
      |s| == |t| && forall i :: 0 <= i < |s| ==> EqualUpToKeyOrder(s[i], t[i])
    case (Obj(f), Obj(g)) =>
      && (forall i :: 0 <= i < |f| ==> HasCounterpart(f[i], g))
      && (forall j :: 0 <= j < |g| ==> IsCounterpart(f, g[j]))
    case _ => a == b
  }

  // The field has an equal one, under the same key, in `g`.
  ghost predicate HasCounterpart(x: Keyed<Json>, g: seq<Keyed<Json>>)
    decreases x, 0
  {
    exists j :: 0 <= j < |g| && x.key == g[j].key && EqualUpToKeyOrder(x.val, g[j].val)
  }

  // Some field of `f` is equal to this one and has the same key.
  ghost predicate IsCounterpart(f: seq<Keyed<Json>>, y: Keyed<Json>)
    decreases f, 0
  {
    exists i :: 0 <= i < |f| && f[i].key == y.key && EqualUpToKeyOrder(f[i].val, y.val)
  }

  /** The value holds no `NaN` or infinity, and no array whose only element is `undefined`. */
  predicate Plain(v: Json) {
    match v
    case NonFinite => false
    case Arr(items) => !LoneUndefined(items) && forall i :: 0 <= i < |items| ==> Plain(items[i])
    case Obj(fields) => forall i :: 0 <= i < |fields| ==> Plain(fields[i].val)
    case _ => true
  }

  predicate LoneUndefined(items: seq<Json>) {
    |items| == 1 && items[0].Undefined?
  }

  /** What printing loses: a non-finite number becomes `null` and `[undefined]` becomes `[]`. */
  function Collapse(v: Json): Json {
    match v
    case NonFinite => Null
    case Arr(items) =>
      if LoneUndefined(items) then Arr([])
      else Arr(seq(|items|, i requires 0 <= i < |items| => Collapse(items[i])))
    case Obj(fields) =>
      Obj(seq(|fields|, i requires 0 <= i < |fields| => Keyed(fields[i].key, Collapse(fields[i].val))))
    case _ => v
  }

  // ---- The canonical tree: keys sorted at every level, `NaN` and the infinities as `null` ----

  function Canon(v: Json): Json {
    match v
    case NonFinite => Null
    case Arr(items) => if LoneUndefined(items) then Arr([]) else Arr(CanonItems(items))
    case Obj(fields) => Obj(Sort(CanonFields(fields)))
    case _ => v
  }

  function CanonItems(items: seq<Json>): (r: seq<Json>)
    ensures |r| == |items|
    ensures forall i :: 0 <= i < |r| ==> r[i] == Canon(items[i])
  {
    seq(|items|, i requires 0 <= i < |items| => Canon(items[i]))
  }

  function CanonFields(fields: seq<Keyed<Json>>): (r: seq<Keyed<Json>>)
    ensures |r| == |fields|
    ensures forall i :: 0 <= i < |r| ==> r[i] == Keyed(fields[i].key, Canon(fields[i].val))
  {
    seq(|fields|, i requires 0 <= i < |fields| => Keyed(fields[i].key, Canon(fields[i].val)))
  }

  // Printing without sorting.
  function Enc(v: Json): Text
    decreases v, 1
  {
    match v
    case Undefined => UNDEFINED
    case Null => NULL
    case NonFinite => NULL
    case Bool(b) => BoolText(b)
    case Num(x) => NumberText(x)
    case Str(s) => Quote(s)
    case Arr(items) => [91] + EncItems(items) + [93]
    case Obj(fields) => [123] + EncFields(fields) + [125]
  }

  function Slot(v: Json): Text
    decreases v, 2
  {
    if v.Undefined? then [] else Enc(v)
  }

  function EncItems(items: seq<Json>): Text
    decreases items, 0
  {
    if items == [] then [] else if |items| == 1 then Slot(items[0]) else Slot(items[0]) + [44] + EncItems(items[1..])
  }

  function EncField(f: Keyed<Json>): Text
    decreases f, 0
  {
    Quote(f.key) + [58] + Enc(f.val)
  }

  function EncFields(fields: seq<Keyed<Json>>): Text
    decreases fields, 0
  {
    if fields == [] then [] else if |fields| == 1 then EncField(fields[0]) else EncField(fields[0]) + [44] + EncFields(fields[1..])
  }

  // ---- Encoded strings and numbers are self-delimiting ----

  lemma Regroup(p: Text, q: Text, x: Text)
    ensures (p + q) + x == p + (q + x)
  {
  }

  lemma HexValue(c: CodeUnit)
    ensures c == 4096 * (c / 4096) + 256 * (c / 256 % 16) + 16 * (c / 16 % 16) + c % 16
  {
    assert c / 256 == c / 16 / 16 && c / 4096 == c / 256 / 16;
  }

  lemma HexInjective(c: CodeUnit, d: CodeUnit)
    requires Hex4(c) == Hex4(d)
    ensures c == d
  {
    HexValue(c);
    HexValue(d);
    var s, t := Hex4(c), Hex4(d);
    assert c / 4096 == d / 4096 by { assert s[0] == t[0]; }
    assert c / 256 % 16 == d / 256 % 16 by { assert s[1] == t[1]; }
    assert c / 16 % 16 == d / 16 % 16 by { assert s[2] == t[2]; }
    assert c % 16 == d % 16 by { assert s[3] == t[3]; }
  }

  lemma ChunkUnits(s: Text)
    requires s != []
    ensures Chunk(s) != [] && Chunk(s)[0] != 34
    ensures Chunk(s)[0] == 92 ==> |Chunk(s)| >= 2 && (Chunk(s)[1] == 117 ==> |Chunk(s)| == 6)
  {
  }

  lemma ChunkPrefix(s: Text, t: Text, x: Text, y: Text)
    requires s != [] && t != []
    requires Chunk(s) + x == Chunk(t) + y
    ensures ChunkLength(s) == ChunkLength(t)
    ensures s[..ChunkLength(s)] == t[..ChunkLength(t)]
    ensures x == y
  {
    var u := Chunk(s) + x;
    var c, d := Chunk(s), Chunk(t);
    assert c[0] == u[0] == d[0];
    assert |c| >= 2 ==> c[1] == u[1];
    assert |d| >= 2 ==> d[1] == u[1];
    assert |c| == |d|;
    assert c == u[..|c|] == d;
    assert x == u[|c|..] == y;
    if |c| == 6 {
      assert c[2..] == Hex4(s[0]) && d[2..] == Hex4(t[0]);
      HexInjective(s[0], t[0]);
    }
  }

  // The escaped string with its closing quote and what follows.
  function Rest(s: Text, x: Text): Text {
    Escape(s) + ([34] + x)
  }

  lemma RestOpens(s: Text, x: Text)
    ensures Rest(s, x) != [] && (Rest(s, x)[0] == 34 <==> s == [])
    ensures s != [] ==> Rest(s, x) == Chunk(s) + Rest(s[ChunkLength(s)..], x)
  {
    if s != [] {
      ChunkUnits(s);
      Regroup(Chunk(s), Escape(s[ChunkLength(s)..]), [34] + x);
    }
  }

  lemma {:induction false} EscapePrefix(s: Text, t: Text, x: Text, y: Text)
    requires Rest(s, x) == Rest(t, y)
    ensures s == t && x == y
    decreases |s|
  {
    RestOpens(s, x);
    RestOpens(t, y);
    if s != [] {
      var m, n := ChunkLength(s), ChunkLength(t);
      ChunkPrefix(s, t, Rest(s[m..], x), Rest(t[n..], y));
      EscapePrefix(s[m..], t[n..], x, y);
      assert s == s[..m] + s[m..] && t == t[..n] + t[n..];
    } else {
      assert Rest(s, x) == [34] + x && Rest(t, y) == [34] + y;
      Cancel([34], x, y);
    }
  }

  lemma QuotePrefix(s: Text, t: Text, x: Text, y: Text)
    requires Quote(s) + x == Quote(t) + y
    ensures s == t && x == y
  {
    assert Quote(s) + x == [34] + Rest(s, x);
    assert Quote(t) + y == [34] + Rest(t, y);
    Cancel([34], Rest(s, x), Rest(t, y));
    EscapePrefix(s, t, x, y);
  }

  lemma NumberUnits(x: Number)
    requires ValidNumber(x)
    ensures NumberText(x) != []
    ensures forall c :: c in NumberText(x) ==> NumeralUnit(c)
  {
  }

  lemma NumberTextInjective(x: Number, y: Number)
    requires ValidNumber(x) && ValidNumber(y) && NumberText(x) == NumberText(y)
    ensures x == y
  {
    if x.Whole? && y.Whole? {
      DecimalInjective(x.n, y.n);
    }
  }

  // What may follow a value inside a larger text: nothing, or a comma or a closing bracket.
  predicate Closed(x: Text) {
    x == [] || x[0] == 44 || x[0] == 93 || x[0] == 125
  }

  lemma NumeralContinues(s: Text, t: Text, x: Text, y: Text)
    requires forall c :: c in t ==> NumeralUnit(c)
    requires s + x == t + y && |s| < |t|
    ensures x != [] && NumeralUnit(x[0])
  {
    assert |s + x| == |t + y|;
    assert x[0] == (s + x)[|s|] == t[|s|];
  }

  lemma NumeralPrefix(s: Text, t: Text, x: Text, y: Text)
    requires forall c :: c in s ==> NumeralUnit(c)
    requires forall c :: c in t ==> NumeralUnit(c)
    requires Closed(x) && Closed(y) && s + x == t + y
    ensures s == t && x == y
  {
    if |s| < |t| {
      NumeralContinues(s, t, x, y);
    } else if |t| < |s| {
      NumeralContinues(t, s, y, x);
    }
    assert s == (s + x)[..|s|] && t == (t + y)[..|t|];
    Cancel(s, x, y);
  }

  // ---- Printing canonical trees is injective, also inside a larger text ----

  predicate CanonicalTree(v: Json) {
    match v
    case NonFinite => false
    case Num(x) => ValidNumber(x)
    case Arr(items) => !LoneUndefined(items) && forall i :: 0 <= i < |items| ==> CanonicalTree(items[i])
    case Obj(fields) => forall i :: 0 <= i < |fields| ==> CanonicalTree(fields[i].val)
    case _ => true
  }

  // The first code unit tells the kind of value.
  function Opening(v: Json): CodeUnit {
    match v
    case Undefined => 117
    case Null => 110
    case NonFinite => 110
    case Bool(b) => if b then 116 else 102
    case Num(x) => if NumberText(x) == [] then 0 else NumberText(x)[0]
    case Str(s) => 34
    case Arr(items) => 91
    case Obj(fields) => 123
  }

  lemma EncOpens(v: Json)
    requires CanonicalTree(v)
    ensures Enc(v) != [] && Enc(v)[0] == Opening(v)
    ensures v.Num? <==> NumeralUnit(Opening(v))
  {
    if v.Num? {
      NumberUnits(v.x);
      assert NumberText(v.x)[0] in NumberText(v.x);
    }
  }

  lemma {:induction false} ValuePrefix(a: Json, b: Json, x: Text, y: Text)
    requires CanonicalTree(a) && CanonicalTree(b) && Closed(x) && Closed(y)
    requires Enc(a) + x == Enc(b) + y
    ensures a == b && x == y
    decreases a, 1
  {
    var u := Enc(a) + x;
    EncOpens(a);
    EncOpens(b);
    assert u[0] == Opening(a) == Opening(b);
    match a
    case Num(m) =>
      NumberUnits(m);
      NumberUnits(b.x);
      NumeralPrefix(NumberText(m), NumberText(b.x), x, y);
      NumberTextInjective(m, b.x);
    case Str(s) =>
      QuotePrefix(s, b.s, x, y);
    case Arr(s) =>
      ArrayText(s, x);
      ArrayText(b.items, y);
      Cancel([91], EncItems(s) + ([93] + x), EncItems(b.items) + ([93] + y));
      ItemsPrefix(s, b.items, x, y);
    case Obj(f) =>
      ObjectText(f, x);
      ObjectText(b.fields, y);
      Cancel([123], EncFields(f) + ([125] + x), EncFields(b.fields) + ([125] + y));
      FieldsPrefix(f, b.fields, x, y);
    case _ =>
      Cancel(Enc(a), x, y);
  }

  lemma ArrayText(s: seq<Json>, x: Text)
    ensures Enc(Arr(s)) + x == [91] + (EncItems(s) + ([93] + x))
  {
  }

  lemma ObjectText(f: seq<Keyed<Json>>, x: Text)
    ensures Enc(Obj(f)) + x == [123] + (EncFields(f) + ([125] + x))
  {
  }

  // The text after the first of several elements: the rest, or the closing bracket.
  function ItemsTail(s: seq<Json>, x: Text): Text
    requires s != []
  {
    if |s| == 1 then [93] + x else [44] + (EncItems(s[1..]) + ([93] + x))
  }

  lemma SlotPrefix(a: Json, b: Json, x: Text, y: Text)
    requires CanonicalTree(a) && CanonicalTree(b) && x != [] && y != [] && Closed(x) && Closed(y)
    requires Slot(a) + x == Slot(b) + y
    ensures a == b && x == y
    decreases a, 2
  {
    EncOpens(a);
    EncOpens(b);
    assert (Slot(a) + x)[0] == if a.Undefined? then x[0] else Opening(a);
    assert (Slot(b) + y)[0] == if b.Undefined? then y[0] else Opening(b);
    if a.Undefined? {
      assert Slot(a) + x == x && Slot(b) + y == y;
    } else {
      ValuePrefix(a, b, x, y);
    }
  }

  lemma ItemsSplit(s: seq<Json>, x: Text)
    requires s != []
    ensures EncItems(s) + ([93] + x) == Slot(s[0]) + ItemsTail(s, x)
    ensures ItemsTail(s, x) != [] && Closed(ItemsTail(s, x))
    ensures ItemsTail(s, x)[0] == (if |s| == 1 then 93 else 44)
  {
    var head, tail := Slot(s[0]), [93] + x;
    if |s| > 1 {
      RegroupFour(head, [44], EncItems(s[1..]), tail);
    }
  }

  lemma RegroupFour(a: Text, b: Text, c: Text, d: Text)
    ensures a + b + c + d == a + (b + (c + d))
  {
  }

  lemma {:induction false} ItemsPrefix(s: seq<Json>, t: seq<Json>, x: Text, y: Text)
    requires forall i :: 0 <= i < |s| ==> CanonicalTree(s[i])
    requires forall i :: 0 <= i < |t| ==> CanonicalTree(t[i])
    requires (s == [] || t == []) ==> !LoneUndefined(s) && !LoneUndefined(t)
    requires EncItems(s) + ([93] + x) == EncItems(t) + ([93] + y)
    ensures s == t && x == y
    decreases s, 0
  {
    if s == [] || t == [] {
      ItemsNone(s, t, x, y);
    } else {
      ItemsSplit(s, x);
      ItemsSplit(t, y);
      SlotPrefix(s[0], t[0], ItemsTail(s, x), ItemsTail(t, y));
      ItemsTailRest(s, x);
      ItemsTailRest(t, y);
      if |s| > 1 {
        ItemsPrefix(s[1..], t[1..], x, y);
      }
      SameHeadAndRest(s, t);
    }
  }

  // What is left of the text after the separator or the closing bracket.
  lemma ItemsTailRest(s: seq<Json>, x: Text)
    requires s != []
    ensures ItemsTail(s, x)[1..] == if |s| == 1 then x else EncItems(s[1..]) + ([93] + x)
  {
  }

  lemma SameHeadAndRest<T>(s: seq<T>, t: seq<T>)
    requires s != [] && t != [] && s[0] == t[0] && s[1..] == t[1..]
    ensures s == t
  {
    assert s == [s[0]] + s[1..] && t == [t[0]] + t[1..];
  }

  lemma ItemsNone(s: seq<Json>, t: seq<Json>, x: Text, y: Text)
    requires s == [] || t == []
    requires forall i :: 0 <= i < |s| ==> CanonicalTree(s[i])
    requires forall i :: 0 <= i < |t| ==> CanonicalTree(t[i])
    requires !LoneUndefined(s) && !LoneUndefined(t)
    requires EncItems(s) + ([93] + x) == EncItems(t) + ([93] + y)
    ensures s == t && x == y
  {
    assert EncItems([]) + ([93] + x) == [93] + x;
    assert EncItems([]) + ([93] + y) == [93] + y;
    if s != [] {
      ItemsNotClosed(s, x);
    } else if t != [] {
      ItemsNotClosed(t, y);
    }
    Cancel([93], x, y);
  }

  lemma ItemsNotClosed(t: seq<Json>, y: Text)
    requires t != [] && CanonicalTree(t[0]) && !LoneUndefined(t)
    ensures EncItems(t) + ([93] + y) != []
    ensures (EncItems(t) + ([93] + y))[0] != 93
  {
    ItemsSplit(t, y);
    EncOpens(t[0]);
    SlotOpens(t[0], ItemsTail(t, y));
  }

  lemma SlotOpens(v: Json, x: Text)
    requires CanonicalTree(v) && x != []
    ensures (Slot(v) + x)[0] == if v.Undefined? then x[0] else Opening(v)
  {
    EncOpens(v);
  }

  function FieldsTail(s: seq<Keyed<Json>>, x: Text): Text
    requires s != []
  {
    if |s| == 1 then [125] + x else [44] + (EncFields(s[1..]) + ([125] + x))
  }

  lemma FieldsSplit(s: seq<Keyed<Json>>, x: Text)
    requires s != []
    ensures EncFields(s) + ([125] + x) == Quote(s[0].key) + ([58] + (Enc(s[0].val) + FieldsTail(s, x)))
    ensures FieldsTail(s, x) != [] && Closed(FieldsTail(s, x))
    ensures FieldsTail(s, x)[0] == (if |s| == 1 then 125 else 44)
  {
    FieldText(s[0], FieldsTail(s, x));
    if |s| > 1 {
      FieldsSplitMore(s, x);
    }
  }

  lemma FieldsSplitMore(s: seq<Keyed<Json>>, x: Text)
    requires |s| > 1
    ensures EncFields(s) + ([125] + x) == EncField(s[0]) + FieldsTail(s, x)
  {
    var f, r := EncField(s[0]), EncFields(s[1..]);
    assert EncFields(s) == f + ([44] + r);
    Regroup(f, [44] + r, [125] + x);
    Regroup([44], r, [125] + x);
  }

  lemma FieldText(f: Keyed<Json>, x: Text)
    ensures EncField(f) + x == Quote(f.key) + ([58] + (Enc(f.val) + x))
  {
  }

  lemma FieldsOpen(s: seq<Keyed<Json>>, x: Text)
    ensures EncFields(s) + ([125] + x) != []
    ensures (EncFields(s) + ([125] + x))[0] == if s == [] then 125 else 34
    ensures s == [] ==> EncFields(s) + ([125] + x) == [125] + x
  {
    if s != [] {
      FieldsSplit(s, x);
    }
  }

  lemma {:induction false} FieldsPrefix(s: seq<Keyed<Json>>, t: seq<Keyed<Json>>, x: Text, y: Text)
    requires forall i :: 0 <= i < |s| ==> CanonicalTree(s[i].val)
    requires forall i :: 0 <= i < |t| ==> CanonicalTree(t[i].val)
    requires EncFields(s) + ([125] + x) == EncFields(t) + ([125] + y)
    ensures s == t && x == y
    decreases s, 0
  {
    FieldsOpen(s, x);
    FieldsOpen(t, y);
    if s == [] {
      Cancel([125], x, y);
    } else {
      FieldsSplit(s, x);
      FieldsSplit(t, y);
      var p, q := Enc(s[0].val) + FieldsTail(s, x), Enc(t[0].val) + FieldsTail(t, y);
      QuotePrefix(s[0].key, t[0].key, [58] + p, [58] + q);
      Cancel([58], p, q);
      ValuePrefix(s[0].val, t[0].val, FieldsTail(s, x), FieldsTail(t, y));
      if |s| == 1 {
        Cancel([125], x, y);
      } else {
        Cancel([44], EncFields(s[1..]) + ([125] + x), EncFields(t[1..]) + ([125] + y));
        FieldsPrefix(s[1..], t[1..], x, y);
        assert s == [s[0]] + s[1..] && t == [t[0]] + t[1..];
      }
    }
  }

  // ---- The program's printing is the printing of the canonical tree ----

  lemma {:induction false} CanonTree(v: Json)
    requires WellFormed(v)
    ensures CanonicalTree(Canon(v))
    ensures Canon(v).Undefined? <==> v.Undefined?
  {
    match v
    case Arr(items) =>
      forall i | 0 <= i < |items| ensures CanonicalTree(Canon(items[i])) && (Canon(items[i]).Undefined? <==> items[i].Undefined?) {
        CanonTree(items[i]);
      }
    case Obj(fields) =>
      forall i | 0 <= i < |fields| ensures CanonicalTree(Canon(fields[i].val)) {
        CanonTree(fields[i].val);
      }
      SortMembers(CanonFields(fields));
    case _ =>
  }

  lemma {:induction false} CanonInsert(f: Keyed<Json>, s: seq<Keyed<Json>>)
    ensures CanonFields(Insert(f, s)) == Insert(Keyed(f.key, Canon(f.val)), CanonFields(s))
  {
    if s == [] || !Less(s[0].key, f.key) {
      CanonCons(f, s);
    } else {
      CanonInsert(f, s[1..]);
      CanonCons(s[0], Insert(f, s[1..]));
      assert CanonFields(s)[1..] == CanonFields(s[1..]);
    }
  }

  lemma CanonCons(f: Keyed<Json>, s: seq<Keyed<Json>>)
    ensures CanonFields([f] + s) == [Keyed(f.key, Canon(f.val))] + CanonFields(s)
  {
  }

  lemma {:induction false} CanonSort(s: seq<Keyed<Json>>)
    ensures CanonFields(Sort(s)) == Sort(CanonFields(s))
  {
    if s != [] {
      CanonSort(s[1..]);
      CanonInsert(s[0], Sort(s[1..]));
      CanonTail(s);
      SortStep(s);
      SortStep(CanonFields(s));
    }
  }

  lemma CanonTail(s: seq<Keyed<Json>>)
    requires s != []
    ensures CanonFields(s)[1..] == CanonFields(s[1..])
  {
  }

  lemma SortStep<T>(s: seq<Keyed<T>>)
    requires s != []
    ensures Sort(s) == Insert(s[0], Sort(s[1..]))
  {
  }

  lemma {:induction false} JoinItems(items: seq<Json>, parts: seq<Text>)
    requires |parts| == |items|
    requires forall i :: 0 <= i < |items| ==> parts[i] == Slot(items[i])
    ensures Join(parts, 44) == EncItems(items)
  {
    if |items| > 1 {
      JoinItems(items[1..], parts[1..]);
    }
  }

  lemma {:induction false} JoinFields(fields: seq<Keyed<Json>>, parts: seq<Text>)
    requires |parts| == |fields|
    requires forall i :: 0 <= i < |fields| ==> parts[i] == EncField(fields[i])
    ensures Join(parts, 44) == EncFields(fields)
  {
    if |fields| > 1 {
      JoinFields(fields[1..], parts[1..]);
    }
  }

  lemma {:induction false} PrintIsEncCanon(v: Json)
    ensures Print(v) == Enc(Canon(v))
  {
    match v
    case Arr(items) =>
      var parts := seq(|items|, i requires 0 <= i < |items| => if items[i].Undefined? then [] else Print(items[i]));
      forall i | 0 <= i < |items| ensures parts[i] == Slot(Canon(items[i])) {
        PrintIsEncCanon(items[i]);
        UndefinedKept(items[i]);
      }
      if LoneUndefined(items) {
        assert Join(parts, 44) == [] == EncItems([]);
      } else {
        JoinItems(CanonItems(items), parts);
      }
    case Obj(fields) =>
      var sorted := SortFields(fields);
      var parts := seq(|sorted|, i requires 0 <= i < |sorted| => Quote(sorted[i].key) + [58] + Print(sorted[i].val));
      forall i | 0 <= i < |sorted| ensures parts[i] == EncField(CanonFields(sorted)[i]) {
        assert sorted[i] in fields;
        PrintIsEncCanon(sorted[i].val);
      }
      JoinFields(CanonFields(sorted), parts);
      CanonSort(fields);
    case _ =>
  }

  lemma UndefinedKept(v: Json)
    ensures Canon(v).Undefined? <==> v.Undefined?
  {
  }

  /** The text printed determines the canonical tree, and is determined by it. */
  lemma PrintDecodable(a: Json, b: Json)
    requires WellFormed(a) && WellFormed(b)
    ensures Print(a) == Print(b) <==> Canon(a) == Canon(b)
  {
    PrintIsEncCanon(a);
    PrintIsEncCanon(b);
    if Print(a) == Print(b) {
      CanonTree(a);
      CanonTree(b);
      assert Enc(Canon(a)) + [] == Enc(Canon(b)) + [];
      ValuePrefix(Canon(a), Canon(b), [], []);
    }
  }

  // ---- Canonical trees and equality up to key order ----

  lemma {:induction false} CanonDistinct(fields: seq<Keyed<Json>>)
    requires DistinctKeys(fields)
    ensures DistinctKeys(Sort(CanonFields(fields)))
  {
    var c := CanonFields(fields);
    KeysMultiset(Sort(c), c);
    DistinctMultiset(Keys(c), Keys(Sort(c)));
  }

  lemma {:induction false} CanonSame(a: Json, b: Json)
    requires WellFormed(a) && WellFormed(b) && Plain(a) && Plain(b)
    ensures Canon(a) == Canon(b) <==> EqualUpToKeyOrder(a, b)
    decreases a
  {
    match (a, b)
    case (Arr(s), Arr(t)) =>
      forall i | 0 <= i < |s| && i < |t| ensures Canon(s[i]) == Canon(t[i]) <==> EqualUpToKeyOrder(s[i], t[i]) {
        CanonSame(s[i], t[i]);
      }
      if EqualUpToKeyOrder(a, b) {
        assert CanonItems(s) == CanonItems(t);
      }
      if Canon(a) == Canon(b) {
        forall i | 0 <= i < |s| ensures EqualUpToKeyOrder(s[i], t[i]) {
          assert CanonItems(s)[i] == CanonItems(t)[i];
        }
      }
    case (Obj(f), Obj(g)) =>
      forall i, j | 0 <= i < |f| && 0 <= j < |g| ensures SameByCanon(f[i].val, g[j].val) {
        CanonSame(f[i].val, g[j].val);
      }
      EqualFieldsWithin(f, g);
      if EqualUpToKeyOrder(a, b) {
        SameFieldsSorted(f, g);
      }
      if Canon(a) == Canon(b) {
        SortedFieldsWithin(f, g);
        SortedFieldsWithin(g, f);
      }
    case _ =>
  }

  ghost predicate CanonWithin(x: Keyed<Json>, g: seq<Keyed<Json>>) {
    exists j :: 0 <= j < |g| && x.key == g[j].key && Canon(x.val) == Canon(g[j].val)
  }

  // Each field of `f` has its canonical counterpart in `g`.
  ghost predicate FieldsWithin(f: seq<Keyed<Json>>, g: seq<Keyed<Json>>) {
    forall i :: 0 <= i < |f| ==> CanonWithin(f[i], g)
  }

  lemma WithinMembers(f: seq<Keyed<Json>>, g: seq<Keyed<Json>>, e: Keyed<Json>)
    requires FieldsWithin(f, g) && e in Sort(CanonFields(f))
    ensures e in Sort(CanonFields(g))
  {
    var c, d := CanonFields(f), CanonFields(g);
    SortMembers(c);
    SortMembers(d);
    assert e in c;
    var i :| 0 <= i < |c| && c[i] == e;
    var j :| 0 <= j < |g| && f[i].key == g[j].key && Canon(f[i].val) == Canon(g[j].val);
    assert d[j] == e;
  }

  lemma SameFieldsSorted(f: seq<Keyed<Json>>, g: seq<Keyed<Json>>)
    requires DistinctKeys(f) && DistinctKeys(g) && FieldsWithin(f, g) && FieldsWithin(g, f)
    ensures Sort(CanonFields(f)) == Sort(CanonFields(g))
  {
    var c, d := Sort(CanonFields(f)), Sort(CanonFields(g));
    CanonDistinct(f);
    CanonDistinct(g);
    SortSorted(CanonFields(f));
    SortSorted(CanonFields(g));
    forall e ensures e in c <==> e in d {
      if e in c { WithinMembers(f, g, e); }
      if e in d { WithinMembers(g, f, e); }
    }
    SortedUnique(c, d);
  }

  ghost predicate SameByCanon(x: Json, y: Json) {
    Canon(x) == Canon(y) <==> EqualUpToKeyOrder(x, y)
  }

  lemma EqualFieldsWithin(f: seq<Keyed<Json>>, g: seq<Keyed<Json>>)
    requires forall i, j :: 0 <= i < |f| && 0 <= j < |g| ==> SameByCanon(f[i].val, g[j].val)
    ensures EqualUpToKeyOrder(Obj(f), Obj(g)) <==> FieldsWithin(f, g) && FieldsWithin(g, f)
  {
    forall i | 0 <= i < |f| ensures HasCounterpart(f[i], g) <==> CanonWithin(f[i], g) {
      assert forall j :: 0 <= j < |g| ==> SameByCanon(f[i].val, g[j].val);
    }
    forall j | 0 <= j < |g| ensures IsCounterpart(f, g[j]) <==> CanonWithin(g[j], f) {
      assert forall i :: 0 <= i < |f| ==> SameByCanon(f[i].val, g[j].val);
    }
  }

  lemma SortedFieldsWithin(f: seq<Keyed<Json>>, g: seq<Keyed<Json>>)
    requires Sort(CanonFields(f)) == Sort(CanonFields(g))
    ensures FieldsWithin(f, g)
  {
    var c, d := CanonFields(f), CanonFields(g);
    SortMembers(c);
    SortMembers(d);
    forall i | 0 <= i < |f| ensures CanonWithin(f[i], g) {
      assert c[i] in Sort(d);
      assert c[i] in d;
      var j :| 0 <= j < |d| && d[j] == c[i];
      assert f[i].key == g[j].key && Canon(f[i].val) == Canon(g[j].val);
    }
  }

  // ---- What printing loses, exactly ----

  lemma {:induction false} CollapsePlain(v: Json)
    requires WellFormed(v)
    ensures WellFormed(Collapse(v)) && Plain(Collapse(v)) && Canon(Collapse(v)) == Canon(v)
    ensures Collapse(v).Undefined? <==> v.Undefined?
  {
    match v
    case Arr(items) =>
      if !LoneUndefined(items) {
        var c := Collapse(v).items;
        forall i | 0 <= i < |items|
          ensures WellFormed(c[i]) && Plain(c[i]) && Canon(c[i]) == Canon(items[i]) && (c[i].Undefined? <==> items[i].Undefined?)
        {
          CollapsePlain(items[i]);
        }
        assert CanonItems(c) == CanonItems(items);
      }
    case Obj(fields) =>
      var c := Collapse(v).fields;
      forall i | 0 <= i < |fields|
        ensures WellFormed(c[i].val) && Plain(c[i].val) && c[i].key == fields[i].key && Canon(c[i].val) == Canon(fields[i].val)
      {
        CollapsePlain(fields[i].val);
      }
      assert CanonFields(c) == CanonFields(fields);
    case _ =>
  }

  /** Two values print the same exactly when they are equal up to the order of object keys after the
      two collapses: non-finite numbers to `null`, and `[undefined]` to `[]`. */
  lemma PrintUniquelyDecodable(a: Json, b: Json)
    requires WellFormed(a) && WellFormed(b)
    ensures Print(a) == Print(b) <==> EqualUpToKeyOrder(Collapse(a), Collapse(b))
  {
    CollapsePlain(a);
    CollapsePlain(b);
    PrintDecodable(a, b);
    CanonSame(Collapse(a), Collapse(b));
  }

  /** On values without the two collapses, printing tells values apart exactly up to key order. */
  lemma PlainPrintUniquelyDecodable(a: Json, b: Json)
    requires WellFormed(a) && WellFormed(b) && Plain(a) && Plain(b)
    ensures Print(a) == Print(b) <==> EqualUpToKeyOrder(a, b)
  {
    PrintDecodable(a, b);
    CanonSame(a, b);
  }

  /** Without `Plain` the law fails: `[undefined]` and `[]` print alike, and so do `NaN` and `null`. */
  lemma CollapsesCollide()
    ensures Print(Arr([Undefined])) == Print(Arr([])) && !EqualUpToKeyOrder(Arr([Undefined]), Arr([]))
    ensures Print(NonFinite) == Print(Null) && !EqualUpToKeyOrder(NonFinite, Null)
  {
    PrintUniquelyDecodable(Arr([Undefined]), Arr([]));
    assert LoneUndefined([Undefined]) && |[Undefined]| == 1;
    assert Collapse(Arr([Undefined])) == Arr([]);
    assert Collapse(Arr([])) == Arr([]);
  }
}
