/** JavaScript strings as sequences of UTF-16 code units, with the code-unit order that
    `<` and the default `sort` use, and the decimal text of integers. */
module Texts {

  type CodeUnit = x: int | 0 <= x < 0x10000
  type Text = seq<CodeUnit>

  /** The code units of an ASCII literal of the program. */
  function Ascii(s: string): (t: Text)
    ensures |t| == |s|
    ensures forall i :: 0 <= i < |s| && s[i] as int < 128 ==> t[i] == s[i] as int
  {
    seq(|s|, i requires 0 <= i < |s| => if s[i] as int < 128 then s[i] as int else 0xFFFD)
  }

  /** `a < b` on strings. */
  predicate Less(a: Text, b: Text) {
    b != [] && (a == [] || a[0] < b[0] || (a[0] == b[0] && Less(a[1..], b[1..])))
  }

  lemma LessIrreflexive(a: Text)
    ensures !Less(a, a)
  {
  }

  lemma {:induction false} LessTransitive(a: Text, b: Text, c: Text)
    requires Less(a, b) && Less(b, c)
    ensures Less(a, c)
  {
    if a != [] && a[0] == b[0] == c[0] {
      LessTransitive(a[1..], b[1..], c[1..]);
    }
  }

  lemma {:induction false} LessTotal(a: Text, b: Text)
    ensures a == b || Less(a, b) || Less(b, a)
    ensures !(Less(a, b) && Less(b, a))
  {
    if a != [] && b != [] && a[0] == b[0] {
      LessTotal(a[1..], b[1..]);
      assert a == [a[0]] + a[1..] && b == [b[0]] + b[1..];
    }
  }

  /** `!(c < b)` composed with `!(b < a)`: the order is total, so "not greater" is transitive. */
  lemma NotGreaterTransitive(a: Text, b: Text, c: Text)
    requires !Less(b, a) && !Less(c, b)
    ensures !Less(c, a)
  {
    LessTotal(a, b);
    LessTotal(b, c);
    if Less(c, a) {
      if a == b {
      } else if b == c {
      } else {
        LessTransitive(a, b, c);
        LessTotal(a, c);
      }
    }
  }

  /** The texts agree before this place, and there the first is smaller or ends. */
  ghost predicate SmallerAt(a: Text, b: Text, k: nat) {
    k <= |a| && k < |b| && (forall i :: 0 <= i < k ==> a[i] == b[i]) && (k == |a| || a[k] < b[k])
  }

  /** Code-unit order. */
  ghost predicate ComesBefore(a: Text, b: Text) {
    exists k: nat :: SmallerAt(a, b, k)
  }

  lemma {:induction false} LessExactly(a: Text, b: Text)
    ensures Less(a, b) <==> ComesBefore(a, b)
  {
    if a == [] || b == [] || a[0] != b[0] {
      DifferAtOnce(a, b);
    } else {
      LessExactly(a[1..], b[1..]);
      DifferLater(a, b);
    }
  }

  lemma DifferAtOnce(a: Text, b: Text)
    requires a == [] || b == [] || a[0] != b[0]
    ensures ComesBefore(a, b) <==> b != [] && (a == [] || a[0] < b[0])
  {
    assert b != [] && (a == [] || a[0] < b[0]) ==> SmallerAt(a, b, 0);
  }

  lemma DifferLater(a: Text, b: Text)
    requires a != [] && b != [] && a[0] == b[0]
    ensures ComesBefore(a, b) <==> ComesBefore(a[1..], b[1..])
  {
    if k: nat :| SmallerAt(a, b, k) {
      assert SmallerAt(a[1..], b[1..], k - 1);
    }
    if k: nat :| SmallerAt(a[1..], b[1..], k) {
      forall i | 0 <= i < k + 1 ensures a[i] == b[i] {
        if i > 0 { assert a[i] == a[1..][i - 1] && b[i] == b[1..][i - 1]; }
      }
      assert SmallerAt(a, b, k + 1);
    }
  }

  // Unsigned decimal digits, most significant first.
  function Digits(n: nat): (t: Text)
    ensures t != []
    ensures forall c :: c in t ==> 48 <= c <= 57
  {
    if n < 10 then [48 + n] else Digits(n / 10) + [48 + n % 10]
  }

  /** The text of an integer, as `String(n)` gives it below 10^21 in magnitude. */
  function Decimal(n: int): (t: Text)
    ensures t != []
    ensures forall c :: c in t ==> c == 45 || 48 <= c <= 57
  {
    if n < 0 then [45] + Digits(-n) else Digits(n)
  }

  lemma {:induction false} DigitsInjective(m: nat, n: nat)
    requires Digits(m) == Digits(n)
    ensures m == n
  {
    var s, t := Digits(m), Digits(n);
    assert s[|s| - 1] == 48 + m % 10;
    assert t[|t| - 1] == 48 + n % 10;
    assert m >= 10 ==> s[..|s| - 1] == Digits(m / 10) && |s| > 1;
    assert n >= 10 ==> t[..|t| - 1] == Digits(n / 10) && |t| > 1;
    if m >= 10 && n >= 10 {
      DigitsInjective(m / 10, n / 10);
    }
  }

  lemma DecimalSign(n: int)
    ensures Decimal(n)[0] == 45 <==> n < 0
  {
    if n >= 0 {
      assert Digits(n)[0] in Digits(n);
    }
  }

  lemma DecimalInjective(m: int, n: int)
    requires Decimal(m) == Decimal(n)
    ensures m == n
  {
    DecimalSign(m);
    DecimalSign(n);
    if m < 0 {
      assert Decimal(m)[1..] == Digits(-m) && Decimal(n)[1..] == Digits(-n);
      DigitsInjective(-m, -n);
    } else {
      DigitsInjective(m, n);
    }
  }

  /** The white space and line terminators that `String.prototype.trim` removes. */
  predicate IsSpace(c: CodeUnit) {
    9 <= c <= 13 || c == 32 || c == 0xA0 || c == 0x1680 || 0x2000 <= c <= 0x200A || c == 0x2028 || c == 0x2029
    || c == 0x202F || c == 0x205F || c == 0x3000 || c == 0xFEFF
  }

  /** Where the text begins, past its leading white space. */
  function FirstInk(s: Text, from: nat): (i: nat)
    requires from <= |s|
    ensures from <= i <= |s|
    decreases |s| - from
  {
    if from < |s| && IsSpace(s[from]) then FirstInk(s, from + 1) else from
  }

  /** Where the part of the text from `from` on ends, before its trailing white space. */
  function LastInk(s: Text, from: nat, to: nat): (i: nat)
    requires from <= to <= |s|
    ensures from <= i <= to
  {
    if from < to && IsSpace(s[to - 1]) then LastInk(s, from, to - 1) else to
  }

  function Trim(s: Text): Text {
    var from := FirstInk(s, 0);
    s[from..LastInk(s, from, |s|)]
  }

  lemma {:induction false} FirstInkAt(s: Text, from: nat, i: nat)
    requires from <= i <= |s| && (forall k :: from <= k < i ==> IsSpace(s[k])) && (i < |s| ==> !IsSpace(s[i]))
    ensures FirstInk(s, from) == i
    decreases i - from
  {
    if from < i {
      FirstInkAt(s, from + 1, i);
    }
  }

  lemma {:induction false} LastInkAt(s: Text, from: nat, to: nat, i: nat)
    requires from <= i <= to <= |s| && (forall k :: i <= k < to ==> IsSpace(s[k])) && (i > from ==> !IsSpace(s[i - 1]))
    ensures LastInk(s, from, to) == i
  {
    if i < to {
      LastInkAt(s, from, to - 1, i);
    }
  }

  predicate Blank(s: Text) {
    forall k :: 0 <= k < |s| ==> IsSpace(s[k])
  }

  /** The text without the white space around it. */
  predicate Trimmed(s: Text) {
    s != [] ==> !IsSpace(s[0]) && !IsSpace(s[|s| - 1])
  }

  /** Trimming takes the white space around a text and nothing else. */
  lemma TrimExactly(s: Text, before: Text, ink: Text, after: Text)
    requires s == before + ink + after && Blank(before) && Blank(after) && Trimmed(ink)
    ensures Trim(s) == ink
  {
    var end := |before + ink|;
    assert forall k :: 0 <= k < |before| ==> s[k] == before[k];
    assert forall k :: end <= k < |s| ==> s[k] == after[k - end];
    if ink == [] {
      FirstInkAt(s, 0, |s|);
    } else {
      assert s[|before|] == ink[0] && s[end - 1] == ink[|ink| - 1];
      FirstInkAt(s, 0, |before|);
      LastInkAt(s, |before|, |s|, end);
      assert s[|before|..end] == ink;
    }
  }

  /** `parts.join(separator)` */
  function Join(parts: seq<Text>, separator: CodeUnit): Text {
    if parts == [] then [] else if |parts| == 1 then parts[0] else parts[0] + [separator] + Join(parts[1..], separator)
  }

  lemma Cancel(p: Text, x: Text, y: Text)
    requires p + x == p + y
    ensures x == y
  {
    assert x == (p + x)[|p|..] && y == (p + y)[|p|..];
  }

  /** A part without the separator can be split off again. */
  lemma SplitAtSeparator(p: Text, q: Text, separator: CodeUnit, x: Text, y: Text)
    requires separator !in p && separator !in q
    requires p + [separator] + x == q + [separator] + y
    ensures p == q && x == y
  {
    var u := p + [separator] + x;
    if |p| < |q| {
      SeparatorInside(p, q, separator, x, y);
    } else if |q| < |p| {
      SeparatorInside(q, p, separator, y, x);
    }
    assert p == u[..|p|] && q == u[..|q|];
    Cancel(p + [separator], x, y);
  }

  lemma SeparatorInside(p: Text, q: Text, separator: CodeUnit, x: Text, y: Text)
    requires p + [separator] + x == q + [separator] + y && |p| < |q|
    ensures separator in q
  {
    assert q[|p|] == (q + [separator] + y)[|p|] == (p + [separator] + x)[|p|];
  }
}
