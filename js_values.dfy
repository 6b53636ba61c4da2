/**
  Cell values of a dataset sample as the chart builder sees them, and the two
  conversions it applies to a cell: the lenient numeric parse `number`
  (ChartBuilder.jsx, lines 5-9) and the display label `String(k)` given to a
  category value (line 33).
*/
module JsValues {

  datatype Option<+T> = None | Some(value: T)

  /** A JSON scalar taken from a sample row; `Undefined` is what reading a
      missing key yields. Number cells are integers in this model; numbers
      parsed from text may have a decimal fraction. */
  datatype Value = Undefined | Null | Bool(b: bool) | Num(n: int) | Str(s: string)

  /** The two values belong to the same JavaScript type. */
  predicate SameKind(a: Value, b: Value) {
    match a
    case Undefined => b.Undefined?
    case Null => b.Null?
    case Bool(_) => b.Bool?
    case Num(_) => b.Num?
    case Str(_) => b.Str?
  }

  // ---------------------------------------------------------------------
  // Strings of decimal digits

  /** The white space JavaScript strips before converting a string to a
      number (the ASCII part of it). */
  predicate IsSpace(c: char) {
    c == ' ' || c == '\t' || c == '\n' || c == '\r' || c == '\U{000B}' || c == '\U{000C}'
  }

  predicate IsDigit(c: char) {
    '0' <= c <= '9'
  }

  predicate AllDigits(s: string) {
    forall i :: 0 <= i < |s| ==> IsDigit(s[i])
  }

  /** The number a string of decimal digits denotes (most significant first). */
  function DigitsValue(s: string): nat
    requires AllDigits(s)
  {
    if s == [] then 0
    else DigitsValue(s[..|s| - 1]) * 10 + (s[|s| - 1] as int - '0' as int)
  }

  function Digit(d: nat): (c: char)
    requires d < 10
    ensures IsDigit(c) && c as int - '0' as int == d
  {
    (d + '0' as int) as char
  }

  /** The decimal numeral of a natural number, without leading zeros. */
  function NatToString(m: nat): (r: string)
    ensures |r| > 0 && AllDigits(r)
  {
    if m < 10 then [Digit(m)] else NatToString(m / 10) + [Digit(m % 10)]
  }

  /** The numeral JavaScript's `String(n)` gives for an integer `n`. */
  function IntToString(n: int): (r: string)
    ensures |r| > 0 && !IsSpace(r[0]) && !IsSpace(r[|r| - 1])
  {
    if n < 0 then "-" + NatToString(-n) else NatToString(n)
  }

  // ---------------------------------------------------------------------
  // Number(v)

  /** Drops leading white space. */
  function TrimStart(s: string): (r: string)
    ensures |r| <= |s| && r == s[|s| - |r|..]
    ensures r == [] || !IsSpace(r[0])
  {
    if s != [] && IsSpace(s[0]) then TrimStart(s[1..]) else s
  }

  /** Drops trailing white space. */
  function TrimEnd(s: string): (r: string)
    ensures |r| <= |s| && r == s[..|r|]
    ensures r == [] || !IsSpace(r[|r| - 1])
  {
    if s != [] && IsSpace(s[|s| - 1]) then TrimEnd(s[..|s| - 1]) else s
  }

  function Trim(s: string): string {
    TrimEnd(TrimStart(s))
  }

  /** `10^k`. */
  function Pow10(k: nat): (p: nat)
    ensures p > 0
  {
    if k == 0 then 1 else 10 * Pow10(k - 1)
  }

  /** The value of the digits after a decimal point. */
  function FractionValue(f: string): real
    requires AllDigits(f)
  {
    DigitsValue(f) as real / Pow10(|f|) as real
  }

  /** The value of the numeral with whole digits `w` and fraction digits `f`. */
  function DecimalValue(w: string, f: string): real
    requires AllDigits(w) && AllDigits(f)
  {
    DigitsValue(w) as real + FractionValue(f)
  }

  /** The position of the first '.' in `u`, if any. */
  function DotIndex(u: string): (r: Option<nat>)
    ensures r.Some? ==> r.value < |u| && u[r.value] == '.' && forall q :: 0 <= q < r.value ==> u[q] != '.'
    ensures r.None? ==> forall q :: 0 <= q < |u| ==> u[q] != '.'
  {
    if u == [] then None
    else if u[0] == '.' then Some(0)
    else
      match DotIndex(u[1..])
      case None => None
      case Some(p) => Some(p + 1)
  }

  /** An unsigned decimal numeral: digits, or digits with one decimal point
      and at least one digit on either side of it ("12", "12.50", "5.", ".5"). */
  function UnsignedToNumber(u: string): (r: Option<real>)
    ensures r.Some? ==> u != [] && forall q :: 0 <= q < |u| ==> IsDigit(u[q]) || u[q] == '.'
  {
    match DotIndex(u)
    case None => if u != [] && AllDigits(u) then Some(DigitsValue(u) as real) else None
    case Some(p) =>
      var w, f := u[..p], u[p + 1..];
      if |u| > 1 && AllDigits(w) && AllDigits(f) then
        assert forall q :: p < q < |u| ==> u[q] == f[q - p - 1];
        Some(DecimalValue(w, f))
      else None
  }

  /** JavaScript's `Number(s)` on a string, for decimal numerals: surrounding
      white space is ignored, a blank string converts to 0, and otherwise an
      optional sign must be followed by an unsigned decimal numeral. `None`
      stands for NaN. */
  function StringToNumber(s: string): Option<real> {
    TrimmedToNumber(Trim(s))
  }

  /** The conversion of a string that has already been trimmed. */
  function TrimmedToNumber(t: string): Option<real> {
    if t == [] then Some(0.0)
    else if t[0] == '-' || t[0] == '+' then
      match UnsignedToNumber(t[1..])
      case None => None
      case Some(x) => Some(if t[0] == '-' then -x else x)
    else UnsignedToNumber(t)
  }

  /** JavaScript's `Number(v)`; `None` stands for NaN. */
  function ToNumber(v: Value): Option<real> {
    match v
    case Undefined => None
    case Null => Some(0.0)
    case Bool(b) => Some(if b then 1.0 else 0.0)
    case Num(n) => Some(n as real)
    case Str(s) => StringToNumber(s)
  }

  /** `number(val)`: null, undefined and the empty string have no value; so
      has anything whose conversion is NaN; everything else is its number. */
  function NumberOf(v: Value): (r: Option<real>)
    ensures r.None? <==> v == Null || v == Undefined || v == Str("") || ToNumber(v).None?
    ensures r.Some? ==> r == ToNumber(v)
  {
    if v == Null || v == Undefined || v == Str("") then None
    else
      var n := ToNumber(v);
      if n.None? then None else n
  }

  // ---------------------------------------------------------------------
  // String(k)

  /** JavaScript's `String(v)`, the label a category value is shown under. */
  function Label(v: Value): string {
    match v
    case Undefined => "undefined"
    case Null => "null"
    case Bool(b) => if b then "true" else "false"
    case Num(n) => IntToString(n)
    case Str(s) => s
  }

  // ---------------------------------------------------------------------
  // Properties

  lemma {:induction false} DigitsValueOfNatToString(m: nat)
    ensures DigitsValue(NatToString(m)) == m
  {
    if m >= 10 {
      var p := NatToString(m / 10);
      var s := p + [Digit(m % 10)];
      assert s[..|s| - 1] == p;
      DigitsValueOfNatToString(m / 10);
    }
  }

  lemma TrimOfUnpadded(s: string)
    requires s != [] && !IsSpace(s[0]) && !IsSpace(s[|s| - 1])
    ensures Trim(s) == s
  {
  }

  /** Converting the label of an integer back to a number gives the integer:
      `Number(String(n)) == n`. */
  lemma NumberOfIntToString(n: int)
    ensures StringToNumber(IntToString(n)) == Some(n as real)
    ensures NumberOf(Str(IntToString(n))) == Some(n as real)
  {
    var s := IntToString(n);
    TrimOfUnpadded(s);
    TrimmedIntToString(n);
  }

  lemma TrimmedIntToString(n: int)
    ensures TrimmedToNumber(IntToString(n)) == Some(n as real)
  {
    var m: nat := if n < 0 then -n else n;
    var d := NatToString(m);
    TrimmedNumeral(d);
    DigitsValueOfNatToString(m);
  }

  /** A trimmed string of digits, with or without a minus sign before it. */
  lemma TrimmedNumeral(d: string)
    requires |d| > 0 && AllDigits(d)
    ensures TrimmedToNumber(d) == Some(DigitsValue(d) as real)
    ensures TrimmedToNumber("-" + d) == Some(-(DigitsValue(d) as real))
  {
    UnsignedDigits(d);
    assert ("-" + d)[1..] == d;
    assert IsDigit(d[0]);
  }

  /** A string of digits without a decimal point is its value. */
  lemma UnsignedDigits(d: string)
    requires |d| > 0 && AllDigits(d)
    ensures UnsignedToNumber(d) == Some(DigitsValue(d) as real)
  {
  }

  lemma IntToStringInjective(m: int, n: int)
    requires IntToString(m) == IntToString(n)
    ensures m == n
  {
    NumberOfIntToString(m);
    NumberOfIntToString(n);
  }

  /** Two values of one JavaScript type with the same label are the same
      value. Across types this fails: `1` and `"1"` share the label "1". */
  lemma LabelInjectiveWithinKind(a: Value, b: Value)
    requires SameKind(a, b) && Label(a) == Label(b)
    ensures a == b
  {
    if a.Num? {
      IntToStringInjective(a.n, b.n);
    }
  }

  lemma MixedKindsShareLabel()
    ensures Num(1) != Str("1") && Label(Num(1)) == Label(Str("1"))
  {
    NumberOfIntToString(1);
  }

  /** `number` on the blank inputs it names: no value. */
  lemma NumberOfBlanks()
    ensures NumberOf(Null) == None && NumberOf(Undefined) == None && NumberOf(Str("")) == None
  {
  }

  predicate AllSpace(s: string) {
    forall i :: 0 <= i < |s| ==> IsSpace(s[i])
  }

  lemma {:induction false} TrimStartSkipsSpace(pre: string, s: string)
    requires AllSpace(pre) && (s == [] || !IsSpace(s[0]))
    ensures TrimStart(pre + s) == s
  {
    if pre != [] {
      assert (pre + s)[1..] == pre[1..] + s;
      TrimStartSkipsSpace(pre[1..], s);
    } else {
      assert pre + s == s;
    }
  }

  lemma {:induction false} TrimEndSkipsSpace(s: string, post: string)
    requires AllSpace(post) && (s == [] || !IsSpace(s[|s| - 1]))
    ensures TrimEnd(s + post) == s
  {
    if post != [] {
      assert (s + post)[..|s + post| - 1] == s + post[..|post| - 1];
      TrimEndSkipsSpace(s, post[..|post| - 1]);
    } else {
      assert s + post == s;
    }
  }

  /** A string of white space only converts to 0 and so has a value, unlike
      the empty string. */
  lemma NumberOfBlankText(s: string)
    requires s != [] && AllSpace(s)
    ensures NumberOf(Str(s)) == Some(0.0)
  {
    TrimStartSkipsSpace(s, []);
    assert s + [] == s;
  }

  /** A numeral with white space around it converts to its integer. */
  lemma NumberOfPaddedNumeral(pre: string, n: int, post: string)
    requires AllSpace(pre) && AllSpace(post)
    ensures NumberOf(Str(pre + IntToString(n) + post)) == Some(n as real)
  {
    var x := IntToString(n);
    TrimPadded(pre, x, post);
    NumberOfIntToString(n);
    TrimOfUnpadded(x);
  }

  /** A decimal numeral with a point converts to its whole part plus its
      fraction: `Number("12.50")` is 12.5 and `Number(".5")` is 0.5. */
  lemma NumberOfDecimal(w: string, f: string)
    requires AllDigits(w) && AllDigits(f) && |w| + |f| > 0
    ensures NumberOf(Str(w + "." + f)) == Some(DecimalValue(w, f))
  {
    DecimalEnds(w, f);
    UnsignedDecimal(w, f);
    NumberOfUnsigned(w + "." + f);
  }

  /** With a minus sign before it, a decimal numeral converts to the
      negation: `Number("-.5")` is -0.5. */
  lemma NumberOfNegativeDecimal(w: string, f: string)
    requires AllDigits(w) && AllDigits(f) && |w| + |f| > 0
    ensures NumberOf(Str("-" + (w + "." + f))) == Some(-DecimalValue(w, f))
  {
    DecimalEnds(w, f);
    UnsignedDecimal(w, f);
    NumberOfNegative(w + "." + f, DecimalValue(w, f));
  }

  /** A decimal numeral starts and ends with a digit or its point. */
  lemma DecimalEnds(w: string, f: string)
    requires AllDigits(w) && AllDigits(f)
    ensures var u := w + "." + f;
      u != [] && (IsDigit(u[0]) || u[0] == '.') && (IsDigit(u[|u| - 1]) || u[|u| - 1] == '.')
  {
    var u := w + "." + f;
    if w != [] {
      assert u[0] == w[0];
    }
    if f != [] {
      assert u[|u| - 1] == f[|f| - 1];
    }
  }

  /** Text that starts and ends with a digit or a point converts as an
      unsigned numeral. */
  lemma NumberOfUnsigned(u: string)
    requires u != [] && (IsDigit(u[0]) || u[0] == '.') && (IsDigit(u[|u| - 1]) || u[|u| - 1] == '.')
    ensures NumberOf(Str(u)) == UnsignedToNumber(u)
  {
    Unpadded(u);
    NumberOfText(u);
    TrimmedUnsigned(u);
  }

  /** A minus sign before such text negates its value. */
  lemma NumberOfNegative(u: string, x: real)
    requires u != [] && (IsDigit(u[0]) || u[0] == '.') && (IsDigit(u[|u| - 1]) || u[|u| - 1] == '.')
    requires UnsignedToNumber(u) == Some(x)
    ensures NumberOf(Str("-" + u)) == Some(-x)
  {
    var v := "-" + u;
    assert v[1..] == u;
    assert v[0] == '-';
    assert v[|v| - 1] == u[|u| - 1];
    calc {
      NumberOf(Str(v));
      { NumberOfText(v); }
      StringToNumber(v);
      TrimmedToNumber(Trim(v));
      { Unpadded(v); }
      TrimmedToNumber(v);
      { TrimmedNegative(v); }
      Some(-x);
    }
  }

  lemma TrimmedNegative(t: string)
    requires t != [] && t[0] == '-' && UnsignedToNumber(t[1..]).Some?
    ensures TrimmedToNumber(t) == Some(-UnsignedToNumber(t[1..]).value)
  {
  }

  lemma TrimmedUnsigned(t: string)
    requires t != [] && t[0] != '-' && t[0] != '+'
    ensures TrimmedToNumber(t) == UnsignedToNumber(t)
  {
  }

  /** A non-empty string has the value `Number` gives it. */
  lemma NumberOfText(s: string)
    requires s != []
    ensures NumberOf(Str(s)) == StringToNumber(s)
  {
  }

  lemma Unpadded(u: string)
    requires u != [] && (IsDigit(u[0]) || u[0] == '.' || u[0] == '-')
    requires IsDigit(u[|u| - 1]) || u[|u| - 1] == '.'
    ensures Trim(u) == u
  {
    TrimOfUnpadded(u);
  }

  lemma UnsignedDecimal(w: string, f: string)
    requires AllDigits(w) && AllDigits(f) && |w| + |f| > 0
    ensures UnsignedToNumber(w + "." + f) == Some(DecimalValue(w, f))
  {
    var u := w + "." + f;
    SplitAtDot(u, w, f);
    UnsignedDecimalAt(u, |w|);
  }

  lemma SplitAtDot(u: string, w: string, f: string)
    requires u == w + "." + f
    ensures |u| == |w| + |f| + 1 && u[|w|] == '.' && u[..|w|] == w && u[|w| + 1..] == f
  {
    assert u[..|w|] == w;
    assert u[|w| + 1..] == f;
  }

  /** A numeral whose first decimal point is at `p`. */
  lemma UnsignedDecimalAt(u: string, p: nat)
    requires p < |u| && u[p] == '.' && |u| > 1
    requires AllDigits(u[..p]) && AllDigits(u[p + 1..])
    ensures UnsignedToNumber(u) == Some(DecimalValue(u[..p], u[p + 1..]))
  {
    forall q | 0 <= q < p
      ensures u[q] != '.'
    {
      assert u[..p][q] == u[q];
    }
  }

  lemma TrimPadded(pre: string, x: string, post: string)
    requires AllSpace(pre) && AllSpace(post)
    requires x != [] && !IsSpace(x[0]) && !IsSpace(x[|x| - 1])
    ensures Trim(pre + x + post) == x
  {
    assert pre + x + post == pre + (x + post);
    TrimStartSkipsSpace(pre, x + post);
    TrimEndSkipsSpace(x, post);
  }

  /** Text holding a character that is neither white space, a digit, a
      sign nor a decimal point has no value. */
  lemma NumberOfForeignText(s: string, i: nat)
    requires i < |s| && !IsSpace(s[i]) && !IsDigit(s[i]) && s[i] != '-' && s[i] != '+' && s[i] != '.'
    ensures NumberOf(Str(s)) == None
  {
    var u := TrimStart(s);
    var a := |s| - |u|;
    TrimStartDropsSpace(s);
    assert a <= i;
    var t := TrimEnd(u);
    TrimEndDropsSpace(u);
    assert i - a < |t|;
    assert t[i - a] == s[i];
    if t[0] == '-' || t[0] == '+' {
      assert i - a > 0;
      var w := t[1..];
      assert w[i - a - 1] == s[i];
      assert UnsignedToNumber(w).None?;
    } else {
      assert UnsignedToNumber(t).None?;
    }
  }

  lemma {:induction false} TrimStartDropsSpace(s: string)
    ensures AllSpace(s[..|s| - |TrimStart(s)|])
  {
    if s != [] && IsSpace(s[0]) {
      TrimStartDropsSpace(s[1..]);
      assert s[..|s| - |TrimStart(s)|] == [s[0]] + s[1..][..|s[1..]| - |TrimStart(s[1..])|];
    }
  }

  lemma {:induction false} TrimEndDropsSpace(s: string)
    ensures AllSpace(s[|TrimEnd(s)|..])
  {
    if s != [] && IsSpace(s[|s| - 1]) {
      var p := s[..|s| - 1];
      TrimEndDropsSpace(p);
      assert s[|TrimEnd(s)|..] == p[|TrimEnd(p)|..] + [s[|s| - 1]];
    }
  }
}
