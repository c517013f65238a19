/** What the reader makes of a text, in plain numbers: the values of numerals, escapes, literals,
    arrays and objects, each told by the text alone. */
module JsonMeaning {
  import opened JsText
  import opened JsonGrammar
  import opened JsonSpelling
  import opened JsonParser
  import opened JsonReader

  // ---- A text and its tree ----

  lemma ReadsTree(doc: Item)
    requires AllFinite(doc.value)
    ensures Reading(ItemText(doc)) == Ok(Meaning(doc.value))
  {
    hide AllFinite, ItemText, Meaning, PText;
    AcceptsExactlyTheGrammar(ItemText(doc), doc);
  }

  lemma TreeOf(t: Text) returns (doc: Item)
    requires Reading(t).Ok?
    ensures ItemText(doc) == t && AllFinite(doc.value) && Reading(t) == Ok(Meaning(doc.value))
  {
    hide AllFinite, ItemText, Meaning, PItem;
    doc := PText(t).value;
    AcceptsExactlyTheGrammar(t, doc);
  }

  lemma ReadsValue(v: Value)
    requires AllFinite(v)
    ensures Reading(ValueText(v)) == Ok(Meaning(v))
  {
    hide AllFinite, ValueText, Meaning, Reading;
    assert [] + (ValueText(v) + []) == ValueText(v);
    ReadsTree(Item([], v, []));
  }

  // ---- What texts are made of ----

  /** Blanks, digits, hexadecimal digits and the letters of short escapes, each no more and no less. */
  lemma TerminalsMean(u: Unit)
    ensures IsWs(u) <==> u in [0x20, 0x0A, 0x0D, 0x09]
    ensures IsDigit(u) <==> 0x30 <= u <= 0x39
    ensures IsHex(u) <==> 0x30 <= u <= 0x39 || 0x41 <= u <= 0x46 || 0x61 <= u <= 0x66
    ensures IsShortEscape(u) <==> u in [0x22, 0x5C, 0x2F, 0x62, 0x66, 0x6E, 0x72, 0x74]
  {
  }

  /** A numeral is a minus or none, 0 or digits that do not begin with 0, then perhaps a point with digits,
      then perhaps e or E, a sign or none, and digits. */
  lemma NumeralsMean(n: Number)
    ensures n.whole != [] && (n.whole[0] == 0x30 ==> |n.whole| == 1)
    ensures n.exponent.Exponent? ==> n.exponent.mark in [0x65, 0x45] && n.exponent.sign in [[], [0x2B], [0x2D]] && n.exponent.digits != []
    ensures NumberText(n) == (if n.minus then [0x2D] else []) + n.whole + (if n.fraction == [] then [] else [0x2E] + n.fraction)
                             + (if n.exponent.Exponent? then [n.exponent.mark] + n.exponent.sign + n.exponent.digits else [])
  {
  }

  /** And every text of that form is one. */
  lemma NumeralOf(minus: bool, whole: Digits, fraction: Digits, scaled: bool, mark: Unit, sign: Text, power: Digits) returns (n: Number)
    requires whole != [] && (whole[0] == 0x30 ==> |whole| == 1)
    requires scaled ==> mark in [0x65, 0x45] && sign in [[], [0x2B], [0x2D]] && power != []
    ensures n.minus == minus && n.whole == whole && n.fraction == fraction
    ensures n.exponent == if scaled then Exponent(mark, sign, power) else NoExponent
  {
    n := RawNumber(minus, whole, fraction, if scaled then Exponent(mark, sign, power) else NoExponent);
  }

  /** Between the quotes of a string stands a unit from 0x20 on that is neither quote nor backslash, or a
      backslash with one of the eight letters, or a backslash, a u and four hexadecimal digits. */
  lemma CharactersMean(c: StrChar)
    ensures match c
            case Plain(u) => u >= 0x20 && u != 0x22 && u != 0x5C && CharText(c) == [u]
            case Short(u) => u in [0x22, 0x5C, 0x2F, 0x62, 0x66, 0x6E, 0x72, 0x74] && CharText(c) == [0x5C, u]
            case Hex(h) => CharText(c) == [0x5C, 0x75] + h
  {
  }

  // ---- Numbers ----

  // A number that is no larger than the largest double, and otherwise nothing.
  function Bounded(x: real): Result<Json> {
    if -(OVERFLOW as real) < x < OVERFLOW as real then Ok(JNum(x)) else Failed
  }

  lemma ReadsNumber(n: Number)
    ensures Reading(NumberText(n)) == Bounded(NumberValue(n))
  {
    hide NumberValue, NumberText, IsWs;
    if IsFinite(NumberValue(n)) {
      ReadsValue(Num(n));
    } else {
      NotRead(n);
    }
  }

  lemma NotRead(n: Number)
    requires !IsFinite(NumberValue(n))
    ensures PText(NumberText(n)) == Fail
  {
    hide NumberValue, NumberText, IsFinite, NumberAt, Spans, PNumber;
    var t := NumberText(n);
    SpansWhole(t, t);
    NumberSpell(t, 0, n);
    NumberComplete(t, 0, n);
    NumberBegins(t, n);
    assert SkipWs(t, 0) == 0;
    assert PBare(t, 0) == Fail;
    assert PItem(t, 0) == Fail;
  }

  lemma NumberBegins(t: Text, n: Number)
    requires NumberAt(t, 0, n)
    ensures t != [] && (t[0] == MINUS || IsDigit(t[0]))
  {
    assert n.whole[0] == t[MinusSize(n.minus) + 0];
  }

  lemma {:induction false} DigitsConcat(a: Digits, b: Digits)
    ensures DigitsValue(a + b) == DigitsValue(a) * Pow10(|b|) + DigitsValue(b)
    decreases |b|
  {
    if b == [] {
      assert a + b == a;
    } else {
      var init := b[..|b| - 1];
      assert (a + b)[..|a + b| - 1] == a + init && (a + b)[|a + b| - 1] == b[|b| - 1];
      DigitsConcat(a, init);
      TenTimes(DigitsValue(a), Pow10(|init|), DigitsValue(init));
      assert Pow10(|b|) == 10 * Pow10(|init|);
    }
  }

  lemma TenTimes(x: nat, p: nat, y: nat)
    ensures 10 * (x * p + y) == x * (10 * p) + 10 * y
  {
  }

  lemma {:induction false} PowAdd(a: nat, b: nat)
    ensures Pow10(a + b) == Pow10(a) * Pow10(b)
    decreases b
  {
    hide Pow10;
    PowZero();
    if b > 0 {
      PowAdd(a, b - 1);
      TenTimes(Pow10(a), Pow10(b - 1), 0);
      PowNext(a + b - 1);
      PowNext(b - 1);
    }
  }

  lemma PowNext(k: nat)
    ensures Pow10(k + 1) == 10 * Pow10(k)
  {
  }

  // m times ten to the e - f, the two powers apart.
  lemma ScaleApart(m: int, e: int, f: nat)
    ensures Scale(m, e - f) == if e >= 0 then Over(m as real, Pow10(f)) * Pow10(e) as real else Over(Over(m as real, Pow10(f)), Pow10(-e))
  {
    hide Pow10, Over, Scale;
    if e < 0 {
      ScaleDown(m, f - e);
      PowAdd(f, -e);
      OverTwice(m as real, Pow10(f), Pow10(-e), Pow10(f - e));
    } else if e >= f {
      ScaleUp(m, e - f);
      PowAdd(e - f, f);
      OverUp(m as real, Pow10(f), Pow10(e - f), Pow10(e));
    } else {
      ScaleDown(m, f - e);
      PowAdd(f - e, e);
      OverDown(m as real, Pow10(f - e), Pow10(e), Pow10(f));
    }
  }

  function Over(x: real, p: nat): real
    requires p > 0
  {
    x / p as real
  }

  lemma ScaleUp(m: int, k: nat)
    ensures Scale(m, k) == m as real * Pow10(k) as real
  {
    hide Pow10;
  }

  lemma ScaleDown(m: int, k: nat)
    ensures Scale(m, 0 - k) == Over(m as real, Pow10(k))
  {
    assert Pow10(0) == 1;
  }

  lemma OverTwice(x: real, p: nat, q: nat, pq: nat)
    requires p > 0 && q > 0 && pq > 0 && pq == p * q
    ensures Over(x, pq) == Over(Over(x, p), q)
  {
    DivideTwice(x, p as real, q as real);
  }

  lemma OverUp(x: real, p: nat, q: nat, qp: nat)
    requires p > 0 && qp == q * p
    ensures x * q as real == Over(x, p) * qp as real
  {
    CancelUp(x, p as real, q as real);
  }

  lemma OverDown(x: real, q: nat, r: nat, qr: nat)
    requires q > 0 && r > 0 && qr > 0 && qr == q * r
    ensures Over(x, qr) * r as real == Over(x, q)
  {
    CancelDown(x, q as real, r as real);
  }

  lemma DivideTwice(x: real, p: real, q: real)
    requires p > 0.0 && q > 0.0
    ensures p * q > 0.0 && x / (p * q) == x / p / q
  {
    var y := x / p / q;
    assert y * q == x / p;
    assert y * q * p == x;
    assert y * (p * q) == x;
  }

  lemma CancelUp(x: real, p: real, q: real)
    requires p > 0.0
    ensures x / p * (q * p) == x * q
  {
    var y := x / p;
    assert y * p == x;
    assert y * (q * p) == (y * p) * q;
  }

  lemma CancelDown(x: real, q: real, r: real)
    requires q > 0.0 && r > 0.0
    ensures q * r > 0.0 && x / (q * r) * r == x / q
  {
    DivideTwice(x, q, r);
  }

  function Negated(minus: bool, x: real): real { if minus then -x else x }

  // Digits after the point: so many tenths, hundredths and so on.
  function Part(f: Digits): real { DigitsValue(f) as real / Pow10(|f|) as real }

  function Decimal(n: Number): real { Negated(n.minus, DigitsValue(n.whole) as real + Part(n.fraction)) }

  // The sign, the digits, and the power of ten they are multiplied or divided by.
  function Total(n: Number): real {
    match n.exponent
    case NoExponent => Decimal(n)
    case Exponent(_, sign, digits) =>
      var power := Pow10(DigitsValue(digits)) as real;
      if sign == [0x2D] then Decimal(n) / power else Decimal(n) * power
  }

  /** The value of a numeral: what stands before the point plus the fraction, with the sign, multiplied or
      divided by the power of ten; a numeral too large for a double is not read. */
  lemma NumberMeans(n: Number)
    ensures Reading(NumberText(n)) == Bounded(Total(n))
  {
    hide Reading, NumberText, NumberValue, Total;
    ReadsNumber(n);
    TotalIs(n);
  }

  lemma TotalIs(n: Number)
    ensures NumberValue(n) == Total(n)
  {
    hide Pow10, DigitsValue, Scale;
    var w, f, p, e := DigitsValue(n.whole), DigitsValue(n.fraction), Pow10(|n.fraction|), ExponentValue(n.exponent);
    DigitsConcat(n.whole, n.fraction);
    DecimalIs(n.minus, w, f, p);
    ScaleApart(Signed(n.minus, w * p + f), e, |n.fraction|);
    PowZero();
    assert e == 0 ==> Decimal(n) * Pow10(e) as real == Decimal(n);
    assert e == 0 ==> Decimal(n) / Pow10(e) as real == Decimal(n);
  }

  lemma PowZero()
    ensures Pow10(0) == 1
  {
  }

  lemma DecimalIs(minus: bool, w: nat, f: nat, p: nat)
    requires p > 0
    ensures Signed(minus, w * p + f) as real / p as real == Negated(minus, w as real + f as real / p as real)
  {
    var x := (w * p + f) as real / p as real;
    assert x * p as real == w as real * p as real + f as real;
    var y := w as real + f as real / p as real;
    assert f as real / p as real * p as real == f as real;
    assert y * p as real == x * p as real;
    assert (y - x) * p as real == 0.0;
  }

  // ---- Numbers, digit by digit ----

  predicate Counts(w: Digits) { w != [] && w[0] != ZERO }

  lemma DigitsSnoc(w: Digits, d: nat)
    requires d < 10
    ensures DigitsValue(w + [0x30 + d]) == 10 * DigitsValue(w) + d
  {
    assert (w + [0x30 + d])[..|w|] == w;
  }

  lemma Plainly(w: Digits, f: Digits)
    requires w != [] && (w[0] == ZERO ==> |w| == 1)
    ensures Reading(w + FractionText(f)) == Bounded(DigitsValue(w) as real + Part(f))
  {
    hide Reading, FractionText, DigitsValue, Part;
    NumberMeans(RawNumber(false, w, f, NoExponent));
    assert [] + (w + (FractionText(f) + [])) == w + FractionText(f);
  }

  lemma Wholly(w: Digits)
    requires w != [] && (w[0] == ZERO ==> |w| == 1)
    ensures Reading(w) == Bounded(DigitsValue(w) as real)
  {
    hide Reading, DigitsValue, Part, Bounded;
    Plainly(w, []);
    NoPart();
    assert w + [] == w;
  }

  lemma NoPart()
    ensures Part([]) == 0.0
  {
  }

  /** Whole numbers: a digit is its distance from 0x30, and one digit more multiplies by ten and adds it. */
  lemma WholeNumbersMean(w: Digits, d: nat, x: real)
    requires d < 10
    ensures Reading([0x30 + d]) == Ok(JNum(d as real))
    ensures Counts(w) && Reading(w) == Ok(JNum(x)) ==> Reading(w + [0x30 + d]) == Bounded(10.0 * x + d as real)
  {
    hide Reading, DigitsValue;
    OneDigit(d);
    Wholly([0x30 + d]);
    if Counts(w) {
      DigitsSnoc(w, d);
      Wholly(w);
      Wholly(w + [0x30 + d]);
    }
  }

  /** Fractions: the k-th digit after the point adds so many times ten to the minus k; the point itself is
      0x2E. So zeros at the end add nothing. */
  lemma FractionsMean(w: Digits, f: Digits, d: nat, x: real)
    requires d < 10 && w != [] && (w[0] == ZERO ==> |w| == 1)
    requires Reading(if f == [] then w else w + ([0x2E] + f)) == Ok(JNum(x))
    ensures Reading(w + ([0x2E] + (f + [0x30 + d]))) == Bounded(x + Tenths(d, |f| + 1))
  {
    hide Reading, DigitsValue, Part, Tenths;
    Plainly(w, f);
    assert w + [] == w;
    Plainly(w, f + [0x30 + d]);
    PartSnoc(f, d);
  }

  function Tenths(d: nat, k: nat): real { d as real / Pow10(k) as real }

  lemma PartSnoc(f: Digits, d: nat)
    requires d < 10
    ensures Part(f + [0x30 + d]) == Part(f) + Tenths(d, |f| + 1)
  {
    hide DigitsValue, Pow10;
    DigitsSnoc(f, d);
    PowSteps(|f|);
    TenthPart(DigitsValue(f), d, Pow10(|f|));
  }

  lemma TenthPart(v: nat, d: nat, p: nat)
    requires p > 0
    ensures (10 * v + d) as real / (p * 10) as real == v as real / p as real + d as real / (p * 10) as real
  {
    var q := (p * 10) as real;
    assert q == 10.0 * p as real;
    assert v as real / p as real * q == 10.0 * v as real;
    assert d as real / q * q == d as real;
    assert ((10 * v + d) as real / q) * q == 10.0 * v as real + d as real;
    assert ((10 * v + d) as real / q - (v as real / p as real + d as real / q)) * q == 0.0;
  }

  lemma PowSteps(k: nat)
    ensures Pow10(0) == 1 && Pow10(1) == 10 && Pow10(k + 1) == 10 * Pow10(k)
  {
    assert Pow10(1) == 10 * Pow10(0);
  }

  /** Exponents: ten to the nothing changes nothing, and one more multiplies by ten, or divides when the
      exponent is negative. */
  lemma ExponentsMean(n: Number, a: Number, b: Number, x: real)
    requires SameDigits(n, a) && SameDigits(a, b) && n.exponent.NoExponent? && a.exponent.Exponent? && b.exponent.Exponent?
    requires a.exponent.sign == b.exponent.sign && DigitsValue(b.exponent.digits) == DigitsValue(a.exponent.digits) + 1
    ensures DigitsValue(a.exponent.digits) == 0 ==> Reading(NumberText(a)) == Reading(NumberText(n))
    ensures Reading(NumberText(a)) == Ok(JNum(x)) ==>
              Reading(NumberText(b)) == Bounded(if a.exponent.sign == [0x2D] then x / 10.0 else 10.0 * x)
  {
    hide Reading, NumberText, DigitsValue, Total;
    NumberMeans(n);
    NumberMeans(a);
    NumberMeans(b);
    TotalMore(n, a, b);
  }

  lemma TotalMore(n: Number, a: Number, b: Number)
    requires SameDigits(n, a) && SameDigits(a, b) && n.exponent.NoExponent? && a.exponent.Exponent? && b.exponent.Exponent?
    requires a.exponent.sign == b.exponent.sign && DigitsValue(b.exponent.digits) == DigitsValue(a.exponent.digits) + 1
    ensures DigitsValue(a.exponent.digits) == 0 ==> Total(a) == Total(n)
    ensures Total(b) == if a.exponent.sign == [0x2D] then Total(a) / 10.0 else 10.0 * Total(a)
  {
    hide DigitsValue, Pow10, Decimal;
    SameDecimal(n, a);
    SameDecimal(a, b);
    PowSteps(DigitsValue(a.exponent.digits));
    OneMore(Decimal(n), Pow10(DigitsValue(a.exponent.digits)) as real);
  }

  // The same numeral up to the exponent.
  predicate SameDigits(a: Number, b: Number) { a.minus == b.minus && a.whole == b.whole && a.fraction == b.fraction }

  lemma SameDecimal(a: Number, b: Number)
    requires SameDigits(a, b)
    ensures Decimal(a) == Decimal(b)
  {
  }

  lemma OneMore(d: real, p: real)
    requires p > 0.0
    ensures d * (10.0 * p) == 10.0 * (d * p) && d / (10.0 * p) == d / p / 10.0 && d * 1.0 == d == d / 1.0
  {
    DivideTwice(d, p, 10.0);
    assert p * 10.0 == 10.0 * p;
  }

  /** A minus, 0x2D, in front negates. */
  lemma MinusMeans(n: Number, x: real)
    requires !n.minus && Reading(NumberText(n)) == Ok(JNum(x))
    ensures Reading([0x2D] + NumberText(n)) == Ok(JNum(-x))
  {
    hide Reading, NumberText, Total;
    NumberMeans(n);
    NumberMeans(n.(minus := true));
    NegatedText(n);
    NegatedTotal(n);
  }

  lemma NegatedTotal(n: Number)
    requires !n.minus
    ensures Total(n.(minus := true)) == -Total(n)
  {
    hide DigitsValue, Pow10;
    if n.exponent.Exponent? {
      NegateThrough(Decimal(n), Pow10(DigitsValue(n.exponent.digits)) as real);
    }
  }

  lemma NegateThrough(d: real, p: real)
    requires p > 0.0
    ensures (-d) * p == -(d * p) && (-d) / p == -(d / p)
  {
    assert ((-d) / p + d / p) * p == 0.0;
  }

  lemma NegatedText(n: Number)
    requires !n.minus
    ensures NumberText(n.(minus := true)) == [0x2D] + NumberText(n)
  {
    var rest := n.whole + (FractionText(n.fraction) + ExponentText(n.exponent));
    assert [] + rest == rest;
  }

  /** 1.5, -2.50e+3 and 7E-2. */
  lemma NumberExamples()
    ensures Reading([0x31, 0x2E, 0x35]) == Ok(JNum(1.5))
    ensures Reading([0x2D, 0x32, 0x2E, 0x35, 0x30, 0x65, 0x2B, 0x33]) == Ok(JNum(-2500.0))
    ensures Reading([0x37, 0x45, 0x2D, 0x32]) == Ok(JNum(0.07))
  {
    hide Reading, Total;
    var a: Number := RawNumber(false, [0x31], [0x35], NoExponent);
    var b: Number := RawNumber(true, [0x32], [0x35, 0x30], Exponent(0x65, [0x2B], [0x33]));
    var c: Number := RawNumber(false, [0x37], [], Exponent(0x45, [0x2D], [0x32]));
    NumberMeans(a);
    NumberMeans(b);
    NumberMeans(c);
    Totals(a, b, c);
    assert NumberText(a) == [0x31, 0x2E, 0x35];
    assert NumberText(b) == [0x2D, 0x32, 0x2E, 0x35, 0x30, 0x65, 0x2B, 0x33];
    assert NumberText(c) == [0x37, 0x45, 0x2D, 0x32];
  }

  lemma Totals(a: Number, b: Number, c: Number)
    requires a == RawNumber(false, [0x31], [0x35], NoExponent)
    requires b == RawNumber(true, [0x32], [0x35, 0x30], Exponent(0x65, [0x2B], [0x33]))
    requires c == RawNumber(false, [0x37], [], Exponent(0x45, [0x2D], [0x32]))
    ensures Total(a) == 1.5 && Total(b) == -2500.0 && Total(c) == 0.07
  {
    hide DigitsValue, Pow10;
    OneDigit(1);
    OneDigit(2);
    OneDigit(3);
    OneDigit(5);
    OneDigit(7);
    DigitsSnoc([0x35], 0);
    assert [0x35] + [0x30] == [0x35, 0x30];
    PowSteps(1);
    PowSteps(2);
    NoDigits();
  }

  lemma OneDigit(d: nat)
    requires d < 10
    ensures DigitsValue([0x30 + d]) == d
  {
    assert [0x30 + d][..0] == [];
  }

  lemma NoDigits()
    ensures DigitsValue([]) == 0
  {
  }

  // ---- Strings ----

  lemma ReadsString(cs: seq<StrChar>)
    ensures Reading([0x22] + CharsText(cs) + [0x22]) == Ok(JStr(CharsValue(cs)))
  {
    hide Reading, CharsText, CharsValue;
    ReadsValue(Str(cs));
  }

  lemma ReadsChar(c: StrChar)
    ensures Reading([0x22] + CharText(c) + [0x22]) == Ok(JStr([CharValue(c)]))
  {
    hide Reading, CharText, CharValue;
    ReadsString([c]);
    assert [c][1..] == [] && CharText(c) + [] == CharText(c);
    assert CharsText([c]) == CharText(c);
    assert CharsValue([c]) == [CharValue(c)];
  }

  /** The eight short escapes, unit by unit: " \ / stand for themselves, b f n r t for control characters. */
  lemma EscapesMean(letter: Unit, u: Unit)
    requires (letter, u) in [(0x22, 0x22), (0x5C, 0x5C), (0x2F, 0x2F), (0x62, 0x08), (0x66, 0x0C), (0x6E, 0x0A), (0x72, 0x0D), (0x74, 0x09)]
    ensures Reading([0x22, 0x5C, letter, 0x22]) == Ok(JStr([u]))
  {
    hide Reading;
    ReadsChar(Short(letter));
    assert [0x22] + [0x5C, letter] + [0x22] == [0x22, 0x5C, letter, 0x22];
  }

  // The unit writes the hexadecimal digit d, in either case.
  predicate Shows(u: Unit, d: nat) {
    if d < 10 then u == 0x30 + d else d < 16 && (u == 0x61 + (d - 10) || u == 0x41 + (d - 10))
  }

  /** \u and four hexadecimal digits stand for one unit, the first digit counting most. */
  lemma HexMeans(h: Text, a: nat, b: nat, c: nat, d: nat)
    requires |h| == 4 && Shows(h[0], a) && Shows(h[1], b) && Shows(h[2], c) && Shows(h[3], d)
    ensures Reading([0x22, 0x5C, 0x75] + h + [0x22]) == Ok(JStr([4096 * a + 256 * b + 16 * c + d]))
  {
    hide Reading;
    ReadsChar(Hex(h));
    assert [0x22] + ([0x5C, 0x75] + h) + [0x22] == [0x22, 0x5C, 0x75] + h + [0x22];
  }

  /** Between quotes, 0x22, units from 0x20 on other than quote and backslash stand for themselves. */
  lemma PlainMeans(s: Text)
    requires forall i :: 0 <= i < |s| ==> s[i] >= 0x20 && s[i] != 0x22 && s[i] != 0x5C
    ensures Reading([0x22] + s + [0x22]) == Ok(JStr(s))
  {
    hide Reading;
    var cs: seq<StrChar> := seq(|s|, i requires 0 <= i < |s| => Plain(s[i]));
    PlainText(s, cs);
    ReadsString(cs);
  }

  lemma {:induction false} PlainText(s: Text, cs: seq<StrChar>)
    requires |cs| == |s| && forall i :: 0 <= i < |s| ==> cs[i] == Plain(s[i])
    ensures CharsText(cs) == s && CharsValue(cs) == s
    decreases |s|
  {
    if s != [] {
      PlainText(s[1..], cs[1..]);
      assert s == [s[0]] + s[1..];
    }
  }

  // ---- Literals, blanks, arrays and objects ----

  /** null, true and false. */
  lemma LiteralsMean()
    ensures Reading([0x6E, 0x75, 0x6C, 0x6C]) == Ok(JNull)
    ensures Reading([0x74, 0x72, 0x75, 0x65]) == Ok(JBool(true))
    ensures Reading([0x66, 0x61, 0x6C, 0x73, 0x65]) == Ok(JBool(false))
  {
    hide Reading;
    ReadsValue(Null);
    ReadsValue(Bool(true));
    ReadsValue(Bool(false));
  }

  // Spaces, line feeds, carriage returns and tabs.
  predicate Blanks(w: Text) { forall i :: 0 <= i < |w| ==> w[i] == 0x20 || w[i] == 0x0A || w[i] == 0x0D || w[i] == 0x09 }

  /** Blanks around a text change nothing. */
  lemma BlanksMean(before: Text, t: Text, after: Text)
    requires Blanks(before) && Blanks(after) && Reading(t).Ok?
    ensures Reading(before + (t + after)) == Reading(t)
  {
    hide Reading, ValueText, AllFinite, Meaning;
    var doc := TreeOf(t);
    var wider := Item(before + doc.before, doc.value, doc.after + after);
    ReadsTree(wider);
    assert ItemText(wider) == before + (t + after);
  }

  function Commas(parts: seq<Text>): Text
    requires parts != []
    decreases |parts|
  {
    if |parts| == 1 then parts[0] else parts[0] + ([0x2C] + Commas(parts[1..]))
  }

  lemma {:induction false} ItemsOf(parts: seq<Text>, values: seq<Json>) returns (items: Items)
    requires |parts| == |values| > 0 && forall i :: 0 <= i < |parts| ==> Reading(parts[i]) == Ok(values[i])
    ensures ItemsText(items) == Commas(parts) && ItemsMeaning(items) == values && ItemsFinite(items)
    decreases |parts|
  {
    hide Reading, ItemText, AllFinite, Meaning;
    var first := TreeOf(parts[0]);
    if |parts| == 1 {
      items := One(first);
    } else {
      var rest := ItemsOf(parts[1..], values[1..]);
      items := More(first, rest);
    }
  }

  /** An array of texts that are read, between brackets and commas, is the sequence of their values. */
  lemma ArraysMean(parts: seq<Text>, values: seq<Json>)
    requires |parts| == |values| > 0 && forall i :: 0 <= i < |parts| ==> Reading(parts[i]) == Ok(values[i])
    ensures Reading([0x5B] + (Commas(parts) + [0x5D])) == Ok(JArr(values))
  {
    hide Reading;
    var items := ItemsOf(parts, values);
    hide ItemsText, ItemsMeaning, ItemsFinite, Commas;
    ReadsValue(Array(items));
  }

  /** Nothing but blanks between brackets is an empty array, and between braces an empty object. */
  lemma EmptyMeans(w: Text)
    requires Blanks(w)
    ensures Reading([0x5B] + (w + [0x5D])) == Ok(JArr([]))
    ensures Reading([0x7B] + (w + [0x7D])) == Ok(JObj(map[], true))
  {
    hide Reading;
    ReadsValue(EmptyArray(w));
    ReadsValue(EmptyObject(w));
  }

  // A name, a colon and a value, with a comma in front of all but the first.
  function Pairs(names: seq<Text>, parts: seq<Text>): Text
    requires |names| == |parts| > 0
    decreases |parts|
  {
    if |parts| == 1 then names[0] + ([0x3A] + parts[0])
    else names[0] + ([0x3A] + parts[0]) + ([0x2C] + Pairs(names[1..], parts[1..]))
  }

  // The properties set one after the other.
  function Filled(own: map<Text, Json>, keys: seq<Text>, values: seq<Json>): map<Text, Json>
    requires |keys| == |values|
    decreases |keys|
  {
    if keys == [] then own else Filled(own[keys[0] := values[0]], keys[1..], values[1..])
  }

  lemma MemberOf(name: Text, part: Text, key: Text, value: Json) returns (m: Member)
    requires Reading(name) == Ok(JStr(key)) && Reading(part) == Ok(value)
    ensures MemberText(m) == name + ([0x3A] + part) && CharsValue(m.key) == key && Meaning(m.item.value) == value && AllFinite(m.item.value)
  {
    hide Reading, AllFinite, StringText;
    var n := TreeOf(name);
    var p := TreeOf(part);
    assert n.value.Str?;
    m := Member(n.before, n.value.chars, n.after, p);
    hide ItemText, Meaning;
    NameText(n, [0x3A] + part);
  }

  lemma NameText(n: Item, rest: Text)
    requires n.value.Str?
    ensures n.before + (StringText(n.value.chars) + (n.after + rest)) == ItemText(n) + rest
  {
    hide StringText;
  }

  lemma {:induction false} MembersOf(names: seq<Text>, parts: seq<Text>, keys: seq<Text>, values: seq<Json>, own: map<Text, Json>)
    returns (ms: Members)
    requires |names| == |parts| == |keys| == |values| > 0
    requires forall i :: 0 <= i < |parts| ==> Reading(names[i]) == Ok(JStr(keys[i])) && Reading(parts[i]) == Ok(values[i]) && keys[i] != PROTO
    ensures MembersText(ms) == Pairs(names, parts) && MembersFinite(ms)
    ensures Build(JObj(own, true), ms) == JObj(Filled(own, keys, values), true)
    decreases |parts|
  {
    hide Reading, MemberText, AllFinite, Meaning, CharsValue;
    var m := MemberOf(names[0], parts[0], keys[0], values[0]);
    if |parts| == 1 {
      ms := OneMember(m);
      assert keys[1..] == [];
    } else {
      var rest := MembersOf(names[1..], parts[1..], keys[1..], values[1..], own[keys[0] := values[0]]);
      ms := MoreMembers(m, rest);
    }
  }

  /** An object of names and values that are read, between braces, colons and commas, has those properties,
      set in order, so that the last of a name stays. The name `__proto__` apart. */
  lemma ObjectsMean(names: seq<Text>, parts: seq<Text>, keys: seq<Text>, values: seq<Json>)
    requires |names| == |parts| == |keys| == |values| > 0
    requires forall i :: 0 <= i < |parts| ==> Reading(names[i]) == Ok(JStr(keys[i])) && Reading(parts[i]) == Ok(values[i])
    requires forall i :: 0 <= i < |keys| ==> keys[i] != [0x5F, 0x5F, 0x70, 0x72, 0x6F, 0x74, 0x6F, 0x5F, 0x5F]
    ensures Reading([0x7B] + (Pairs(names, parts) + [0x7D])) == Ok(JObj(Filled(map[], keys, values), true))
  {
    hide Reading, Build, MembersText, MembersFinite, Pairs, Filled;
    var ms := MembersOf(names, parts, keys, values, map[]);
    ReadsValue(Object(ms));
  }

  lemma TwiceNamed(name: Text, a: Text, b: Text, key: Text, x: Json, y: Json)
    requires Reading(name) == Ok(JStr(key)) && Reading(a) == Ok(x) && Reading(b) == Ok(y)
    ensures Reading([0x7B] + (Pairs([name, name], [a, b]) + [0x7D])) == Ok(Assign(Assign(EMPTY_RECORD, key, x), key, y))
  {
    hide Reading, MemberText, AllFinite, Meaning, CharsValue, Assign;
    var m := MemberOf(name, a, key, x);
    var n := MemberOf(name, b, key, y);
    var ms := MoreMembers(m, OneMember(n));
    assert [name, name][1..] == [name] && [a, b][1..] == [b];
    assert Pairs([name], [b]) == MemberText(n);
    assert MembersText(ms) == Pairs([name, name], [a, b]);
    NamedObject(ms);
  }

  lemma NamedObject(ms: Members)
    requires MembersFinite(ms)
    ensures Reading([0x7B] + (MembersText(ms) + [0x7D])) == Ok(Build(EMPTY_RECORD, ms))
  {
    hide Reading, MembersText, MembersFinite, Build;
    ReadsValue(Object(ms));
  }

  /** The name `__proto__`: a value that is neither an object nor null is dropped; after null, which cuts the
      object off from its prototype, it is a name like any other; after an empty object it is not. */
  lemma ProtoMeans(name: Text)
    requires name == [0x22, 0x5F, 0x5F, 0x70, 0x72, 0x6F, 0x74, 0x6F, 0x5F, 0x5F, 0x22]
    ensures var t, n, o := [0x74, 0x72, 0x75, 0x65], [0x6E, 0x75, 0x6C, 0x6C], [0x7B, 0x7D];
            && Reading([0x7B] + (Pairs([name, name], [t, t]) + [0x7D])) == Ok(JObj(map[], true))
            && Reading([0x7B] + (Pairs([name, name], [n, t]) + [0x7D])) == Ok(JObj(map[PROTO := JBool(true)], false))
            && Reading([0x7B] + (Pairs([name, name], [o, t]) + [0x7D])) == Ok(JObj(map[], true))
  {
    hide Reading, Pairs;
    PlainMeans(PROTO);
    assert [0x22] + PROTO + [0x22] == name;
    LiteralsMean();
    EmptyMeans([]);
    assert [0x7B] + ([] + [0x7D]) == [0x7B, 0x7D];
    TwiceNamed(name, [0x74, 0x72, 0x75, 0x65], [0x74, 0x72, 0x75, 0x65], PROTO, JBool(true), JBool(true));
    TwiceNamed(name, [0x6E, 0x75, 0x6C, 0x6C], [0x74, 0x72, 0x75, 0x65], PROTO, JNull, JBool(true));
    TwiceNamed(name, [0x7B, 0x7D], [0x74, 0x72, 0x75, 0x65], PROTO, EMPTY_RECORD, JBool(true));
  }

  // ---- The largest double ----

  function Pow2(e: nat): nat { if e == 0 then 1 else 2 * Pow2(e - 1) }

  lemma {:induction false} Pow2Add(a: nat, b: nat)
    ensures Pow2(a + b) == Pow2(a) * Pow2(b)
    decreases b
  {
    if b > 0 {
      Pow2Add(a, b - 1);
      var x, y := Pow2(a), Pow2(b - 1);
      assert 2 * (x * y) == x * (2 * y);
    }
  }

  lemma SmallPowers()
    ensures Pow2(2) == 4 && Pow2(4) == 16 && Pow2(8) == 256
  {
  }

  /** The bound is halfway between the largest double and the next power of two: 2^1024 - 2^970. */
  lemma OverflowMeans()
    ensures OVERFLOW == Pow2(1024) - Pow2(970)
  {
    hide Pow2;
    SmallPowers();
    Pow2Add(8, 8);
    Pow2Add(16, 16);
    Pow2Add(32, 32);
    Pow2Add(64, 64);
    Pow2Add(128, 128);
    Pow2Add(256, 256);
    Pow2Add(512, 256);
    Pow2Add(768, 128);
    Pow2Add(896, 64);
    Pow2Add(8, 2);
    Pow2Add(960, 10);
    Pow2Add(32, 16);
    Pow2Add(48, 4);
    Pow2Add(52, 2);
    Pow2Add(970, 54);
  }
}
