/** The reader as a function on positions, and the proof that it recognises exactly the
    grammar: every tree it returns spells the text it consumed, and every text spelled by a
    tree with finite numbers is read back as that very tree. */
module JsonParser {
  import opened JsText
  import opened JsonGrammar
  import opened JsonSpelling

  datatype Parsed<+T> = Fail | Got(value: T, next: nat)

  // ---- The reader ----

  function SkipWs(t: Text, i: nat): (r: nat)
    requires i <= |t|
    ensures i <= r <= |t|
    decreases |t| - i
  {
    if i < |t| && IsWs(t[i]) then SkipWs(t, i + 1) else i
  }

  lemma {:induction false} SkipWsStops(t: Text, i: nat)
    requires i <= |t|
    ensures forall k :: i <= k < SkipWs(t, i) ==> IsWs(t[k])
    ensures SkipWs(t, i) < |t| ==> !IsWs(t[SkipWs(t, i)])
    decreases |t| - i
  {
    if i < |t| && IsWs(t[i]) {
      SkipWsStops(t, i + 1);
    }
  }

  function SkipDigits(t: Text, i: nat): (r: nat)
    requires i <= |t|
    ensures i <= r <= |t|
    ensures forall k :: i <= k < r ==> IsDigit(t[k])
    decreases |t| - i
  {
    if i < |t| && IsDigit(t[i]) then SkipDigits(t, i + 1) else i
  }

  // The run of blanks at i.
  function Blank(t: Text, i: nat): (w: Ws)
    requires i <= |t|
    ensures Spans(t, i, w) && SkipWs(t, i) == i + |w|
  {
    SkipWsStops(t, i);
    t[i..SkipWs(t, i)]
  }

  predicate IsQuad(t: Text, i: nat) {
    i + 4 <= |t| && forall k :: i <= k < i + 4 ==> IsHex(t[k])
  }

  function PChar(t: Text, i: nat): (r: Parsed<StrChar>)
    requires i < |t|
    ensures r.Got? ==> Spans(t, i, CharText(r.value)) && r.next == i + |CharText(r.value)|
  {
    if t[i] == BACKSLASH then
      if i + 1 >= |t| then Fail
      else if IsShortEscape(t[i + 1]) then Got(Short(t[i + 1]), i + 2)
      else if t[i + 1] == LOWER_U && IsQuad(t, i + 2) then Got(Hex(t[i + 2..i + 6]), i + 6)
      else Fail
    else if t[i] < 0x20 || t[i] == QUOTE then Fail
    else Got(Plain(t[i]), i + 1)
  }

  // The characters after the opening quotation mark, up to and including the closing one.
  function PChars(t: Text, i: nat): (r: Parsed<seq<StrChar>>)
    requires i <= |t|
    ensures r.Got? ==> i < r.next <= |t|
    decreases |t| - i
  {
    if i == |t| then Fail
    else if t[i] == QUOTE then Got([], i + 1)
    else
      match PChar(t, i)
      case Fail => Fail
      case Got(c, j) =>
        match PChars(t, j)
        case Fail => Fail
        case Got(cs, n) => Got([c] + cs, n)
  }

  function PString(t: Text, i: nat): (r: Parsed<seq<StrChar>>)
    requires i <= |t|
    ensures r.Got? ==> i < r.next <= |t|
  {
    if At(t, i, QUOTE) then PChars(t, i + 1) else Fail
  }

  function PWhole(t: Text, i: nat): (r: Parsed<Digits>)
    requires i <= |t|
    ensures r.Got? ==> Spans(t, i, r.value) && r.next == i + |r.value|
    ensures r.Got? ==> r.value != [] && (r.value[0] == ZERO ==> |r.value| == 1)
  {
    if i < |t| && IsDigit(t[i]) then
      var j := if t[i] == ZERO then i + 1 else SkipDigits(t, i);
      Got(t[i..j], j)
    else Fail
  }

  function PFraction(t: Text, i: nat): (r: Parsed<Digits>)
    requires i <= |t|
    ensures r.Got? ==> FractionAt(t, i, r.value) && r.next == i + FractionSize(r.value) <= |t|
  {
    if At(t, i, DOT) then
      var j := SkipDigits(t, i + 1);
      if j == i + 1 then Fail else Got(t[i + 1..j], j)
    else Got([], i)
  }

  predicate IsSign(s: Text) { s == [] || s == [PLUS] || s == [MINUS] }

  predicate GoodExponent(e: RawExponent) {
    e.Exponent? ==> (e.mark == LOWER_E || e.mark == UPPER_E) && IsSign(e.sign) && e.digits != []
  }

  function PSign(t: Text, i: nat): (r: Parsed<Text>)
    requires i <= |t|
    ensures r.Got? && IsSign(r.value) && Spans(t, i, r.value) && r.next == i + |r.value|
  {
    if At(t, i, PLUS) || At(t, i, MINUS) then Got([t[i]], i + 1) else Got([], i)
  }

  function PExponent(t: Text, i: nat): (r: Parsed<RawExponent>)
    requires i <= |t|
    ensures r.Got? ==> ExponentAt(t, i, r.value) && r.next == i + ExponentSize(r.value) <= |t|
    ensures r.Got? ==> GoodExponent(r.value)
  {
    if At(t, i, LOWER_E) || At(t, i, UPPER_E) then
      var s := PSign(t, i + 1);
      var j := SkipDigits(t, s.next);
      if j == s.next then Fail else Got(Exponent(t[i], s.value, t[s.next..j]), j)
    else Got(NoExponent, i)
  }

  function PNumber(t: Text, i: nat): (r: Parsed<Number>)
    requires i <= |t|
    ensures r.Got? ==> i < r.next <= |t|
  {
    var minus := At(t, i, MINUS);
    match PWhole(t, if minus then i + 1 else i)
    case Fail => Fail
    case Got(whole, b) =>
      match PFraction(t, b)
      case Fail => Fail
      case Got(fraction, c) =>
        match PExponent(t, c)
        case Fail => Fail
        case Got(exponent, d) =>
          var n: Number := RawNumber(minus, whole, fraction, exponent);
          if IsFinite(NumberValue(n)) then Got(n, d) else Fail
  }

  function PLiteral(t: Text, i: nat, literal: Text, v: Value): (r: Parsed<Value>)
    requires i <= |t|
    ensures r == if Spans(t, i, literal) then Got(v, i + |literal|) else Fail
  {
    if i + |literal| <= |t| && t[i..i + |literal|] == literal then
      assert forall k :: 0 <= k < |literal| ==> t[i..i + |literal|][k] == literal[k];
      Got(v, i + |literal|)
    else Fail
  }

  // A value that starts at i, blanks before it already skipped.
  function PBare(t: Text, i: nat): (r: Parsed<Value>)
    requires i <= |t|
    ensures r.Got? ==> i < r.next <= |t|
    decreases |t| - i, 0
  {
    if i == |t| then Fail
    else if t[i] == QUOTE then
      match PString(t, i)
      case Fail => Fail
      case Got(cs, j) => Got(Str(cs), j)
    else if t[i] == LBRACE then
      var w := SkipWs(t, i + 1);
      if At(t, w, RBRACE) then Got(EmptyObject(Blank(t, i + 1)), w + 1)
      else
        match PMembers(t, i + 1)
        case Fail => Fail
        case Got(ms, j) => Got(Object(ms), j)
    else if t[i] == LBRACKET then
      var w := SkipWs(t, i + 1);
      if At(t, w, RBRACKET) then Got(EmptyArray(Blank(t, i + 1)), w + 1)
      else
        match PItems(t, i + 1)
        case Fail => Fail
        case Got(items, j) => Got(Array(items), j)
    else if t[i] == LOWER_T then PLiteral(t, i, TRUE_TEXT, Bool(true))
    else if t[i] == LOWER_F then PLiteral(t, i, FALSE_TEXT, Bool(false))
    else if t[i] == LOWER_N then PLiteral(t, i, NULL_TEXT, Null)
    else
      match PNumber(t, i)
      case Fail => Fail
      case Got(n, j) => Got(Num(n), j)
  }

  function PItem(t: Text, i: nat): (r: Parsed<Item>)
    requires i <= |t|
    ensures r.Got? ==> i < r.next <= |t|
    decreases |t| - i, 1
  {
    match PBare(t, SkipWs(t, i))
    case Fail => Fail
    case Got(v, j) => Got(Item(Blank(t, i), v, Blank(t, j)), SkipWs(t, j))
  }

  // The elements of an array and its closing bracket.
  function PItems(t: Text, i: nat): (r: Parsed<Items>)
    requires i <= |t|
    ensures r.Got? ==> i < r.next <= |t|
    decreases |t| - i, 2
  {
    match PItem(t, i)
    case Fail => Fail
    case Got(item, j) =>
      if At(t, j, RBRACKET) then Got(One(item), j + 1)
      else if At(t, j, COMMA) then
        match PItems(t, j + 1)
        case Fail => Fail
        case Got(rest, n) => Got(More(item, rest), n)
      else Fail
  }

  function PMember(t: Text, i: nat): (r: Parsed<Member>)
    requires i <= |t|
    ensures r.Got? ==> i < r.next <= |t|
    decreases |t| - i, 2
  {
    match PString(t, SkipWs(t, i))
    case Fail => Fail
    case Got(key, j) =>
      var c := SkipWs(t, j);
      if !At(t, c, COLON) then Fail
      else
        match PItem(t, c + 1)
        case Fail => Fail
        case Got(item, n) => Got(Member(Blank(t, i), key, Blank(t, j), item), n)
  }

  // The members of an object and its closing brace.
  function PMembers(t: Text, i: nat): (r: Parsed<Members>)
    requires i <= |t|
    ensures r.Got? ==> i < r.next <= |t|
    decreases |t| - i, 3
  {
    match PMember(t, i)
    case Fail => Fail
    case Got(m, j) =>
      if At(t, j, RBRACE) then Got(OneMember(m), j + 1)
      else if At(t, j, COMMA) then
        match PMembers(t, j + 1)
        case Fail => Fail
        case Got(rest, n) => Got(MoreMembers(m, rest), n)
      else Fail
  }

  // A whole text: one value between blanks and nothing after it.
  function PText(t: Text): Parsed<Item> {
    match PItem(t, 0)
    case Fail => Fail
    case Got(item, j) => if j == |t| then Got(item, j) else Fail
  }

  // ---- Soundness ----

  lemma {:induction false} CharsSound(t: Text, i: nat)
    requires i <= |t| && PChars(t, i).Got?
    ensures var r := PChars(t, i);
            CharsAt(t, i, r.value) && At(t, i + CharsSize(r.value), QUOTE) && r.next == i + CharsSize(r.value) + 1
    decreases |t| - i
  {
    hide PChar, CharText, Spans;
    if t[i] != QUOTE {
      CharsSound(t, PChar(t, i).next);
    }
  }

  lemma StringSound(t: Text, i: nat)
    requires i <= |t| && PString(t, i).Got?
    ensures var r := PString(t, i);
            StringAt(t, i, r.value) && r.next == i + StringSize(r.value)
  {
    hide PChars;
    CharsSound(t, i + 1);
  }

  lemma NumberSound(t: Text, i: nat)
    requires i <= |t| && PNumber(t, i).Got?
    ensures var r := PNumber(t, i);
            NumberAt(t, i, r.value) && r.next == i + NumberSize(r.value) && IsFinite(NumberValue(r.value))
  {
    hide IsFinite, NumberValue, PWhole, PFraction, PExponent, Spans, FractionAt, ExponentAt;
  }

  lemma {:induction false} ValueSound(t: Text, i: nat)
    requires i <= |t| && PBare(t, i).Got?
    ensures var r := PBare(t, i);
            ValueAt(t, i, r.value) && r.next == i + ValueSize(r.value) && AllFinite(r.value)
    decreases |t| - i, 1
  {
    hide PNumber, PString, PItems, PMembers, NumberAt, StringAt, IsFinite, NumberValue, SkipWs, Spans, ItemsAt, MembersAt;
    if PBare(t, i).value.Num? {
      NumberSound(t, i);
    } else if PBare(t, i).value.Str? {
      StringSound(t, i);
    } else if t[i] == LBRACE || t[i] == LBRACKET {
      BracketSound(t, i);
    }
  }

  lemma {:induction false} BracketSound(t: Text, i: nat)
    requires i < |t| && PBare(t, i).Got? && (t[i] == LBRACE || t[i] == LBRACKET)
    ensures var r := PBare(t, i);
            ValueAt(t, i, r.value) && r.next == i + ValueSize(r.value) && AllFinite(r.value)
    decreases |t| - i, 0
  {
    hide PItems, PMembers, SkipWs, Spans;
    if t[i] == LBRACE && !At(t, SkipWs(t, i + 1), RBRACE) {
      MembersSound(t, i + 1);
    } else if t[i] == LBRACKET && !At(t, SkipWs(t, i + 1), RBRACKET) {
      ItemsSound(t, i + 1);
    }
  }

  lemma {:induction false} ItemSound(t: Text, i: nat)
    requires i <= |t| && PItem(t, i).Got?
    ensures var r := PItem(t, i);
            ItemAt(t, i, r.value) && r.next == i + ItemSize(r.value) && AllFinite(r.value.value)
    decreases |t| - i, 2
  {
    hide PBare, ValueAt, ValueSize, AllFinite, SkipWs, Spans;
    ValueSound(t, SkipWs(t, i));
  }

  lemma {:induction false} ItemsSound(t: Text, i: nat)
    requires i <= |t| && PItems(t, i).Got?
    ensures var r := PItems(t, i);
            && ItemsAt(t, i, r.value) && At(t, i + ItemsSize(r.value), RBRACKET)
            && r.next == i + ItemsSize(r.value) + 1 && ItemsFinite(r.value)
    decreases |t| - i, 3
  {
    hide PItem, ItemAt, ItemSize, AllFinite;
    ItemSound(t, i);
    var j := PItem(t, i).next;
    if !At(t, j, RBRACKET) {
      ItemsSound(t, j + 1);
    }
  }

  lemma {:induction false} MemberSound(t: Text, i: nat)
    requires i <= |t| && PMember(t, i).Got?
    ensures var r := PMember(t, i);
            MemberAt(t, i, r.value) && r.next == i + MemberSize(r.value) && AllFinite(r.value.item.value)
    decreases |t| - i, 3
  {
    hide PItem, ItemAt, ItemSize, AllFinite, PString, StringAt, StringSize, SkipWs, Spans;
    StringSound(t, SkipWs(t, i));
    var j := PString(t, SkipWs(t, i)).next;
    ItemSound(t, SkipWs(t, j) + 1);
  }

  lemma {:induction false} MembersSound(t: Text, i: nat)
    requires i <= |t| && PMembers(t, i).Got?
    ensures var r := PMembers(t, i);
            && MembersAt(t, i, r.value) && At(t, i + MembersSize(r.value), RBRACE)
            && r.next == i + MembersSize(r.value) + 1 && MembersFinite(r.value)
    decreases |t| - i, 4
  {
    hide PMember, MemberAt, MemberSize, AllFinite;
    MemberSound(t, i);
    var j := PMember(t, i).next;
    if !At(t, j, RBRACE) {
      MembersSound(t, j + 1);
    }
  }

  // ---- Completeness ----

  // What may follow a value, and what may follow a value with its trailing blanks.
  predicate Delimited(t: Text, i: nat) { i < |t| ==> IsWs(t[i]) || IsCloser(t[i]) }
  predicate Closed(t: Text, i: nat) { i < |t| ==> IsCloser(t[i]) }
  predicate IsCloser(u: Unit) { u == COMMA || u == RBRACKET || u == RBRACE }

  lemma {:induction false} SkipWsComplete(t: Text, i: nat, w: Ws)
    requires Spans(t, i, w)
    requires i + |w| < |t| ==> !IsWs(t[i + |w|])
    ensures SkipWs(t, i) == i + |w|
    ensures Blank(t, i) == w
    decreases |w|
  {
    if w != [] {
      assert t[i + 0] == w[0];
      assert Spans(t, i + 1, w[1..]) by {
        forall k | 0 <= k < |w| - 1 ensures t[i + 1 + k] == w[1..][k] {
          assert t[i + (k + 1)] == w[k + 1];
        }
      }
      SkipWsComplete(t, i + 1, w[1..]);
    }
    forall k | 0 <= k < |w| ensures Blank(t, i)[k] == w[k] {
      assert t[i + k] == w[k];
    }
  }

  lemma {:induction false} SkipDigitsComplete(t: Text, i: nat, d: Digits)
    requires Spans(t, i, d)
    requires i + |d| < |t| ==> !IsDigit(t[i + |d|])
    ensures SkipDigits(t, i) == i + |d|
    ensures t[i..i + |d|] == d
    decreases |d|
  {
    if d != [] {
      assert t[i + 0] == d[0];
      assert Spans(t, i + 1, d[1..]) by {
        forall k | 0 <= k < |d| - 1 ensures t[i + 1 + k] == d[1..][k] {
          assert t[i + (k + 1)] == d[k + 1];
        }
      }
      SkipDigitsComplete(t, i + 1, d[1..]);
    }
  }

  lemma CharComplete(t: Text, i: nat, c: StrChar)
    requires Spans(t, i, CharText(c))
    ensures PChar(t, i) == Got(c, i + |CharText(c)|)
    ensures t[i] != QUOTE
  {
    var w := CharText(c);
    assert t[i + 0] == w[0];
    match c
    case Plain(_) =>
    case Short(_) => assert t[i + 1] == w[1];
    case Hex(quad) =>
      assert t[i + 1] == w[1];
      forall k | 0 <= k < 4 ensures t[i + 2 + k] == quad[k] {
        assert t[i + (k + 2)] == w[k + 2];
      }
      assert t[i + 2..i + 6] == quad;
  }

  lemma {:induction false} CharsComplete(t: Text, i: nat, cs: seq<StrChar>)
    requires CharsAt(t, i, cs) && At(t, i + CharsSize(cs), QUOTE)
    ensures PChars(t, i) == Got(cs, i + CharsSize(cs) + 1)
    decreases |cs|
  {
    hide Spans, PChar, CharText;
    if cs != [] {
      CharComplete(t, i, cs[0]);
      CharsComplete(t, i + |CharText(cs[0])|, cs[1..]);
      assert cs == [cs[0]] + cs[1..];
    }
  }

  lemma StringComplete(t: Text, i: nat, cs: seq<StrChar>)
    requires StringAt(t, i, cs)
    ensures PString(t, i) == Got(cs, i + StringSize(cs))
    ensures At(t, i, QUOTE)
  {
    CharsComplete(t, i + 1, cs);
  }

  lemma FractionComplete(t: Text, i: nat, d: Digits)
    requires i <= |t| && FractionAt(t, i, d)
    requires var j := i + FractionSize(d); j < |t| ==> !IsDigit(t[j]) && t[j] != DOT
    ensures PFraction(t, i) == Got(d, i + FractionSize(d))
    ensures d != [] ==> At(t, i, DOT)
  {
    if d != [] {
      SkipDigitsComplete(t, i + 1, d);
    }
  }

  lemma FractionBound(t: Text, i: nat, d: Digits)
    requires i <= |t| && FractionAt(t, i, d)
    ensures i + FractionSize(d) <= |t|
  {
  }

  lemma SignComplete(t: Text, i: nat, s: Text)
    requires IsSign(s) && Spans(t, i, s) && i + |s| < |t| && IsDigit(t[i + |s|])
    ensures PSign(t, i) == Got(s, i + |s|)
  {
    if s != [] {
      assert t[i + 0] == s[0];
    }
  }

  lemma ExponentComplete(t: Text, i: nat, e: RawExponent)
    requires i <= |t| && ExponentAt(t, i, e) && GoodExponent(e)
    requires Delimited(t, i + ExponentSize(e))
    ensures PExponent(t, i) == Got(e, i + ExponentSize(e))
    ensures e.Exponent? ==> At(t, i, e.mark)
  {
    if e.Exponent? {
      var s := i + 1 + |e.sign|;
      assert t[s + 0] == e.digits[0];
      SignComplete(t, i + 1, e.sign);
      SkipDigitsComplete(t, s, e.digits);
    }
  }

  lemma WholeComplete(t: Text, i: nat, d: Digits)
    requires Spans(t, i, d) && d != [] && (d[0] == ZERO ==> |d| == 1)
    requires i + |d| < |t| ==> !IsDigit(t[i + |d|])
    ensures PWhole(t, i) == Got(d, i + |d|)
    ensures At(t, i, d[0])
  {
    assert t[i + 0] == d[0];
    SkipDigitsComplete(t, i, d);
  }

  lemma NumberComplete(t: Text, i: nat, n: Number)
    requires NumberAt(t, i, n) && Delimited(t, i + NumberSize(n))
    ensures PNumber(t, i) == if IsFinite(NumberValue(n)) then Got(n, i + NumberSize(n)) else Fail
    ensures i < |t| && (t[i] == MINUS || IsDigit(t[i]))
  {
    hide Spans, PWhole, PFraction, PExponent, FractionAt, ExponentAt, NumberValue, IsFinite, SkipDigits;
    var a := i + MinusSize(n.minus);
    var b := a + |n.whole|;
    var c := b + FractionSize(n.fraction);
    SpansBound(t, a, n.whole);
    FractionBound(t, b, n.fraction);
    ExponentComplete(t, c, n.exponent);
    FractionComplete(t, b, n.fraction);
    WholeComplete(t, a, n.whole);
  }

  lemma {:induction false} ValueComplete(t: Text, i: nat, v: Value)
    requires ValueAt(t, i, v) && Delimited(t, i + ValueSize(v))
    requires AllFinite(v)
    ensures PBare(t, i) == Got(v, i + ValueSize(v))
    ensures i < |t| && !IsWs(t[i]) && !IsCloser(t[i])
    decreases v, 1
  {
    hide PNumber, PString, NumberAt, StringAt, ItemsAt, MembersAt, PItems, PMembers, IsFinite, NumberValue;
    match v
    case Null => assert t[i + 0] == NULL_TEXT[0];
    case Bool(b) => assert t[i + 0] == (if b then TRUE_TEXT else FALSE_TEXT)[0];
    case Num(n) => NumberComplete(t, i, n);
    case Str(cs) => StringComplete(t, i, cs);
    case EmptyArray(_) => BracketComplete(t, i, v);
    case EmptyObject(_) => BracketComplete(t, i, v);
    case Array(_) => BracketComplete(t, i, v);
    case Object(_) => BracketComplete(t, i, v);
  }

  lemma {:induction false} BracketComplete(t: Text, i: nat, v: Value)
    requires v.EmptyArray? || v.EmptyObject? || v.Array? || v.Object?
    requires ValueAt(t, i, v) && AllFinite(v)
    ensures PBare(t, i) == Got(v, i + ValueSize(v))
    ensures At(t, i, LBRACE) || At(t, i, LBRACKET)
    decreases v, 0
  {
    hide PItems, PMembers, ItemsAt, MembersAt;
    match v
    case EmptyArray(w) => SkipWsComplete(t, i + 1, w);
    case EmptyObject(w) => SkipWsComplete(t, i + 1, w);
    case Array(items) => ItemsComplete(t, i + 1, items);
    case Object(members) => MembersComplete(t, i + 1, members);
  }

  lemma {:induction false} ItemComplete(t: Text, i: nat, it: Item)
    requires ItemAt(t, i, it) && Closed(t, i + ItemSize(it))
    requires AllFinite(it.value)
    ensures PItem(t, i) == Got(it, i + ItemSize(it))
    ensures SkipWs(t, i) < |t| && !IsCloser(t[SkipWs(t, i)])
    decreases it, 0
  {
    hide PBare, ValueAt, AllFinite, ValueSize;
    var w := i + |it.before|;
    var j := w + ValueSize(it.value);
    if it.after != [] {
      assert t[j + 0] == it.after[0];
    }
    ValueComplete(t, w, it.value);
    SkipWsComplete(t, i, it.before);
    SkipWsComplete(t, j, it.after);
  }

  lemma {:induction false} ItemsComplete(t: Text, i: nat, items: Items)
    requires ItemsAt(t, i, items) && At(t, i + ItemsSize(items), RBRACKET)
    requires ItemsFinite(items)
    ensures PItems(t, i) == Got(items, i + ItemsSize(items) + 1)
    ensures SkipWs(t, i) < |t| && !IsCloser(t[SkipWs(t, i)])
    decreases items, 0
  {
    hide PItem, ItemAt, AllFinite, ItemSize, SkipWs;
    match items
    case One(item) => ItemComplete(t, i, item);
    case More(first, rest) =>
      ItemComplete(t, i, first);
      ItemsComplete(t, i + ItemSize(first) + 1, rest);
  }

  lemma {:induction false} MemberComplete(t: Text, i: nat, m: Member)
    requires MemberAt(t, i, m) && Closed(t, i + MemberSize(m))
    requires AllFinite(m.item.value)
    ensures PMember(t, i) == Got(m, i + MemberSize(m))
    ensures At(t, SkipWs(t, i), QUOTE)
    decreases m, 0
  {
    hide PItem, ItemAt, AllFinite, ItemSize, PString, StringAt, StringSize;
    var w := i + |m.lead|;
    var j := w + StringSize(m.key);
    StringComplete(t, w, m.key);
    SkipWsComplete(t, i, m.lead);
    SkipWsComplete(t, j, m.trail);
    ItemComplete(t, j + |m.trail| + 1, m.item);
  }

  lemma {:induction false} MembersComplete(t: Text, i: nat, ms: Members)
    requires MembersAt(t, i, ms) && At(t, i + MembersSize(ms), RBRACE)
    requires MembersFinite(ms)
    ensures PMembers(t, i) == Got(ms, i + MembersSize(ms) + 1)
    ensures At(t, SkipWs(t, i), QUOTE)
    decreases ms, 0
  {
    hide PMember, MemberAt, AllFinite, MemberSize, SkipWs;
    match ms
    case OneMember(m) => MemberComplete(t, i, m);
    case MoreMembers(m, rest) =>
      MemberComplete(t, i, m);
      MembersComplete(t, i + MemberSize(m) + 1, rest);
  }

  /** Exactly the grammar: the reader returns a tree if and only if that tree spells the
      whole text and all its numbers are finite. */
  lemma AcceptsExactlyTheGrammar(t: Text, doc: Item)
    ensures PText(t) == Got(doc, |t|) <==> ItemText(doc) == t && AllFinite(doc.value)
  {
    hide PItem, ItemText, ItemAt, ItemSize, AllFinite, Spans;
    ItemSpell(t, 0, doc);
    if PText(t) == Got(doc, |t|) {
      ItemSound(t, 0);
      SpansWhole(t, ItemText(doc));
    }
    if ItemText(doc) == t && AllFinite(doc.value) {
      SpansWhole(t, t);
      ItemComplete(t, 0, doc);
    }
  }

  /** No text has two trees with finite numbers. */
  lemma Unambiguous(a: Item, b: Item)
    requires ItemText(a) == ItemText(b) && AllFinite(a.value) && AllFinite(b.value)
    ensures a == b
  {
    AcceptsExactlyTheGrammar(ItemText(a), a);
    AcceptsExactlyTheGrammar(ItemText(a), b);
  }
}
