/** Spelling by position: a tree is spelled at position i of a text. The same notion as "the
    text of the tree stands at i", without building that text. */
module JsonSpelling {
  import opened JsText
  import opened JsonGrammar

  predicate At(t: Text, i: nat, u: Unit) { i < |t| && t[i] == u }

  ghost predicate Spans(t: Text, i: nat, w: Text) {
    i + |w| <= |t| && forall k :: 0 <= k < |w| ==> t[i + k] == w[k]
  }

  function CharsSize(cs: seq<StrChar>): nat {
    if cs == [] then 0 else |CharText(cs[0])| + CharsSize(cs[1..])
  }

  ghost predicate CharsAt(t: Text, i: nat, cs: seq<StrChar>)
    decreases |cs|
  {
    cs == [] || (Spans(t, i, CharText(cs[0])) && CharsAt(t, i + |CharText(cs[0])|, cs[1..]))
  }

  function StringSize(cs: seq<StrChar>): nat { CharsSize(cs) + 2 }

  ghost predicate StringAt(t: Text, i: nat, cs: seq<StrChar>) {
    At(t, i, QUOTE) && CharsAt(t, i + 1, cs) && At(t, i + 1 + CharsSize(cs), QUOTE)
  }

  function FractionSize(d: Digits): nat { if d == [] then 0 else 1 + |d| }

  ghost predicate FractionAt(t: Text, i: nat, d: Digits) {
    d == [] || (At(t, i, DOT) && Spans(t, i + 1, d))
  }

  function ExponentSize(e: RawExponent): nat {
    match e
    case NoExponent => 0
    case Exponent(_, sign, digits) => 1 + |sign| + |digits|
  }

  ghost predicate ExponentAt(t: Text, i: nat, e: RawExponent) {
    match e
    case NoExponent => true
    case Exponent(mark, sign, digits) =>
      At(t, i, mark) && Spans(t, i + 1, sign) && Spans(t, i + 1 + |sign|, digits)
  }

  function MinusSize(minus: bool): nat { if minus then 1 else 0 }

  function NumberSize(n: Number): nat {
    MinusSize(n.minus) + |n.whole| + FractionSize(n.fraction) + ExponentSize(n.exponent)
  }

  ghost predicate NumberAt(t: Text, i: nat, n: Number) {
    var a := i + MinusSize(n.minus);
    && (n.minus ==> At(t, i, MINUS))
    && Spans(t, a, n.whole)
    && FractionAt(t, a + |n.whole|, n.fraction)
    && ExponentAt(t, a + |n.whole| + FractionSize(n.fraction), n.exponent)
  }

  function ValueSize(v: Value): nat {
    match v
    case Null => |NULL_TEXT|
    case Bool(b) => if b then |TRUE_TEXT| else |FALSE_TEXT|
    case Num(n) => NumberSize(n)
    case Str(cs) => StringSize(cs)
    case EmptyArray(w) => |w| + 2
    case Array(items) => ItemsSize(items) + 2
    case EmptyObject(w) => |w| + 2
    case Object(members) => MembersSize(members) + 2
  }

  function ItemSize(it: Item): nat { |it.before| + ValueSize(it.value) + |it.after| }

  function ItemsSize(items: Items): nat {
    match items
    case One(item) => ItemSize(item)
    case More(first, rest) => ItemSize(first) + 1 + ItemsSize(rest)
  }

  function MemberSize(m: Member): nat {
    |m.lead| + StringSize(m.key) + |m.trail| + 1 + ItemSize(m.item)
  }

  function MembersSize(ms: Members): nat {
    match ms
    case OneMember(m) => MemberSize(m)
    case MoreMembers(m, rest) => MemberSize(m) + 1 + MembersSize(rest)
  }

  ghost predicate ValueAt(t: Text, i: nat, v: Value)
    decreases v
  {
    match v
    case Null => Spans(t, i, NULL_TEXT)
    case Bool(b) => Spans(t, i, if b then TRUE_TEXT else FALSE_TEXT)
    case Num(n) => NumberAt(t, i, n)
    case Str(cs) => StringAt(t, i, cs)
    case EmptyArray(w) => At(t, i, LBRACKET) && Spans(t, i + 1, w) && At(t, i + 1 + |w|, RBRACKET)
    case Array(items) => At(t, i, LBRACKET) && ItemsAt(t, i + 1, items) && At(t, i + 1 + ItemsSize(items), RBRACKET)
    case EmptyObject(w) => At(t, i, LBRACE) && Spans(t, i + 1, w) && At(t, i + 1 + |w|, RBRACE)
    case Object(ms) => At(t, i, LBRACE) && MembersAt(t, i + 1, ms) && At(t, i + 1 + MembersSize(ms), RBRACE)
  }

  ghost predicate ItemAt(t: Text, i: nat, it: Item)
    decreases it
  {
    var w := i + |it.before|;
    Spans(t, i, it.before) && ValueAt(t, w, it.value) && Spans(t, w + ValueSize(it.value), it.after)
  }

  ghost predicate ItemsAt(t: Text, i: nat, items: Items)
    decreases items
  {
    match items
    case One(item) => ItemAt(t, i, item)
    case More(first, rest) =>
      var j := i + ItemSize(first);
      ItemAt(t, i, first) && At(t, j, COMMA) && ItemsAt(t, j + 1, rest)
  }

  ghost predicate MemberAt(t: Text, i: nat, m: Member)
    decreases m
  {
    var w := i + |m.lead|;
    var j := w + StringSize(m.key);
    var c := j + |m.trail|;
    Spans(t, i, m.lead) && StringAt(t, w, m.key) && Spans(t, j, m.trail) && At(t, c, COLON) && ItemAt(t, c + 1, m.item)
  }

  ghost predicate MembersAt(t: Text, i: nat, ms: Members)
    decreases ms
  {
    match ms
    case OneMember(m) => MemberAt(t, i, m)
    case MoreMembers(m, rest) =>
      var j := i + MemberSize(m);
      MemberAt(t, i, m) && At(t, j, COMMA) && MembersAt(t, j + 1, rest)
  }

  // ---- Spelled at i means: its text stands at i ----

  lemma SpansConcat(t: Text, i: nat, a: Text, b: Text)
    ensures Spans(t, i, a + b) <==> Spans(t, i, a) && Spans(t, i + |a|, b)
  {
    if Spans(t, i, a + b) {
      forall k | 0 <= k < |a| ensures t[i + k] == a[k] {
        assert (a + b)[k] == a[k];
      }
      forall k | 0 <= k < |b| ensures t[i + |a| + k] == b[k] {
        assert (a + b)[|a| + k] == b[k];
      }
    }
    if Spans(t, i, a) && Spans(t, i + |a|, b) {
      forall k | 0 <= k < |a + b| ensures t[i + k] == (a + b)[k] {
        if k >= |a| {
          assert t[i + |a| + (k - |a|)] == b[k - |a|];
        }
      }
    }
  }

  lemma SpansWhole(t: Text, w: Text)
    requires |w| == |t|
    ensures Spans(t, 0, w) <==> w == t
  {
    if Spans(t, 0, w) {
      forall k | 0 <= k < |t| ensures t[k] == w[k] {
        assert t[0 + k] == w[k];
      }
    }
  }

  lemma SpansOne(t: Text, i: nat, u: Unit)
    ensures Spans(t, i, [u]) <==> At(t, i, u)
  {
    if Spans(t, i, [u]) {
      assert t[i + 0] == [u][0];
    }
  }

  lemma SpansNothing(t: Text, i: nat)
    ensures Spans(t, i, []) <==> i <= |t|
  {
  }

  lemma SpansBound(t: Text, i: nat, w: Text)
    ensures Spans(t, i, w) ==> i + |w| <= |t|
  {
  }

  lemma {:induction false} CharsSpell(t: Text, i: nat, cs: seq<StrChar>)
    ensures CharsSize(cs) == |CharsText(cs)|
    ensures CharsAt(t, i, cs) && i <= |t| <==> Spans(t, i, CharsText(cs))
    decreases |cs|
  {
    hide Spans;
    SpansNothing(t, i);
    if cs != [] {
      SpansConcat(t, i, CharText(cs[0]), CharsText(cs[1..]));
      SpansBound(t, i, CharText(cs[0]));
      CharsSpell(t, i + |CharText(cs[0])|, cs[1..]);
    }
  }

  lemma StringSpell(t: Text, i: nat, cs: seq<StrChar>)
    ensures StringSize(cs) == |StringText(cs)| > 0
    ensures StringAt(t, i, cs) <==> Spans(t, i, StringText(cs))
  {
    hide Spans;
    CharsSpell(t, i + 1, cs);
    SpansConcat(t, i, [QUOTE] + CharsText(cs), [QUOTE]);
    SpansConcat(t, i, [QUOTE], CharsText(cs));
    SpansOne(t, i, QUOTE);
    SpansOne(t, i + 1 + CharsSize(cs), QUOTE);
  }

  lemma FractionSpell(t: Text, i: nat, d: Digits)
    ensures FractionSize(d) == |FractionText(d)|
    ensures FractionAt(t, i, d) && i <= |t| <==> Spans(t, i, FractionText(d))
  {
    SpansConcat(t, i, [DOT], d);
    SpansOne(t, i, DOT);
  }

  lemma ExponentSpell(t: Text, i: nat, e: RawExponent)
    ensures ExponentSize(e) == |ExponentText(e)|
    ensures ExponentAt(t, i, e) && i <= |t| <==> Spans(t, i, ExponentText(e))
  {
    hide Spans;
    match e
    case NoExponent => SpansNothing(t, i);
    case Exponent(mark, sign, digits) =>
      SpansConcat(t, i, [mark], sign + digits);
      SpansConcat(t, i + 1, sign, digits);
      SpansOne(t, i, mark);
  }

  lemma NumberSpell(t: Text, i: nat, n: Number)
    ensures NumberSize(n) == |NumberText(n)| > 0
    ensures NumberAt(t, i, n) <==> Spans(t, i, NumberText(n))
  {
    hide Spans;
    var a := i + MinusSize(n.minus);
    var b := a + |n.whole|;
    var c := b + FractionSize(n.fraction);
    FractionSpell(t, b, n.fraction);
    ExponentSpell(t, c, n.exponent);
    SpansOne(t, i, MINUS);
    SpansNothing(t, i);
    SpansBound(t, a, n.whole);
    SpansBound(t, b + 1, n.fraction);
    SpansConcat(t, i, MinusText(n.minus), n.whole + (FractionText(n.fraction) + ExponentText(n.exponent)));
    SpansConcat(t, a, n.whole, FractionText(n.fraction) + ExponentText(n.exponent));
    SpansConcat(t, b, FractionText(n.fraction), ExponentText(n.exponent));
  }

  lemma BracketSpell(t: Text, i: nat, open: Unit, body: Text, close: Unit)
    ensures Spans(t, i, [open] + (body + [close])) <==>
            At(t, i, open) && Spans(t, i + 1, body) && At(t, i + 1 + |body|, close)
  {
    SpansConcat(t, i, [open], body + [close]);
    SpansConcat(t, i + 1, body, [close]);
    SpansOne(t, i, open);
    SpansOne(t, i + 1 + |body|, close);
  }

  lemma {:induction false} ValueSpell(t: Text, i: nat, v: Value)
    ensures ValueSize(v) == |ValueText(v)| > 0
    ensures ValueAt(t, i, v) <==> Spans(t, i, ValueText(v))
    decreases v
  {
    hide Spans, NumberAt, StringAt, ItemsAt, MembersAt, NumberText, StringText, ItemsText, MembersText;
    match v
    case Null =>
    case Bool(_) =>
    case Num(n) => NumberSpell(t, i, n);
    case Str(cs) => StringSpell(t, i, cs);
    case EmptyArray(w) => BracketSpell(t, i, LBRACKET, w, RBRACKET);
    case EmptyObject(w) => BracketSpell(t, i, LBRACE, w, RBRACE);
    case Array(items) =>
      ItemsSpell(t, i + 1, items);
      BracketSpell(t, i, LBRACKET, ItemsText(items), RBRACKET);
    case Object(ms) =>
      MembersSpell(t, i + 1, ms);
      BracketSpell(t, i, LBRACE, MembersText(ms), RBRACE);
  }

  lemma {:induction false} ItemSpell(t: Text, i: nat, it: Item)
    ensures ItemSize(it) == |ItemText(it)| > 0
    ensures ItemAt(t, i, it) <==> Spans(t, i, ItemText(it))
    decreases it
  {
    hide Spans;
    var w := i + |it.before|;
    ValueSpell(t, w, it.value);
    SpansConcat(t, i, it.before, ValueText(it.value) + it.after);
    SpansConcat(t, w, ValueText(it.value), it.after);
  }

  lemma {:induction false} ItemsSpell(t: Text, i: nat, items: Items)
    ensures ItemsSize(items) == |ItemsText(items)| > 0
    ensures ItemsAt(t, i, items) <==> Spans(t, i, ItemsText(items))
    decreases items
  {
    hide Spans;
    match items
    case One(item) => ItemSpell(t, i, item);
    case More(first, rest) =>
      var j := i + ItemSize(first);
      ItemSpell(t, i, first);
      ItemsSpell(t, j + 1, rest);
      SpansConcat(t, i, ItemText(first), [COMMA] + ItemsText(rest));
      SpansConcat(t, j, [COMMA], ItemsText(rest));
      SpansOne(t, j, COMMA);
  }

  lemma {:induction false} MemberSpell(t: Text, i: nat, m: Member)
    ensures MemberSize(m) == |MemberText(m)| > 0
    ensures MemberAt(t, i, m) <==> Spans(t, i, MemberText(m))
    decreases m
  {
    hide Spans;
    var w := i + |m.lead|;
    var j := w + StringSize(m.key);
    var c := j + |m.trail|;
    StringSpell(t, w, m.key);
    ItemSpell(t, c + 1, m.item);
    SpansConcat(t, i, m.lead, StringText(m.key) + (m.trail + ([COLON] + ItemText(m.item))));
    SpansConcat(t, w, StringText(m.key), m.trail + ([COLON] + ItemText(m.item)));
    SpansConcat(t, j, m.trail, [COLON] + ItemText(m.item));
    SpansConcat(t, c, [COLON], ItemText(m.item));
    SpansOne(t, c, COLON);
  }

  lemma {:induction false} MembersSpell(t: Text, i: nat, ms: Members)
    ensures MembersSize(ms) == |MembersText(ms)| > 0
    ensures MembersAt(t, i, ms) <==> Spans(t, i, MembersText(ms))
    decreases ms
  {
    hide Spans;
    match ms
    case OneMember(m) => MemberSpell(t, i, m);
    case MoreMembers(m, rest) =>
      var j := i + MemberSize(m);
      MemberSpell(t, i, m);
      MembersSpell(t, j + 1, rest);
      SpansConcat(t, i, MemberText(m), [COMMA] + MembersText(rest));
      SpansConcat(t, j, [COMMA], MembersText(rest));
      SpansOne(t, j, COMMA);
  }
}
