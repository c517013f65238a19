/** The encoder, and what the reader makes of its output. */
module JsonWriter {
  import opened JsText
  import opened JsonGrammar
  import opened JsonSpelling
  import opened JsonParser
  import opened JsonReader

  // ---- Values of the source language, as far as the encoder tells them apart ----

  datatype Js =
    | Missing                        // null or undefined as a whole value or an array element
    | Undefined                      // an undefined, function or symbol property: never printed
    | Str(s: Text)
    | Num(numeral: Number)           // a finite number, by the numeral its conversion to text yields
    | NonFinite
    | Bool(b: bool)
    | BigInt(n: int)
    | Arr(items: seq<Js>)
    | Obj(entries: seq<Entry>)       // own enumerable properties in enumeration order

  datatype Entry = Entry(key: Text, value: Js)

  // Property names of one object are distinct, and printed numbers are finite.
  ghost predicate Proper(v: Js)
    decreases v
  {
    match v
    case Num(numeral) => IsFinite(NumberValue(numeral))
    case Arr(items) => forall i :: 0 <= i < |items| ==> Proper(items[i])
    case Obj(es) => ProperEntries(es)
    case _ => true
  }

  ghost predicate ProperEntries(es: seq<Entry>)
    decreases es, 0
  {
    && (forall i, j :: 0 <= i < j < |es| ==> es[i].key != es[j].key)
    && (forall i :: 0 <= i < |es| ==> Proper(es[i].value))
  }

  // ---- Integers in decimal ----

  function DecimalDigits(n: nat): (d: Digits)
    ensures d != [] && DigitsValue(d) == n
    ensures n > 0 ==> d[0] != ZERO
    ensures n == 0 ==> d == [ZERO]
  {
    if n < 10 then
      assert DigitsValue([]) == 0;
      assert [ZERO + n][..0] == [];
      [ZERO + n]
    else
      var d := DecimalDigits(n / 10) + [ZERO + n % 10];
      assert d[..|d| - 1] == DecimalDigits(n / 10);
      d
  }

  // The plain decimal digits of n. The runtime prints an integer up to 2^53 so, and a bigint of any size.
  function IntNumeral(n: int): (m: Number)
    ensures NumberValue(m) == n as real
  {
    var digits := DecimalDigits(if n < 0 then -n else n);
    assert digits + [] == digits;
    RawNumber(n < 0, digits, [], NoExponent)
  }

  // ---- Quoting: RFC 8259 section 7, with lone surrogates escaped ----

  function HexUnit(d: nat): Unit
    requires d < 16
  {
    if d < 10 then ZERO + d else 0x57 + d
  }

  lemma HexUnitValue(d: nat)
    requires d < 16
    ensures IsHex(HexUnit(d)) && HexDigit(HexUnit(d)) == d
  {
  }

  lemma HexSplit(u: Unit)
    ensures u / 0x1000 < 16
    ensures ((u / 0x1000 * 16 + u / 0x100 % 16) * 16 + u / 16 % 16) * 16 + u % 16 == u
  {
    var a, b := u / 16, u / 0x100;
    assert b == a / 16 && u / 0x1000 == b / 16;
  }

  function HexText(u: Unit): (h: HexQuad)
    ensures HexValue(h) == u
  {
    HexSplit(u);
    HexUnitValue(u / 0x1000);
    HexUnitValue(u / 0x100 % 16);
    HexUnitValue(u / 16 % 16);
    HexUnitValue(u % 16);
    [HexUnit(u / 0x1000), HexUnit(u / 0x100 % 16), HexUnit(u / 16 % 16), HexUnit(u % 16)]
  }

  predicate IsLead(u: Unit) { 0xD800 <= u < 0xDC00 }
  predicate IsTrail(u: Unit) { 0xDC00 <= u < 0xE000 }

  function EscapeUnit(u: Unit): Text {
    if u == 0x08 then [BACKSLASH, LOWER_B]
    else if u == 0x09 then [BACKSLASH, LOWER_T]
    else if u == 0x0A then [BACKSLASH, LOWER_N]
    else if u == 0x0C then [BACKSLASH, LOWER_F]
    else if u == 0x0D then [BACKSLASH, LOWER_R]
    else if u == QUOTE || u == BACKSLASH then [BACKSLASH, u]
    else if u < 0x20 || IsLead(u) || IsTrail(u) then [BACKSLASH, LOWER_U] + HexText(u)
    else [u]
  }

  function QuoteBody(s: Text): Text {
    if s == [] then []
    else if |s| > 1 && IsLead(s[0]) && IsTrail(s[1]) then [s[0], s[1]] + QuoteBody(s[2..])
    else EscapeUnit(s[0]) + QuoteBody(s[1..])
  }

  function Quote(s: Text): Text { [QUOTE] + QuoteBody(s) + [QUOTE] }

  // ---- The encoder ----

  function Join(parts: seq<Text>): Text {
    if parts == [] then []
    else if |parts| == 1 then parts[0]
    else parts[0] + ([COMMA] + Join(parts[1..]))
  }

  function Encode(v: Js): Text
    decreases v
  {
    match v
    case Missing => NULL_TEXT
    case Undefined => NULL_TEXT
    case Str(s) => Quote(s)
    case Num(numeral) => NumberText(numeral)
    case NonFinite => NULL_TEXT
    case Bool(b) => if b then TRUE_TEXT else FALSE_TEXT
    case BigInt(n) => Quote(NumberText(IntNumeral(n)))
    case Arr(items) => [LBRACKET] + (Join(EncodeItems(items)) + [RBRACKET])
    case Obj(es) => [LBRACE] + (Join(EncodeEntries(es)) + [RBRACE])
  }

  function EncodeItems(items: seq<Js>): (parts: seq<Text>)
    ensures |parts| == |items|
    decreases items
  {
    if items == [] then [] else [Encode(items[0])] + EncodeItems(items[1..])
  }

  function EncodeEntries(es: seq<Entry>): seq<Text>
    decreases es
  {
    if es == [] then []
    else if es[0].value.Undefined? then EncodeEntries(es[1..])
    else [Quote(es[0].key) + ([COLON] + Encode(es[0].value))] + EncodeEntries(es[1..])
  }

  // ---- What a value denotes as JSON: its own printed properties, nothing more ----

  function Denote(v: Js): Json
    decreases v
  {
    match v
    case Missing => JNull
    case Undefined => JNull
    case Str(s) => JStr(s)
    case Num(numeral) => JNum(NumberValue(numeral))
    case NonFinite => JNull
    case Bool(b) => JBool(b)
    case BigInt(n) => JStr(NumberText(IntNumeral(n)))
    case Arr(items) => JArr(DenoteItems(items))
    case Obj(es) => JObj(Own(map[], es), true)
  }

  function DenoteItems(items: seq<Js>): (r: seq<Json>)
    ensures |r| == |items|
    ensures forall i :: 0 <= i < |items| ==> r[i] == Denote(items[i])
    decreases items
  {
    if items == [] then [] else [Denote(items[0])] + DenoteItems(items[1..])
  }

  function Own(m: map<Text, Json>, es: seq<Entry>): map<Text, Json>
    decreases es
  {
    if es == [] then m
    else if es[0].value.Undefined? then Own(m, es[1..])
    else Own(m[es[0].key := Denote(es[0].value)], es[1..])
  }

  // No printed property anywhere is called `__proto__`.
  ghost predicate ProtoFree(v: Js)
    decreases v
  {
    match v
    case Arr(items) => forall i :: 0 <= i < |items| ==> ProtoFree(items[i])
    case Obj(es) => ProtoFreeEntries(es)
    case _ => true
  }

  ghost predicate ProtoFreeEntries(es: seq<Entry>)
    decreases es, 0
  {
    forall i :: 0 <= i < |es| && !es[i].value.Undefined? ==> es[i].key != PROTO && ProtoFree(es[i].value)
  }

  // ---- The tree the encoder's output spells ----

  function UnitChar(u: Unit): (c: StrChar)
    ensures CharText(c) == EscapeUnit(u) && CharValue(c) == u
  {
    if u == 0x08 then Short(LOWER_B)
    else if u == 0x09 then Short(LOWER_T)
    else if u == 0x0A then Short(LOWER_N)
    else if u == 0x0C then Short(LOWER_F)
    else if u == 0x0D then Short(LOWER_R)
    else if u == QUOTE || u == BACKSLASH then Short(u)
    else if u < 0x20 || IsLead(u) || IsTrail(u) then Hex(HexText(u))
    else Plain(u)
  }

  function QuoteChars(s: Text): (cs: seq<StrChar>)
    ensures |cs| == |s|
  {
    if s == [] then []
    else if |s| > 1 && IsLead(s[0]) && IsTrail(s[1]) then [Plain(s[0]), Plain(s[1])] + QuoteChars(s[2..])
    else [UnitChar(s[0])] + QuoteChars(s[1..])
  }

  function Bare(v: Value): Item { Item([], v, []) }

  function ToItems(s: seq<Item>): Items
    requires s != []
  {
    if |s| == 1 then One(s[0]) else More(s[0], ToItems(s[1..]))
  }

  function ToMembers(s: seq<Member>): Members
    requires s != []
  {
    if |s| == 1 then OneMember(s[0]) else MoreMembers(s[0], ToMembers(s[1..]))
  }

  function Tree(v: Js): Value
    decreases v
  {
    match v
    case Missing => Null
    case Undefined => Null
    case Str(s) => Value.Str(QuoteChars(s))
    case Num(numeral) => Value.Num(numeral)
    case NonFinite => Null
    case Bool(b) => Value.Bool(b)
    case BigInt(n) => Value.Str(QuoteChars(NumberText(IntNumeral(n))))
    case Arr(items) =>
      var s := TreeItems(items);
      if s == [] then EmptyArray([]) else Array(ToItems(s))
    case Obj(es) =>
      var s := TreeEntries(es);
      if s == [] then EmptyObject([]) else Object(ToMembers(s))
  }

  function TreeItems(items: seq<Js>): (s: seq<Item>)
    ensures |s| == |items|
    ensures forall i :: 0 <= i < |items| ==> s[i] == Bare(Tree(items[i]))
    decreases items
  {
    if items == [] then [] else [Bare(Tree(items[0]))] + TreeItems(items[1..])
  }

  function TreeEntries(es: seq<Entry>): seq<Member>
    decreases es
  {
    if es == [] then []
    else if es[0].value.Undefined? then TreeEntries(es[1..])
    else [Member([], QuoteChars(es[0].key), [], Bare(Tree(es[0].value)))] + TreeEntries(es[1..])
  }

  lemma QuoteSpells(s: Text)
    ensures Quote(s) == StringText(QuoteChars(s))
    ensures CharsValue(QuoteChars(s)) == s
  {
    QuoteBodySpells(s);
    QuoteCharsValue(s);
  }

  lemma {:induction false} QuoteBodySpells(s: Text)
    ensures QuoteBody(s) == CharsText(QuoteChars(s))
    decreases |s|
  {
    hide EscapeUnit;
    if s == [] {
    } else if |s| > 1 && IsLead(s[0]) && IsTrail(s[1]) {
      var rest := QuoteChars(s[2..]);
      QuoteBodySpells(s[2..]);
      CharsTextCons(Plain(s[0]), [Plain(s[1])] + rest);
      CharsTextCons(Plain(s[1]), rest);
      assert [Plain(s[0]), Plain(s[1])] + rest == [Plain(s[0])] + ([Plain(s[1])] + rest);
      assert [s[0]] + ([s[1]] + QuoteBody(s[2..])) == [s[0], s[1]] + QuoteBody(s[2..]);
    } else {
      QuoteBodySpells(s[1..]);
      CharsTextCons(UnitChar(s[0]), QuoteChars(s[1..]));
    }
  }

  lemma {:induction false} QuoteCharsValue(s: Text)
    ensures CharsValue(QuoteChars(s)) == s
    decreases |s|
  {
    hide EscapeUnit, CharValue, CharsValue, UnitChar, CharText;
    if s == [] {
      assert CharsValue([]) == [];
    } else if |s| > 1 && IsLead(s[0]) && IsTrail(s[1]) {
      var rest := QuoteChars(s[2..]);
      QuoteCharsValue(s[2..]);
      PairValue(s[0], s[1], rest);
      assert s == [s[0], s[1]] + s[2..];
    } else {
      QuoteCharsValue(s[1..]);
      CharsValueCons(UnitChar(s[0]), QuoteChars(s[1..]));
      assert s == [s[0]] + s[1..];
    }
  }

  lemma PairValue(a: Unit, b: Unit, cs: seq<StrChar>)
    requires IsLead(a) && IsTrail(b)
    ensures CharsValue([Plain(a), Plain(b)] + cs) == [a, b] + CharsValue(cs)
  {
  }

  lemma CharsTextCons(c: StrChar, cs: seq<StrChar>)
    ensures CharsText([c] + cs) == CharText(c) + CharsText(cs)
  {
    assert ([c] + cs)[1..] == cs;
  }

  lemma {:induction false} JoinItems(s: seq<Item>, parts: seq<Text>)
    requires |s| == |parts| > 0
    requires forall i :: 0 <= i < |s| ==> ItemText(s[i]) == parts[i]
    ensures Join(parts) == ItemsText(ToItems(s))
    decreases |s|
  {
    hide ItemText;
    if |s| > 1 {
      JoinItems(s[1..], parts[1..]);
    }
  }

  lemma {:induction false} JoinMembers(s: seq<Member>, parts: seq<Text>)
    requires |s| == |parts| > 0
    requires forall i :: 0 <= i < |s| ==> MemberText(s[i]) == parts[i]
    ensures Join(parts) == MembersText(ToMembers(s))
    decreases |s|
  {
    hide MemberText;
    if |s| > 1 {
      JoinMembers(s[1..], parts[1..]);
    }
  }

  lemma JoinNothing()
    ensures Join([]) == []
  {
  }

  lemma BareText(v: Value)
    ensures ItemText(Bare(v)) == ValueText(v)
  {
    hide ValueText;
    assert [] + (ValueText(v) + []) == ValueText(v);
  }

  /** The encoder's output is the text of the tree. */
  lemma {:induction false} EncodeSpells(v: Js)
    ensures Encode(v) == ValueText(Tree(v))
    decreases v
  {
    hide Quote, StringText, NumberText, QuoteChars, Join, ItemsText, MembersText, ItemText, MemberText, ToItems, ToMembers;
    JoinNothing();
    match v
    case Str(s) => QuoteSpells(s);
    case BigInt(n) => QuoteSpells(NumberText(IntNumeral(n)));
    case Arr(items) =>
      EncodeItemsSpells(items);
      if items != [] {
        JoinItems(TreeItems(items), EncodeItems(items));
      }
    case Obj(es) =>
      EncodeEntriesSpells(es);
      if TreeEntries(es) != [] {
        JoinMembers(TreeEntries(es), EncodeEntries(es));
      }
    case _ =>
  }

  lemma {:induction false} EncodeItemsSpells(items: seq<Js>)
    ensures forall i :: 0 <= i < |items| ==> ItemText(TreeItems(items)[i]) == EncodeItems(items)[i]
    decreases items
  {
    hide ItemText;
    if items != [] {
      EncodeSpells(items[0]);
      BareText(Tree(items[0]));
      EncodeItemsSpells(items[1..]);
    }
  }

  lemma {:induction false} EncodeEntriesSpells(es: seq<Entry>)
    ensures |TreeEntries(es)| == |EncodeEntries(es)|
    ensures forall i :: 0 <= i < |TreeEntries(es)| ==> MemberText(TreeEntries(es)[i]) == EncodeEntries(es)[i]
    decreases es
  {
    hide MemberText;
    if es != [] {
      EncodeEntriesSpells(es[1..]);
      if !es[0].value.Undefined? {
        EncodeSpells(es[0].value);
        NamedText(es[0].key, Tree(es[0].value));
      }
    }
  }

  lemma NamedText(key: Text, v: Value)
    ensures MemberText(Member([], QuoteChars(key), [], Bare(v))) == Quote(key) + ([COLON] + ValueText(v))
  {
    hide ItemText, ValueText, Quote, StringText;
    QuoteSpells(key);
    BareText(v);
    var body := [COLON] + ValueText(v);
    assert [] + body == body;
    assert [] + (Quote(key) + body) == Quote(key) + body;
  }

  // ---- Finite, so the reader accepts it ----

  lemma {:induction false} TreeFinite(v: Js)
    requires Proper(v)
    ensures AllFinite(Tree(v))
    decreases v
  {
    hide IsFinite, NumberValue;
    match v
    case Arr(items) =>
      forall i | 0 <= i < |items| ensures AllFinite(TreeItems(items)[i].value) {
        TreeFinite(items[i]);
      }
      if items != [] {
        ToItemsFinite(TreeItems(items));
      }
    case Obj(es) =>
      TreeEntriesFinite(es);
      if TreeEntries(es) != [] {
        ToMembersFinite(TreeEntries(es));
      }
    case _ =>
  }

  lemma {:induction false} TreeEntriesFinite(es: seq<Entry>)
    requires forall i :: 0 <= i < |es| ==> Proper(es[i].value)
    ensures forall i :: 0 <= i < |TreeEntries(es)| ==> AllFinite(TreeEntries(es)[i].item.value)
    decreases es
  {
    if es != [] {
      TreeEntriesFinite(es[1..]);
      TreeFinite(es[0].value);
    }
  }

  lemma {:induction false} ToItemsFinite(s: seq<Item>)
    requires s != [] && forall i :: 0 <= i < |s| ==> AllFinite(s[i].value)
    ensures ItemsFinite(ToItems(s))
    decreases |s|
  {
    if |s| > 1 {
      ToItemsFinite(s[1..]);
    }
  }

  lemma {:induction false} ToMembersFinite(s: seq<Member>)
    requires s != [] && forall i :: 0 <= i < |s| ==> AllFinite(s[i].item.value)
    ensures MembersFinite(ToMembers(s))
    decreases |s|
  {
    if |s| > 1 {
      ToMembersFinite(s[1..]);
    }
  }

  /** Whatever the encoder prints is read back: as what the printed tree means. */
  lemma ReadsWhatWasPrinted(v: Js)
    requires Proper(v)
    ensures Reading(Encode(v)) == Ok(Meaning(Tree(v)))
  {
    hide Encode, Tree, Meaning, AllFinite, ItemText;
    EncodeSpells(v);
    BareText(Tree(v));
    TreeFinite(v);
    AcceptsExactlyTheGrammar(Encode(v), Bare(Tree(v)));
  }

  // ---- Meaning of the printed tree against the value printed ----

  function BuildSeq(r: Record, s: seq<Member>): Record
    decreases |s|
  {
    if s == [] then r
    else BuildSeq(Assign(r, CharsValue(s[0].key), Meaning(s[0].item.value)), s[1..])
  }

  lemma {:induction false} BuildIsBuildSeq(r: Record, s: seq<Member>)
    requires s != []
    ensures Build(r, ToMembers(s)) == BuildSeq(r, s)
    decreases |s|
  {
    hide Assign;
    if |s| > 1 {
      BuildIsBuildSeq(Assign(r, CharsValue(s[0].key), Meaning(s[0].item.value)), s[1..]);
    }
  }

  lemma {:induction false} ItemsMeaningAt(s: seq<Item>)
    requires s != []
    ensures |ItemsMeaning(ToItems(s))| == |s|
    ensures forall i :: 0 <= i < |s| ==> ItemsMeaning(ToItems(s))[i] == Meaning(s[i].value)
    decreases |s|
  {
    if |s| > 1 {
      ItemsMeaningAt(s[1..]);
    }
  }

  // The record one object's printed members build.
  function Rebuilt(r: Record, es: seq<Entry>): Record
    decreases es
  {
    if es == [] then r
    else if es[0].value.Undefined? then Rebuilt(r, es[1..])
    else Rebuilt(Assign(r, es[0].key, Meaning(Tree(es[0].value))), es[1..])
  }

  lemma {:induction false} BuildSeqRebuilds(r: Record, es: seq<Entry>)
    ensures BuildSeq(r, TreeEntries(es)) == Rebuilt(r, es)
    decreases es
  {
    hide Assign;
    if es != [] {
      if es[0].value.Undefined? {
        BuildSeqRebuilds(r, es[1..]);
      } else {
        QuoteSpells(es[0].key);
        BuildSeqRebuilds(Assign(r, es[0].key, Meaning(Tree(es[0].value))), es[1..]);
      }
    }
  }

  lemma ObjectMeaning(es: seq<Entry>)
    ensures Meaning(Tree(Obj(es))) == Rebuilt(EMPTY_RECORD, es)
  {
    hide Build, BuildSeq, Rebuilt, TreeEntries, ToMembers;
    BuildSeqRebuilds(EMPTY_RECORD, es);
    NoMembers(EMPTY_RECORD);
    if TreeEntries(es) != [] {
      BuildIsBuildSeq(EMPTY_RECORD, TreeEntries(es));
    }
  }

  lemma NoMembers(r: Record)
    ensures BuildSeq(r, []) == r
  {
  }

  lemma ArrayMeaning(items: seq<Js>)
    ensures var m := Meaning(Tree(Arr(items)));
            && m.JArr? && |m.items| == |items|
            && forall i :: 0 <= i < |items| ==> m.items[i] == Meaning(Tree(items[i]))
  {
    if items != [] {
      ItemsMeaningAt(TreeItems(items));
    }
  }

  lemma {:induction false} ProtoFreeIsKept(v: Js)
    requires ProtoFree(v)
    ensures Meaning(Tree(v)) == Denote(v)
    decreases v
  {
    match v
    case Str(s) => QuoteSpells(s);
    case BigInt(n) => QuoteSpells(NumberText(IntNumeral(n)));
    case Arr(items) =>
      ArrayMeaning(items);
      forall i | 0 <= i < |items| ensures Meaning(Tree(v)).items[i] == Denote(v).items[i] {
        ProtoFreeIsKept(items[i]);
      }
      assert Meaning(Tree(v)).items == Denote(v).items;
    case Obj(es) =>
      ObjectMeaning(es);
      ProtoFreeIsRebuilt(EMPTY_RECORD, es);
    case _ =>
  }

  lemma {:induction false} ProtoFreeIsRebuilt(r: Record, es: seq<Entry>)
    requires ProtoFreeEntries(es)
    ensures Rebuilt(r, es) == JObj(Own(r.own, es), r.setter)
    decreases es
  {
    if es != [] {
      assert ProtoFreeEntries(es[1..]);
      if es[0].value.Undefined? {
        ProtoFreeIsRebuilt(r, es[1..]);
      } else {
        assert es[0].key != PROTO && ProtoFree(es[0].value);
        ProtoFreeIsKept(es[0].value);
        ProtoFreeIsRebuilt(Assign(r, es[0].key, Denote(es[0].value)), es[1..]);
      }
    }
  }

  // A key printed once: its property holds the value of that one member.
  lemma {:induction false} OwnOther(m: map<Text, Json>, es: seq<Entry>, key: Text)
    requires forall i :: 0 <= i < |es| ==> es[i].key != key
    ensures key in Own(m, es) <==> key in m
    ensures key in m ==> Own(m, es)[key] == m[key]
    decreases es
  {
    if es != [] {
      OwnOther(if es[0].value.Undefined? then m else m[es[0].key := Denote(es[0].value)], es[1..], key);
    }
  }

  lemma {:induction false} OwnAt(m: map<Text, Json>, es: seq<Entry>, i: nat)
    requires i < |es| && !es[i].value.Undefined?
    requires forall a, b :: 0 <= a < b < |es| ==> es[a].key != es[b].key
    ensures es[i].key in Own(m, es) && Own(m, es)[es[i].key] == Denote(es[i].value)
    decreases es
  {
    if i == 0 {
      OwnOther(m[es[0].key := Denote(es[0].value)], es[1..], es[0].key);
    } else {
      OwnAt(if es[0].value.Undefined? then m else m[es[0].key := Denote(es[0].value)], es[1..], i - 1);
    }
  }

  lemma {:induction false} RebuiltOther(r: Record, es: seq<Entry>, key: Text)
    requires forall i :: 0 <= i < |es| ==> es[i].key != key
    ensures key in Rebuilt(r, es).own <==> key in r.own
    ensures key in r.own ==> Rebuilt(r, es).own[key] == r.own[key]
    decreases es
  {
    if es != [] {
      RebuiltOther(if es[0].value.Undefined? then r else Assign(r, es[0].key, Meaning(Tree(es[0].value))), es[1..], key);
    }
  }

  lemma {:induction false} RebuiltAt(r: Record, es: seq<Entry>, i: nat)
    requires i < |es| && !es[i].value.Undefined? && es[i].key != PROTO
    requires forall a, b :: 0 <= a < b < |es| ==> es[a].key != es[b].key
    ensures var own := Rebuilt(r, es).own;
            es[i].key in own && own[es[i].key] == Meaning(Tree(es[i].value))
    decreases es
  {
    if i == 0 {
      RebuiltOther(Assign(r, es[0].key, Meaning(Tree(es[0].value))), es[1..], es[0].key);
    } else {
      RebuiltAt(if es[0].value.Undefined? then r else Assign(r, es[0].key, Meaning(Tree(es[0].value))), es[1..], i - 1);
    }
  }

  // A single `__proto__` member never becomes a property.
  lemma {:induction false} ProtoIsNotOwn(r: Record, es: seq<Entry>)
    requires r.setter && PROTO !in r.own
    requires forall a, b :: 0 <= a < b < |es| ==> es[a].key != es[b].key
    ensures PROTO !in Rebuilt(r, es).own
    decreases es
  {
    if es != [] {
      if es[0].value.Undefined? {
        ProtoIsNotOwn(r, es[1..]);
      } else {
        var next := Assign(r, es[0].key, Meaning(Tree(es[0].value)));
        if es[0].key == PROTO {
          RebuiltOther(next, es[1..], PROTO);
        } else {
          ProtoIsNotOwn(next, es[1..]);
        }
      }
    }
  }

  lemma {:induction false} ProtoIsLost(v: Js)
    requires Proper(v) && !ProtoFree(v)
    ensures Meaning(Tree(v)) != Denote(v)
    decreases v
  {
    match v
    case Arr(items) =>
      var i :| 0 <= i < |items| && !ProtoFree(items[i]);
      ProtoIsLost(items[i]);
      ArrayMeaning(items);
      assert Meaning(Tree(v)).items[i] != Denote(v).items[i];
    case Obj(es) =>
      ObjectMeaning(es);
      var i :| 0 <= i < |es| && !es[i].value.Undefined? && (es[i].key == PROTO || !ProtoFree(es[i].value));
      OwnAt(map[], es, i);
      if es[i].key == PROTO {
        ProtoIsNotOwn(EMPTY_RECORD, es);
      } else {
        RebuiltAt(EMPTY_RECORD, es, i);
        ProtoIsLost(es[i].value);
      }
  }

  /** Printing and reading gives back exactly the value, if and only if no printed property
      anywhere in it is called `__proto__`. */
  lemma RoundTrip(v: Js)
    requires Proper(v)
    ensures Reading(Encode(v)) == Ok(Denote(v)) <==> ProtoFree(v)
  {
    ReadsWhatWasPrinted(v);
    if ProtoFree(v) {
      ProtoFreeIsKept(v);
    } else {
      ProtoIsLost(v);
    }
  }

  lemma FlagObject(key: Text, b: bool)
    ensures Proper(Obj([Entry(key, Js.Bool(b))]))
    ensures Rebuilt(EMPTY_RECORD, [Entry(key, Js.Bool(b))]) == Assign(EMPTY_RECORD, key, JBool(b))
    ensures key in Own(map[], [Entry(key, Js.Bool(b))])
  {
    hide Assign;
    var es := [Entry(key, Js.Bool(b))];
    assert es[1..] == [];
    assert Proper(es[0].value) && ProperEntries(es);
    OwnAt(map[], es, 0);
  }

  /** A value the round trip loses: `{"__proto__": true}` is read back as `{}`. */
  lemma ProtoExample(v: Js)
    requires v == Obj([Entry(PROTO, Js.Bool(true))])
    ensures Reading(Encode(v)) == Ok(EMPTY_RECORD) && Denote(v) != EMPTY_RECORD
  {
    hide Encode, Reading, Proper, Rebuilt, Own, Meaning, Tree;
    FlagObject(PROTO, true);
    ReadsWhatWasPrinted(v);
    ObjectMeaning(v.entries);
  }

  /** A finite number survives in whatever form it is printed, with or without fraction and exponent. */
  lemma NumbersSurvive(m: Number)
    requires IsFinite(NumberValue(m))
    ensures Reading(Encode(Js.Num(m))) == Ok(JNum(NumberValue(m)))
  {
    RoundTrip(Js.Num(m));
  }

  /** So does every integer, printed as plain digits. */
  lemma IntegersSurvive(n: int)
    requires -OVERFLOW < n < OVERFLOW
    ensures Reading(Encode(Js.Num(IntNumeral(n)))) == Ok(JNum(n as real))
  {
    NumbersSurvive(IntNumeral(n));
  }

  // ---- The text printed, in plain numbers ----

  // The unit writes the hexadecimal digit d in lower case.
  predicate Lower(u: Unit, d: nat) { d < 16 && u == if d < 10 then 0x30 + d else 0x61 + (d - 10) }

  /** How one unit is quoted: backspace, tab, line feed, form feed, return, quote and backslash by a letter;
      other control characters and lone surrogates by four lower-case digits; anything else as it is. */
  lemma QuotedUnit(u: Unit, a: nat, b: nat, c: nat, d: nat)
    requires u == 4096 * a + 256 * b + 16 * c + d && a < 16 && b < 16 && c < 16 && d < 16
    ensures var q := Quote([u]);
            && |q| >= 3 && q[0] == 0x22 && q[|q| - 1] == 0x22
            && var body := q[1..|q| - 1];
            if u == 0x08 then body == [0x5C, 0x62] else if u == 0x09 then body == [0x5C, 0x74]
            else if u == 0x0A then body == [0x5C, 0x6E] else if u == 0x0C then body == [0x5C, 0x66]
            else if u == 0x0D then body == [0x5C, 0x72] else if u == 0x22 || u == 0x5C then body == [0x5C, u]
            else if u < 0x20 || 0xD800 <= u < 0xE000 then
              && |body| == 6 && body[0] == 0x5C && body[1] == 0x75
              && Lower(body[2], a) && Lower(body[3], b) && Lower(body[4], c) && Lower(body[5], d)
            else body == [u]
  {
    hide EscapeUnit, HexText;
    QuotedAlone(u);
    EscapeForm(u, a, b, c, d);
  }

  lemma QuotedAlone(u: Unit)
    ensures var q := Quote([u]);
            |q| == |EscapeUnit(u)| + 2 && q[0] == 0x22 && q[|q| - 1] == 0x22 && q[1..|q| - 1] == EscapeUnit(u) && |EscapeUnit(u)| >= 1
  {
    hide HexText;
    assert [u][1..] == [] && EscapeUnit(u) + [] == EscapeUnit(u);
    assert QuoteBody([u]) == EscapeUnit(u) + QuoteBody([]);
  }

  lemma EscapeForm(u: Unit, a: nat, b: nat, c: nat, d: nat)
    requires u == 4096 * a + 256 * b + 16 * c + d && a < 16 && b < 16 && c < 16 && d < 16
    ensures var body := EscapeUnit(u);
            if u == 0x08 then body == [0x5C, 0x62] else if u == 0x09 then body == [0x5C, 0x74]
            else if u == 0x0A then body == [0x5C, 0x6E] else if u == 0x0C then body == [0x5C, 0x66]
            else if u == 0x0D then body == [0x5C, 0x72] else if u == 0x22 || u == 0x5C then body == [0x5C, u]
            else if u < 0x20 || 0xD800 <= u < 0xE000 then
              && |body| == 6 && body[0] == 0x5C && body[1] == 0x75
              && Lower(body[2], a) && Lower(body[3], b) && Lower(body[4], c) && Lower(body[5], d)
            else body == [u]
  {
    HexForm(u, a, b, c, d);
    hide HexText;
  }

  lemma HexForm(u: Unit, a: nat, b: nat, c: nat, d: nat)
    requires u == 4096 * a + 256 * b + 16 * c + d && a < 16 && b < 16 && c < 16 && d < 16
    ensures var h := HexText(u); Lower(h[0], a) && Lower(h[1], b) && Lower(h[2], c) && Lower(h[3], d)
  {
  }

  // Units that need no escape, and pairs of surrogates.
  predicate Unescaped(s: Text)
    decreases |s|
  {
    s == [] ||
    (|s| > 1 && 0xD800 <= s[0] < 0xDC00 && 0xDC00 <= s[1] < 0xE000 && Unescaped(s[2..])) ||
    (s[0] >= 0x20 && s[0] != 0x22 && s[0] != 0x5C && !(0xD800 <= s[0] < 0xE000) && Unescaped(s[1..]))
  }

  /** Text that needs no escape is quoted as it is. */
  lemma QuotedPlainly(s: Text)
    requires Unescaped(s)
    ensures Quote(s) == [0x22] + s + [0x22]
  {
    PlainBody(s);
  }

  lemma {:induction false} PlainBody(s: Text)
    requires Unescaped(s)
    ensures QuoteBody(s) == s
    decreases |s|
  {
    hide HexText;
    if s != [] {
      if 0xD800 <= s[0] < 0xDC00 {
        PlainBody(s[2..]);
        assert s == [s[0], s[1]] + s[2..];
      } else {
        PlainBody(s[1..]);
        assert s == [s[0]] + s[1..];
      }
    }
  }
}
