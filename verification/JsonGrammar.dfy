/** JSON texts as RFC 8259 defines them: concrete syntax trees that keep every
    blank and every escape, the text each tree spells, and the value it denotes. */
module JsonGrammar {
  import opened JsText

  const QUOTE: Unit := 0x22
  const PLUS: Unit := 0x2B
  const COMMA: Unit := 0x2C
  const MINUS: Unit := 0x2D
  const DOT: Unit := 0x2E
  const SLASH: Unit := 0x2F
  const ZERO: Unit := 0x30
  const NINE: Unit := 0x39
  const COLON: Unit := 0x3A
  const UPPER_E: Unit := 0x45
  const LBRACKET: Unit := 0x5B
  const BACKSLASH: Unit := 0x5C
  const RBRACKET: Unit := 0x5D
  const LOWER_B: Unit := 0x62
  const LOWER_E: Unit := 0x65
  const LOWER_F: Unit := 0x66
  const LOWER_N: Unit := 0x6E
  const LOWER_R: Unit := 0x72
  const LOWER_T: Unit := 0x74
  const LOWER_U: Unit := 0x75
  const LBRACE: Unit := 0x7B
  const RBRACE: Unit := 0x7D

  const NULL_TEXT: Text := [0x6E, 0x75, 0x6C, 0x6C]
  const TRUE_TEXT: Text := [0x74, 0x72, 0x75, 0x65]
  const FALSE_TEXT: Text := [0x66, 0x61, 0x6C, 0x73, 0x65]

  // The property name whose assignment runs a setter instead of creating a property.
  const PROTO: Text := [0x5F, 0x5F, 0x70, 0x72, 0x6F, 0x74, 0x6F, 0x5F, 0x5F]

  predicate IsWs(u: Unit) { u == 0x20 || u == 0x0A || u == 0x0D || u == 0x09 }
  predicate IsDigit(u: Unit) { ZERO <= u <= NINE }
  predicate IsHex(u: Unit) { IsDigit(u) || 0x41 <= u <= 0x46 || 0x61 <= u <= 0x66 }

  predicate IsShortEscape(u: Unit) {
    u in [QUOTE, BACKSLASH, SLASH, LOWER_B, LOWER_F, LOWER_N, LOWER_R, LOWER_T]
  }

  type Ws = w: Text | forall k :: 0 <= k < |w| ==> IsWs(w[k])
  type Digits = d: Text | forall k :: 0 <= k < |d| ==> IsDigit(d[k])
  type HexQuad = h: Text | |h| == 4 && forall k :: 0 <= k < 4 ==> IsHex(h[k]) witness [ZERO, ZERO, ZERO, ZERO]

  // ---- Section 7: strings ----

  datatype RawChar = Plain(u: Unit) | Short(letter: Unit) | Hex(quad: HexQuad)

  type StrChar = c: RawChar |
    match c
    case Plain(u) => u >= 0x20 && u != QUOTE && u != BACKSLASH
    case Short(letter) => IsShortEscape(letter)
    case Hex(_) => true
    witness Plain(0x20)

  function CharText(c: StrChar): (s: Text)
    ensures |s| > 0
  {
    match c
    case Plain(u) => [u]
    case Short(letter) => [BACKSLASH, letter]
    case Hex(quad) => [BACKSLASH, LOWER_U] + quad
  }

  function CharsText(cs: seq<StrChar>): Text {
    if cs == [] then [] else CharText(cs[0]) + CharsText(cs[1..])
  }

  function StringText(cs: seq<StrChar>): Text { [QUOTE] + CharsText(cs) + [QUOTE] }

  function HexDigit(u: Unit): (d: nat)
    ensures IsHex(u) ==> d < 16
  {
    if IsDigit(u) then u - ZERO else if u >= 0x61 then u - 0x57 else if u >= 0x41 then u - 0x37 else 0
  }

  function HexValue(h: HexQuad): Unit {
    ((HexDigit(h[0]) * 16 + HexDigit(h[1])) * 16 + HexDigit(h[2])) * 16 + HexDigit(h[3])
  }

  function ShortValue(letter: Unit): Unit {
    if letter == LOWER_B then 0x08
    else if letter == LOWER_F then 0x0C
    else if letter == LOWER_N then 0x0A
    else if letter == LOWER_R then 0x0D
    else if letter == LOWER_T then 0x09
    else letter
  }

  function CharValue(c: StrChar): Unit {
    match c
    case Plain(u) => u
    case Short(letter) => ShortValue(letter)
    case Hex(quad) => HexValue(quad)
  }

  function CharsValue(cs: seq<StrChar>): (s: Text)
    ensures |s| == |cs|
  {
    seq(|cs|, i requires 0 <= i < |cs| => CharValue(cs[i]))
  }

  // ---- Section 6: numbers ----

  datatype RawExponent = NoExponent | Exponent(mark: Unit, sign: Text, digits: Digits)

  datatype RawNumber = RawNumber(minus: bool, whole: Digits, fraction: Digits, exponent: RawExponent)

  // An empty fraction stands for no fraction part at all.
  type Number = n: RawNumber |
    && n.whole != []
    && (n.whole[0] == ZERO ==> |n.whole| == 1)
    && (n.exponent.Exponent? ==>
          && n.exponent.mark in [LOWER_E, UPPER_E]
          && n.exponent.sign in [[], [PLUS], [MINUS]]
          && n.exponent.digits != [])
    witness RawNumber(false, [ZERO], [], NoExponent)

  function MinusText(minus: bool): Text { if minus then [MINUS] else [] }

  function FractionText(d: Digits): Text { if d == [] then [] else [DOT] + d }

  function ExponentText(e: RawExponent): Text {
    match e
    case NoExponent => []
    case Exponent(mark, sign, digits) => [mark] + (sign + digits)
  }

  function NumberText(n: Number): Text {
    MinusText(n.minus) + (n.whole + (FractionText(n.fraction) + ExponentText(n.exponent)))
  }

  function DigitsValue(d: Digits): nat {
    if d == [] then 0 else 10 * DigitsValue(d[..|d| - 1]) + (d[|d| - 1] - ZERO)
  }

  function Pow10(e: nat): (p: nat)
    ensures p > 0
  {
    if e == 0 then 1 else 10 * Pow10(e - 1)
  }

  function Scale(m: int, e: int): real {
    if e >= 0 then (m * Pow10(e)) as real else m as real / Pow10(-e) as real
  }

  function Signed(minus: bool, m: int): int { if minus then -m else m }

  function ExponentValue(e: RawExponent): int {
    match e
    case NoExponent => 0
    case Exponent(_, sign, digits) => Signed(sign == [MINUS], DigitsValue(digits))
  }

  // The exact decimal value; rounding to the nearest double is not modelled.
  function NumberValue(n: Number): real {
    Scale(Signed(n.minus, DigitsValue(n.whole + n.fraction)), ExponentValue(n.exponent) - |n.fraction|)
  }

  // 2^1024 - 2^970: from here on a decimal rounds to an infinite double.
  const OVERFLOW: int :=
    0xFFFFFFFFFFFFFC00000000000000000000000000000000000000000000000000000000000000000000000000000000000000000000000000000000000000000000000000000000000000000000000000000000000000000000000000000000000000000000000000000000000000000000000000000000000000000000000000

  predicate IsFinite(x: real) { -(OVERFLOW as real) < x < OVERFLOW as real }

  // ---- Sections 2 to 5: values, arrays, objects ----

  datatype Value =
    | Null
    | Bool(b: bool)
    | Num(n: Number)
    | Str(chars: seq<StrChar>)
    | EmptyArray(blank: Ws)
    | Array(items: Items)
    | EmptyObject(gap: Ws)
    | Object(members: Members)

  // A value with the blanks around it; a whole JSON text is one of these.
  datatype Item = Item(before: Ws, value: Value, after: Ws)

  datatype Items = One(item: Item) | More(first: Item, rest: Items)

  datatype Member = Member(lead: Ws, key: seq<StrChar>, trail: Ws, item: Item)

  datatype Members = OneMember(member: Member) | MoreMembers(head: Member, tail: Members)

  function ValueText(v: Value): Text {
    match v
    case Null => NULL_TEXT
    case Bool(b) => if b then TRUE_TEXT else FALSE_TEXT
    case Num(n) => NumberText(n)
    case Str(cs) => StringText(cs)
    case EmptyArray(w) => [LBRACKET] + (w + [RBRACKET])
    case Array(items) => [LBRACKET] + (ItemsText(items) + [RBRACKET])
    case EmptyObject(w) => [LBRACE] + (w + [RBRACE])
    case Object(members) => [LBRACE] + (MembersText(members) + [RBRACE])
  }

  function ItemText(it: Item): Text { it.before + (ValueText(it.value) + it.after) }

  function ItemsText(items: Items): Text {
    match items
    case One(item) => ItemText(item)
    case More(first, rest) => ItemText(first) + ([COMMA] + ItemsText(rest))
  }

  function MemberText(m: Member): Text {
    m.lead + (StringText(m.key) + (m.trail + ([COLON] + ItemText(m.item))))
  }

  function MembersText(ms: Members): Text {
    match ms
    case OneMember(m) => MemberText(m)
    case MoreMembers(m, rest) => MemberText(m) + ([COMMA] + MembersText(rest))
  }

  // ---- What a tree denotes ----

  /** Values the reader builds. An object is its own properties, plus whether assigning
      `__proto__` to it still reaches the setter that every plain object inherits. */
  datatype Json =
    | JNull
    | JBool(b: bool)
    | JNum(x: real)
    | JStr(s: Text)
    | JArr(items: seq<Json>)
    | JObj(own: map<Text, Json>, setter: bool)

  type Record = j: Json | j.JObj? witness JObj(map[], true)

  const EMPTY_RECORD: Record := JObj(map[], true)

  /** `record[key] = value`. Assigning `__proto__` through the inherited setter replaces the
      prototype by an object or by null and stores nothing; once the chain no longer reaches the
      setter, `__proto__` is a property like any other. */
  function Assign(r: Record, key: Text, value: Json): Record {
    if key != PROTO || !r.setter then JObj(r.own[key := value], r.setter)
    else if value.JNull? then JObj(r.own, false)
    else if value.JObj? then JObj(r.own, value.setter && PROTO !in value.own)
    else r
  }

  function Meaning(v: Value): Json
    decreases v
  {
    match v
    case Null => JNull
    case Bool(b) => JBool(b)
    case Num(n) => JNum(NumberValue(n))
    case Str(cs) => JStr(CharsValue(cs))
    case EmptyArray(_) => JArr([])
    case Array(items) => JArr(ItemsMeaning(items))
    case EmptyObject(_) => EMPTY_RECORD
    case Object(members) => Build(EMPTY_RECORD, members)
  }

  function ItemsMeaning(items: Items): seq<Json>
    decreases items
  {
    match items
    case One(item) => [Meaning(item.value)]
    case More(first, rest) => [Meaning(first.value)] + ItemsMeaning(rest)
  }

  // Members take effect one after the other, in the order of the text.
  function Build(r: Record, ms: Members): Record
    decreases ms
  {
    match ms
    case OneMember(m) => Assign(r, CharsValue(m.key), Meaning(m.item.value))
    case MoreMembers(m, rest) => Build(Assign(r, CharsValue(m.key), Meaning(m.item.value)), rest)
  }

  predicate AllFinite(v: Value) {
    match v
    case Num(n) => IsFinite(NumberValue(n))
    case Array(items) => ItemsFinite(items)
    case Object(members) => MembersFinite(members)
    case _ => true
  }

  predicate ItemsFinite(items: Items) {
    match items
    case One(item) => AllFinite(item.value)
    case More(first, rest) => AllFinite(first.value) && ItemsFinite(rest)
  }

  predicate MembersFinite(ms: Members) {
    match ms
    case OneMember(m) => AllFinite(m.item.value)
    case MoreMembers(m, rest) => AllFinite(m.item.value) && MembersFinite(rest)
  }

  // ---- Duplicate names ----

  datatype Lookup = Absent | Found(value: Json)

  // The value of the last member of the given name.
  function LastValue(ms: Members, key: Text): Lookup {
    match ms
    case OneMember(m) => if CharsValue(m.key) == key then Found(Meaning(m.item.value)) else Absent
    case MoreMembers(m, rest) =>
      var later := LastValue(rest, key);
      if later.Found? then later
      else if CharsValue(m.key) == key then Found(Meaning(m.item.value)) else Absent
  }

  lemma {:induction false} LastDuplicateWins(r: Record, ms: Members, key: Text)
    requires key != PROTO
    ensures var own := Build(r, ms).own;
            match LastValue(ms, key)
            case Found(value) => key in own && own[key] == value
            case Absent => key in own <==> key in r.own
    ensures LastValue(ms, key).Absent? && key in r.own ==> Build(r, ms).own[key] == r.own[key]
    decreases ms
  {
    match ms
    case OneMember(_) =>
    case MoreMembers(m, rest) =>
      LastDuplicateWins(Assign(r, CharsValue(m.key), Meaning(m.item.value)), rest, key);
  }
}
