/** The reader as it runs: one cursor that every step moves, strings, arrays and records
    filled in loops. Each method is proved against the reader on positions. */
module JsonReader {
  import opened JsText
  import opened JsonGrammar
  import opened JsonSpelling
  import opened JsonParser

  datatype Result<+T> = Ok(value: T) | Failed

  // What a run that read `rest` after `done` has read of `whole`, by value.
  ghost predicate CharsGoOn(whole: Parsed<seq<StrChar>>, done: Text, rest: Parsed<seq<StrChar>>) {
    match rest
    case Fail => whole.Fail?
    case Got(cs, n) => whole.Got? && whole.next == n && CharsValue(whole.value) == done + CharsValue(cs)
  }

  ghost predicate ItemsGoOn(whole: Parsed<Items>, done: seq<Json>, rest: Parsed<Items>) {
    match rest
    case Fail => whole.Fail?
    case Got(items, n) => whole.Got? && whole.next == n && ItemsMeaning(whole.value) == done + ItemsMeaning(items)
  }

  ghost predicate MembersGoOn(whole: Parsed<Members>, done: Record, rest: Parsed<Members>) {
    match rest
    case Fail => whole.Fail?
    case Got(ms, n) => whole.Got? && whole.next == n && Build(EMPTY_RECORD, whole.value) == Build(done, ms)
  }

  lemma CharsStep(whole: Parsed<seq<StrChar>>, done: Text, t: Text, i: nat)
    requires i < |t| && t[i] != QUOTE && CharsGoOn(whole, done, PChars(t, i))
    ensures match PChar(t, i)
            case Fail => whole.Fail?
            case Got(c, j) => CharsGoOn(whole, done + [CharValue(c)], PChars(t, j))
  {
    hide PChar, CharsAt, CharText, CharsSize, CharsValue, CharValue;
    match PChar(t, i)
    case Fail =>
    case Got(c, j) =>
      match PChars(t, j)
      case Fail =>
      case Got(cs, _) =>
        CharsValueCons(c, cs);
        assert done + ([CharValue(c)] + CharsValue(cs)) == (done + [CharValue(c)]) + CharsValue(cs);
  }

  // At the closing quotation mark, and at the end of the text.
  lemma CharsStop(whole: Parsed<seq<StrChar>>, done: Text, t: Text, i: nat)
    requires i <= |t| && CharsGoOn(whole, done, PChars(t, i))
    ensures i == |t| ==> whole.Fail?
    ensures At(t, i, QUOTE) ==> whole.Got? && whole.next == i + 1 && CharsValue(whole.value) == done
  {
    hide PChar, CharsAt, CharText, CharsSize, CharValue, Spans;
  }

  lemma CharsValueCons(c: StrChar, cs: seq<StrChar>)
    ensures CharsValue([c] + cs) == [CharValue(c)] + CharsValue(cs)
  {
    hide CharValue;
  }

  // What a plain code unit, neither quotation mark nor backslash, is read as.
  lemma PlainChar(t: Text, i: nat)
    requires i < |t| && t[i] != QUOTE && t[i] != BACKSLASH
    ensures if t[i] < 0x20 then PChar(t, i) == Fail
            else PChar(t, i).Got? && PChar(t, i).next == i + 1 && CharValue(PChar(t, i).value) == t[i]
  {
  }

  lemma ItemsStep(whole: Parsed<Items>, done: seq<Json>, t: Text, i: nat)
    requires i <= |t| && ItemsGoOn(whole, done, PItems(t, i))
    ensures match PItem(t, i)
            case Fail => whole.Fail?
            case Got(item, j) =>
              var more := done + [Meaning(item.value)];
              if At(t, j, RBRACKET) then whole.Got? && whole.next == j + 1 && ItemsMeaning(whole.value) == more
              else if At(t, j, COMMA) then ItemsGoOn(whole, more, PItems(t, j + 1))
              else whole.Fail?
  {
    hide PItem;
  }

  lemma MembersStep(whole: Parsed<Members>, done: Record, t: Text, i: nat)
    requires i <= |t| && MembersGoOn(whole, done, PMembers(t, i))
    ensures match PMember(t, i)
            case Fail => whole.Fail?
            case Got(m, j) =>
              var more := Assign(done, CharsValue(m.key), Meaning(m.item.value));
              if At(t, j, RBRACE) then whole.Got? && whole.next == j + 1 && Build(EMPTY_RECORD, whole.value) == more
              else if At(t, j, COMMA) then MembersGoOn(whole, more, PMembers(t, j + 1))
              else whole.Fail?
  {
    hide PMember, Assign;
  }

  lemma SkipTwice(t: Text, i: nat)
    requires i <= |t|
    ensures SkipWs(t, SkipWs(t, i)) == SkipWs(t, i)
  {
    SkipWsStops(t, i);
  }

  class Reader {
    const source: Text
    var index: nat

    ghost predicate Valid() reads this { index <= |source| }

    constructor (text: Text)
      ensures Valid() && source == text && index == 0
    {
      source := text;
      index := 0;
    }

    method SkipWhitespace()
      requires Valid()
      modifies this
      ensures Valid() && index == SkipWs(source, old(index))
    {
      while index < |source| && IsWs(source[index])
        invariant Valid() && SkipWs(source, index) == SkipWs(source, old(index))
      {
        index := index + 1;
      }
    }

    method SkipDigitRun()
      requires Valid()
      modifies this
      ensures Valid() && index == SkipDigits(source, old(index))
    {
      while index < |source| && IsDigit(source[index])
        invariant Valid() && SkipDigits(source, index) == SkipDigits(source, old(index))
      {
        index := index + 1;
      }
    }

    method ParseLiteral(literal: Text, value: Json) returns (r: Result<Json>)
      requires Valid()
      modifies this
      ensures Valid()
      ensures if Spans(source, old(index), literal) then r == Ok(value) && index == old(index) + |literal|
              else r == Failed
    {
      if index + |literal| > |source| || source[index..index + |literal|] != literal {
        return Failed;
      }
      assert forall k :: 0 <= k < |literal| ==> source[index..index + |literal|][k] == literal[k];
      index := index + |literal|;
      return Ok(value);
    }

    method ParseEscape() returns (r: Result<Unit>)
      requires Valid() && 0 < index && source[index - 1] == BACKSLASH
      modifies this
      ensures Valid()
      ensures match PChar(source, old(index) - 1)
              case Got(c, n) => r == Ok(CharValue(c)) && index == n
              case Fail => r == Failed
    {
      if index >= |source| {
        return Failed;
      }
      var escape := source[index];
      index := index + 1;
      if escape == QUOTE || escape == BACKSLASH || escape == SLASH {
        return Ok(escape);
      } else if escape == LOWER_B {
        return Ok(0x08);
      } else if escape == LOWER_F {
        return Ok(0x0C);
      } else if escape == LOWER_N {
        return Ok(0x0A);
      } else if escape == LOWER_R {
        return Ok(0x0D);
      } else if escape == LOWER_T {
        return Ok(0x09);
      } else if escape == LOWER_U {
        if !IsQuad(source, index) {
          return Failed;
        }
        var quad: HexQuad := source[index..index + 4];
        index := index + 4;
        return Ok(HexValue(quad));
      }
      return Failed;
    }

    method ParseString() returns (r: Result<Text>)
      requires Valid()
      modifies this
      ensures Valid()
      ensures match PString(source, old(index))
              case Got(cs, n) => r == Ok(CharsValue(cs)) && index == n
              case Fail => r == Failed
    {
      if !At(source, index, QUOTE) {
        return Failed;
      }
      index := index + 1;
      ghost var whole := PChars(source, index);
      assert PString(source, old(index)) == whole;
      hide PChars, PChar, PString, CharsGoOn, StringAt, CharsAt;
      var output: Text := [];
      assert CharsGoOn(whole, output, PChars(source, index)) by { CharsStart(source, index); }
      while index < |source|
        invariant Valid() && CharsGoOn(whole, output, PChars(source, index))
      {
        if source[index] == QUOTE {
          CharsStop(whole, output, source, index);
          index := index + 1;
          return Ok(output);
        }
        CharsStep(whole, output, source, index);
        var unit := ParseChar();
        if unit == Failed {
          return Failed;
        }
        output := output + [unit.value];
      }
      CharsStop(whole, output, source, index);
      return Failed;
    }

    // One character of a string other than the closing quotation mark.
    method ParseChar() returns (r: Result<Unit>)
      requires Valid() && index < |source| && source[index] != QUOTE
      modifies this
      ensures Valid()
      ensures match PChar(source, old(index))
              case Got(c, n) => r == Ok(CharValue(c)) && index == n
              case Fail => r == Failed
    {
      hide PChar;
      var ch := source[index];
      index := index + 1;
      if ch == BACKSLASH {
        r := ParseEscape();
      } else {
        PlainChar(source, index - 1);
        r := if ch < 0x20 then Failed else Ok(ch);
      }
    }

    method ParseNumber() returns (r: Result<Json>)
      requires Valid()
      modifies this
      ensures Valid()
      ensures match PNumber(source, old(index))
              case Got(n, j) => r == Ok(JNum(NumberValue(n))) && index == j
              case Fail => r == Failed
    {
      hide IsFinite, NumberValue, PFraction, PExponent, FractionAt, ExponentAt, NumberAt;
      var minus := At(source, index, MINUS);
      if minus {
        index := index + 1;
      }
      var a := index;
      if At(source, index, ZERO) {
        index := index + 1;
      } else if index < |source| && ZERO < source[index] <= NINE {
        SkipDigitRun();
      } else {
        return Failed;
      }
      var whole := source[a..index];
      var fraction := ParseFraction();
      if fraction == Failed {
        return Failed;
      }
      var exponent := ParseExponent();
      if exponent == Failed {
        return Failed;
      }
      var parsed: Number := RawNumber(minus, whole, fraction.value, exponent.value);
      return if IsFinite(NumberValue(parsed)) then Ok(JNum(NumberValue(parsed))) else Failed;
    }

    method ParseFraction() returns (r: Result<Digits>)
      requires Valid()
      modifies this
      ensures Valid()
      ensures match PFraction(source, old(index))
              case Got(d, j) => r == Ok(d) && index == j
              case Fail => r == Failed
    {
      if !At(source, index, DOT) {
        return Ok([]);
      }
      index := index + 1;
      var a := index;
      SkipDigitRun();
      return if index == a then Failed else Ok(source[a..index]);
    }

    method ParseExponent() returns (r: Result<RawExponent>)
      requires Valid()
      modifies this
      ensures Valid()
      ensures match PExponent(source, old(index))
              case Got(e, j) => r == Ok(e) && index == j
              case Fail => r == Failed
    {
      if !At(source, index, LOWER_E) && !At(source, index, UPPER_E) {
        return Ok(NoExponent);
      }
      var mark := source[index];
      index := index + 1;
      var sign: Text := [];
      if At(source, index, PLUS) || At(source, index, MINUS) {
        sign := [source[index]];
        index := index + 1;
      }
      var a := index;
      SkipDigitRun();
      return if index == a then Failed else Ok(Exponent(mark, sign, source[a..index]));
    }

    method ParseValue() returns (r: Result<Json>)
      requires Valid()
      modifies this
      ensures Valid()
      ensures match PBare(source, SkipWs(source, old(index)))
              case Got(v, n) => r == Ok(Meaning(v)) && index == n
              case Fail => r == Failed
      decreases |source| - index, 1
    {
      hide PString, PNumber, PItems, PMembers, NumberValue;
      SkipWhitespace();
      if index >= |source| {
        return Failed;
      }
      var ch := source[index];
      if ch == QUOTE {
        var s := ParseString();
        return if s == Failed then Failed else Ok(JStr(s.value));
      }
      if ch == LBRACE {
        r := ParseRecord();
      } else if ch == LBRACKET {
        r := ParseArray();
      } else if ch == LOWER_T {
        r := ParseLiteral(TRUE_TEXT, JBool(true));
      } else if ch == LOWER_F {
        r := ParseLiteral(FALSE_TEXT, JBool(false));
      } else if ch == LOWER_N {
        r := ParseLiteral(NULL_TEXT, JNull);
      } else {
        r := ParseNumber();
      }
    }

    method ParseRecord() returns (r: Result<Json>)
      requires Valid() && At(source, index, LBRACE)
      modifies this
      ensures Valid()
      ensures match PBare(source, old(index))
              case Got(v, n) => r == Ok(Meaning(v)) && index == n
              case Fail => r == Failed
      decreases |source| - index, 0
    {
      hide PBare, PString, PMembers, Assign, MembersGoOn, PMember, StringAt, StringSize, Build, Meaning;
      RecordParts(source, index);
      index := index + 1;
      ghost var p: nat := index;
      ghost var whole := PMembers(source, p);
      SkipWhitespace();
      var record := EMPTY_RECORD;
      if At(source, index, RBRACE) {
        index := index + 1;
        return Ok(record);
      }
      assert MembersGoOn(whole, record, PMembers(source, p)) by { MembersStart(source, p); }
      while index < |source|
        invariant Valid() && p <= |source| && old(index) < index == SkipWs(source, p)
        invariant MembersGoOn(whole, record, PMembers(source, p))
      {
        MembersStep(whole, record, source, p);
        SkipTwice(source, p);
        PMemberSkip(source, p);
        var member := ParseMember();
        if member == Failed {
          return Failed;
        }
        record := Assign(record, member.value.0, member.value.1);
        SkipWhitespace();
        if At(source, index, RBRACE) {
          index := index + 1;
          return Ok(record);
        }
        if !At(source, index, COMMA) {
          return Failed;
        }
        index := index + 1;
        p := index;
        SkipWhitespace();
      }
      MembersStep(whole, record, source, p);
      PMemberParts(source, p);
      NoStringAtEnd(source);
      return Failed;
    }

    // A name, a colon and a value: one turn of the loop over members, blanks before it skipped.
    method ParseMember() returns (r: Result<(Text, Json)>)
      requires Valid() && index < |source| && SkipWs(source, index) == index
      modifies this
      ensures Valid()
      ensures match PMember(source, old(index))
              case Fail => r == Failed
              case Got(m, n) =>
                r == Ok((CharsValue(m.key), Meaning(m.item.value))) && old(index) < index && SkipWs(source, index) == n
      decreases |source| - index, 2
    {
      hide PBare, PString, PMember, StringAt, StringSize, Meaning, CharsValue;
      PMemberParts(source, index);
      var key := ParseString();
      if key == Failed {
        return Failed;
      }
      SkipWhitespace();
      if !At(source, index, COLON) {
        return Failed;
      }
      index := index + 1;
      var value := ParseValue();
      if value == Failed {
        return Failed;
      }
      return Ok((key.value, value.value));
    }

    method ParseArray() returns (r: Result<Json>)
      requires Valid() && At(source, index, LBRACKET)
      modifies this
      ensures Valid()
      ensures match PBare(source, old(index))
              case Got(v, n) => r == Ok(Meaning(v)) && index == n
              case Fail => r == Failed
      decreases |source| - index, 0
    {
      hide PBare, PItem, PItems, ItemsGoOn, Meaning, ItemsMeaning;
      ArrayParts(source, index);
      index := index + 1;
      ghost var p: nat := index;
      ghost var whole := PItems(source, p);
      SkipWhitespace();
      var values: seq<Json> := [];
      if At(source, index, RBRACKET) {
        index := index + 1;
        return Ok(JArr(values));
      }
      assert ItemsGoOn(whole, values, PItems(source, p)) by { ItemsStart(source, p); }
      while index < |source|
        invariant Valid() && p <= |source| && old(index) < index == SkipWs(source, p)
        invariant ItemsGoOn(whole, values, PItems(source, p))
      {
        ItemsStep(whole, values, source, p);
        PItemParts(source, p);
        SkipTwice(source, p);
        var value := ParseValue();
        if value == Failed {
          return Failed;
        }
        values := values + [value.value];
        SkipWhitespace();
        if At(source, index, RBRACKET) {
          index := index + 1;
          return Ok(JArr(values));
        }
        if !At(source, index, COMMA) {
          return Failed;
        }
        index := index + 1;
        p := index;
        SkipWhitespace();
      }
      ItemsStep(whole, values, source, p);
      PItemParts(source, p);
      return Failed;
    }
  }

  // An item by its parts: blanks, a value, blanks.
  lemma PItemParts(t: Text, i: nat)
    requires i <= |t|
    ensures match PBare(t, SkipWs(t, i))
            case Fail => PItem(t, i) == Fail
            case Got(v, j) => PItem(t, i).Got? && PItem(t, i).value.value == v && PItem(t, i).next == SkipWs(t, j)
  {
    hide PBare;
  }

  // An object or an array by its parts.
  lemma RecordParts(t: Text, i: nat)
    requires At(t, i, LBRACE)
    ensures var w := SkipWs(t, i + 1);
            if At(t, w, RBRACE) then PBare(t, i).Got? && PBare(t, i).next == w + 1 && Meaning(PBare(t, i).value) == EMPTY_RECORD
            else
              match PMembers(t, i + 1)
              case Fail => PBare(t, i) == Fail
              case Got(ms, j) => PBare(t, i).Got? && PBare(t, i).next == j && Meaning(PBare(t, i).value) == Build(EMPTY_RECORD, ms)
  {
    hide PMembers;
  }

  lemma ArrayParts(t: Text, i: nat)
    requires At(t, i, LBRACKET)
    ensures var w := SkipWs(t, i + 1);
            if At(t, w, RBRACKET) then PBare(t, i).Got? && PBare(t, i).next == w + 1 && Meaning(PBare(t, i).value) == JArr([])
            else
              match PItems(t, i + 1)
              case Fail => PBare(t, i) == Fail
              case Got(items, j) => PBare(t, i).Got? && PBare(t, i).next == j && Meaning(PBare(t, i).value) == JArr(ItemsMeaning(items))
  {
    hide PItems;
  }

  lemma PMemberSkip(t: Text, i: nat)
    requires i <= |t|
    ensures match PMember(t, SkipWs(t, i))
            case Fail => PMember(t, i) == Fail
            case Got(m, n) => PMember(t, i).Got? && PMember(t, i).next == n
                              && PMember(t, i).value.key == m.key && PMember(t, i).value.item == m.item
  {
    hide PItem, PString;
    SkipTwice(t, i);
  }

  // A member by its parts: blanks, a name, blanks, a colon, an item.
  lemma PMemberParts(t: Text, i: nat)
    requires i <= |t|
    ensures match PString(t, SkipWs(t, i))
            case Fail => PMember(t, i) == Fail
            case Got(key, j) =>
              var c := SkipWs(t, j);
              if !At(t, c, COLON) then PMember(t, i) == Fail
              else
                match PBare(t, SkipWs(t, c + 1))
                case Fail => PMember(t, i) == Fail
                case Got(v, n) =>
                  && PMember(t, i).Got? && PMember(t, i).next == SkipWs(t, n)
                  && PMember(t, i).value.key == key && PMember(t, i).value.item.value == v
  {
    hide PItem;
    if PString(t, SkipWs(t, i)).Got? {
      var c := SkipWs(t, PString(t, SkipWs(t, i)).next);
      if At(t, c, COLON) {
        PItemParts(t, c + 1);
      }
    }
  }

  lemma NoStringAtEnd(t: Text)
    ensures PString(t, |t|) == Fail
  {
  }

  lemma CharsStart(t: Text, i: nat)
    requires i <= |t|
    ensures CharsGoOn(PChars(t, i), [], PChars(t, i))
  {
    hide PChars;
  }

  lemma ItemsStart(t: Text, i: nat)
    requires i <= |t|
    ensures ItemsGoOn(PItems(t, i), [], PItems(t, i))
  {
    hide PItems;
  }

  lemma MembersStart(t: Text, i: nat)
    requires i <= |t|
    ensures MembersGoOn(PMembers(t, i), EMPTY_RECORD, PMembers(t, i))
  {
    hide PMembers;
  }

  // What reading a text yields.
  function Reading(text: Text): Result<Json> {
    match PText(text)
    case Got(doc, _) => Ok(Meaning(doc.value))
    case Fail => Failed
  }

  /** Reading a text: the value of the one tree that spells it, or failure when no tree with
      finite numbers does. */
  method ParseJsonText(text: Text) returns (r: Result<Json>)
    ensures r == Reading(text)
    ensures r.Ok? <==> exists doc: Item :: ItemText(doc) == text && AllFinite(doc.value)
    ensures forall doc: Item :: ItemText(doc) == text && AllFinite(doc.value) ==> r == Ok(Meaning(doc.value))
  {
    hide PItem;
    var reader := new Reader(text);
    r := reader.ParseValue();
    PItemParts(text, 0);
    if r.Ok? {
      reader.SkipWhitespace();
      if reader.index != |text| {
        r := Failed;
      }
    }
    forall doc: Item | true
      ensures PText(text) == Got(doc, |text|) <==> ItemText(doc) == text && AllFinite(doc.value)
    {
      AcceptsExactlyTheGrammar(text, doc);
    }
    if PText(text).Got? {
      assert PText(text) == Got(PText(text).value, |text|);
    }
  }
}
