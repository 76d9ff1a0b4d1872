/** JSON texts (RFC 8259, sections 2 to 7). A value carries the white space it is written with; it is printed in
    front of what follows it. */
module JsonValues {
  import opened Chars
  import opened JsonScan

  /** A number in the four parts of section 6. */
  datatype Number = Number(minus: string, digits: string, fraction: string, exponent: string)

  datatype Value =
    | Literal(word: string)
    | Numeral(number: Number)
    | Text(raw: string)
    | Array(open: string, elements: Elements)
    | Object(open: string, fields: Fields)

  datatype Elements = NoElements | Element(before: string, value: Value, after: string, more: Elements)

  datatype Fields =
    | NoFields
    | Field(before: string, name: string, beforeColon: string, afterColon: string, value: Value, after: string,
            more: Fields)

  // ---------------------------------------------------------------- printing

  function NumberText(n: Number): string {
    n.minus + n.digits + n.fraction + n.exponent
  }

  /** The text of `v` followed by `rest`. */
  function Print(v: Value, rest: string): string {
    match v
    case Literal(word) => word + rest
    case Numeral(n) => NumberText(n) + rest
    case Text(raw) => "\"" + (raw + ("\"" + rest))
    case Array(open, es) => "[" + (open + PrintElements(es, "]" + rest))
    case Object(open, fs) => "{" + (open + PrintFields(fs, "}" + rest))
  }

  function PrintElements(es: Elements, rest: string): string {
    match es
    case NoElements => rest
    case Element(before, v, after, more) =>
      before + Print(v, after + (if more.NoElements? then rest else "," + PrintElements(more, rest)))
  }

  function PrintFields(fs: Fields, rest: string): string {
    match fs
    case NoFields => rest
    case Field(before, name, beforeColon, afterColon, v, after, more) =>
      before + PrintName(name, beforeColon, afterColon,
                         Print(v, after + (if more.NoFields? then rest else "," + PrintFields(more, rest))))
  }

  function PrintName(name: string, beforeColon: string, afterColon: string, rest: string): string {
    "\"" + (name + ("\"" + (beforeColon + (":" + (afterColon + rest)))))
  }

  // ---------------------------------------------------------------- the grammar

  predicate AllDigits(s: string) {
    forall i :: 0 <= i < |s| ==> IsDigit(s[i])
  }

  predicate IsNumber(n: Number) {
    && (n.minus == "" || n.minus == "-")
    && n.digits != "" && AllDigits(n.digits) && (n.digits[0] == '0' ==> |n.digits| == 1)
    && (n.fraction == "" || (n.fraction[0] == '.' && |n.fraction| > 1 && AllDigits(n.fraction[1..])))
    && (n.exponent == "" || IsExponent(n.exponent))
  }

  predicate IsExponent(s: string) {
    && s != "" && (s[0] == 'e' || s[0] == 'E')
    && var d := if |s| > 1 && (s[1] == '+' || s[1] == '-') then s[2..] else s[1..];
    d != "" && AllDigits(d)
  }

  predicate IsBlank(s: string) {
    forall i :: 0 <= i < |s| ==> s[i] == ' ' || s[i] == '\t' || s[i] == '\n' || s[i] == '\r'
  }

  /** The inside of a string: every backslash is followed by a character and no quote stands alone. */
  predicate IsRaw(s: string) {
    if s == "" then true
    else if s[0] == '\\' then |s| > 1 && s[1] != '\0' && IsRaw(s[2..])
    else s[0] != '"' && s[0] != '\0' && IsRaw(s[1..])
  }

  predicate IsValue(v: Value) {
    match v
    case Literal(word) => word == "null" || word == "true" || word == "false"
    case Numeral(n) => IsNumber(n)
    case Text(raw) => IsRaw(raw)
    case Array(open, es) => IsBlank(open) && AreElements(es)
    case Object(open, fs) => IsBlank(open) && AreFields(fs)
  }

  predicate AreElements(es: Elements) {
    match es
    case NoElements => true
    case Element(before, v, after, more) => IsBlank(before) && IsValue(v) && IsBlank(after) && AreElements(more)
  }

  predicate AreFields(fs: Fields) {
    match fs
    case NoFields => true
    case Field(before, name, beforeColon, afterColon, v, after, more) =>
      && IsBlank(before) && IsRaw(name) && IsBlank(beforeColon) && IsBlank(afterColon)
      && IsValue(v) && IsBlank(after) && AreFields(more)
  }

  // ---------------------------------------------------------------- skipping pieces of text

  lemma FirstAndRest(c: char, rest: string)
    ensures var t := [c] + rest; t[0] == c && t[1..] == rest && (Ended(rest) ==> Ended(t))
  {}

  lemma SplitFirst(s: string, rest: string)
    requires s != ""
    ensures s + rest == [s[0]] + (s[1..] + rest)
  {}

  lemma PrependEmpty(rest: string)
    ensures "" + rest == rest
  {}

  lemma AppendEmpty(s: string)
    ensures s + "" == s
  {}

  lemma Regroup2(a: string, b: string, rest: string)
    ensures a + (b + rest) == (a + b) + rest
  {}

  lemma Regroup3(a: string, b: string, c: string, rest: string)
    ensures a + (b + (c + rest)) == (a + (b + c)) + rest
  {
    Regroup2(b, c, rest);
    Regroup2(a, b + c, rest);
  }

  lemma {:induction false} EndedBehind(s: string, rest: string)
    requires Ended(rest)
    ensures Ended(s + rest)
  {}

  lemma SkipSpace(c: char, rest: string)
    requires Ended(rest) && IsSpace(c)
    ensures Ended([c] + rest) && SkipSpaces([c] + rest) == SkipSpaces(rest)
  {
    hide Ended, LeftOf;
    FirstAndRest(c, rest);
  }

  lemma BlankSplits(s: string)
    requires s != "" && IsBlank(s)
    ensures IsSpace(s[0]) && IsBlank(s[1..])
  {}

  lemma {:induction false} SkipBlank(s: string, rest: string)
    requires Ended(rest) && IsBlank(s)
    ensures Ended(s + rest) && SkipSpaces(s + rest) == SkipSpaces(rest)
  {
    hide *;
    if s == "" {
      PrependEmpty(rest);
    } else {
      BlankSplits(s);
      SkipBlank(s[1..], rest);
      SplitFirst(s, rest);
      SkipSpace(s[0], s[1..] + rest);
    }
  }

  lemma StringTurn(c: char, rest: string)
    requires Ended(rest) && c != '\0'
    ensures Ended([c] + rest)
    ensures c == '"' ==> InString([c] + rest) == rest
    ensures c == '\\' && rest[0] != '\0' ==> Ended(rest[1..]) && InString([c] + rest) == InString(rest[1..])
    ensures c != '"' && c != '\\' ==> InString([c] + rest) == InString(rest)
  {
    if rest[0] != '\0' {
      LeftOfOne(rest);
    }
    hide Ended, LeftOf;
    FirstAndRest(c, rest);
  }

  lemma {:induction false} SkipRaw(raw: string, rest: string)
    requires Ended(rest) && IsRaw(raw)
    ensures Ended("\"" + rest) && Ended(raw + ("\"" + rest)) && InString(raw + ("\"" + rest)) == rest
  {
    hide Ended, LeftOf, InString;
    var tail := ['"'] + rest;
    StringTurn('"', rest);
    EndedBehind(raw, tail);
    if raw == "" {
      PrependEmpty(tail);
    } else if raw[0] == '\\' {
      SkipRaw(raw[2..], rest);
      SplitFirst(raw, tail);
      SplitFirst(raw[1..], tail);
      EndedBehind(raw[1..], tail);
      FirstAndRest(raw[1], raw[2..] + tail);
      StringTurn(raw[0], raw[1..] + tail);
    } else {
      SkipRaw(raw[1..], rest);
      SplitFirst(raw, tail);
      StringTurn(raw[0], raw[1..] + tail);
    }
  }

  predicate IsPlain(s: string) {
    forall i :: 0 <= i < |s| ==> IsPlainChar(s[i])
  }

  predicate IsPlainChar(c: char) {
    c != '\0' && c != '"' && c != '[' && c != ']' && c != '{' && c != '}'
  }

  lemma PlainSplits(s: string)
    requires s != "" && IsPlain(s)
    ensures IsPlainChar(s[0]) && IsPlain(s[1..])
  {}

  /** Characters other than quotes and brackets change nothing. */
  lemma {:induction false} NestedPlain(s: string, rest: string, o: int, a: int)
    requires Ended(rest) && IsPlain(s) && !(o == 0 && a == 0)
    ensures Ended(s + rest) && SkipNested(s + rest, o, a) == SkipNested(rest, o, a)
  {
    hide *;
    if s == "" {
      PrependEmpty(rest);
    } else {
      PlainSplits(s);
      NestedPlain(s[1..], rest, o, a);
      SplitFirst(s, rest);
      NestedTurns(s[0], s[1..] + rest, o, a);
    }
  }

  /** One character of the loop over an object or array. */
  lemma NestedTurns(c: char, rest: string, o: int, a: int)
    requires Ended(rest) && c != '\0' && c != '"'
    ensures Ended([c] + rest)
    ensures var o' := if c == '{' then o + 1 else if c == '}' then o - 1 else o;
            var a' := if c == '[' then a + 1 else if c == ']' then a - 1 else a;
            SkipNested([c] + rest, o, a) == if o' == 0 && a' == 0 then rest else SkipNested(rest, o', a')
    ensures IsPlainChar(c) && !(o == 0 && a == 0) ==> SkipNested([c] + rest, o, a) == SkipNested(rest, o, a)
  {
    hide Ended, LeftOf, InString, Past, SkipNested;
    FirstAndRest(c, rest);
    PastString([c] + rest);
    NestedTurn([c] + rest, o, a);
  }

  lemma NestedString(raw: string, rest: string, o: int, a: int)
    requires Ended(rest) && IsRaw(raw) && !(o == 0 && a == 0)
    ensures Ended("\"" + (raw + ("\"" + rest))) && SkipNested("\"" + (raw + ("\"" + rest)), o, a) == SkipNested(rest, o, a)
  {
    hide *;
    var inside := raw + ("\"" + rest);
    SkipRaw(raw, rest);
    FirstAndRest('"', inside);
    PastString(['"'] + inside);
    NestedQuote(['"'] + inside, o, a);
  }

  lemma NestedQuote(t: string, o: int, a: int)
    requires Ended(t) && t[0] == '"' && !(o == 0 && a == 0)
    ensures SkipNested(t, o, a) == SkipNested(Past(t), o, a)
  {
    hide Ended, LeftOf, Past, SkipNested;
    NestedTurn(t, o, a);
  }

  // ---------------------------------------------------------------- numbers

  predicate IsNumberChar(c: char) {
    InNumber(c) || c == 'E'
  }

  predicate AllNumberChars(s: string) {
    forall i :: 0 <= i < |s| ==> IsNumberChar(s[i])
  }

  lemma NumberChars(n: Number)
    requires IsNumber(n)
    ensures AllNumberChars(n.minus) && AllNumberChars(n.digits) && AllNumberChars(n.fraction) && AllNumberChars(n.exponent)
  {
    var e := n.exponent;
    if e != "" {
      var signed := |e| > 1 && (e[1] == '+' || e[1] == '-');
      var d := if signed then e[2..] else e[1..];
      forall i | 0 <= i < |e| ensures IsNumberChar(e[i]) {
        if signed && i >= 2 {
          assert e[i] == d[i - 2];
        } else if !signed && i >= 1 {
          assert e[i] == d[i - 1];
        }
      }
    }
  }

  lemma NumberIsPlain(n: Number)
    requires IsNumber(n)
    ensures IsPlain(NumberText(n))
    ensures NumberText(n) != "" && (NumberText(n)[0] == '-' || IsDigit(NumberText(n)[0]))
  {
    NumberChars(n);
    var t := NumberText(n);
    forall i | 0 <= i < |t| ensures IsPlainChar(t[i]) {
      assert IsNumberChar(t[i]);
    }
  }

  predicate AllInNumber(s: string) {
    forall i :: 0 <= i < |s| ==> InNumber(s[i])
  }

  lemma {:induction false} SkipInNumber(s: string, rest: string)
    requires Ended(rest) && AllInNumber(s)
    ensures Ended(s + rest) && SkipNumber(s + rest) == SkipNumber(rest)
  {
    hide LeftOf, Ended;
    if s == "" {
      PrependEmpty(rest);
    } else {
      SkipInNumber(s[1..], rest);
      SplitFirst(s, rest);
      FirstAndRest(s[0], s[1..] + rest);
    }
  }

  /** What is left of a number that the scanner stops in: it does not know the capital E. */
  function CapitalPart(n: Number): string {
    if n.exponent != "" && n.exponent[0] == 'E' then n.exponent else ""
  }

  lemma SkipWholeNumber(n: Number, rest: string)
    requires IsNumber(n) && Ended(rest) && !InNumber(rest[0])
    ensures Ended(NumberText(n) + rest) && SkipNumber(NumberText(n) + rest) == CapitalPart(n) + rest
  {
    hide SkipNumber, Ended, LeftOf, IsNumber;
    var skipped := n.minus + n.digits + n.fraction + (if CapitalPart(n) == "" then n.exponent else "");
    NumberSkips(n);
    EndedBehind(CapitalPart(n), rest);
    SkipInNumber(skipped, CapitalPart(n) + rest);
    assert NumberText(n) + rest == skipped + (CapitalPart(n) + rest);
    StopsAt(CapitalPart(n) + rest);
  }

  lemma StopsAt(t: string)
    requires Ended(t) && !InNumber(t[0])
    ensures SkipNumber(t) == t
  {}

  lemma NumberSkips(n: Number)
    requires IsNumber(n)
    ensures AllInNumber(n.minus + n.digits + n.fraction + (if CapitalPart(n) == "" then n.exponent else ""))
  {
    NumberChars(n);
    var e := n.exponent;
    if e != "" && e[0] == 'e' {
      var signed := |e| > 1 && (e[1] == '+' || e[1] == '-');
      var d := if signed then e[2..] else e[1..];
      forall i | 0 <= i < |e| ensures InNumber(e[i]) {
        if signed && i >= 2 {
          assert e[i] == d[i - 2];
        } else if !signed && i >= 1 {
          assert e[i] == d[i - 1];
        }
      }
    }
    NoCapital(n.minus);
    NoCapital(n.digits);
    NoCapital(n.fraction);
  }

  lemma NoCapital(s: string)
    ensures AllNumberChars(s) && 'E' !in s ==> AllInNumber(s)
  {}

  // ---------------------------------------------------------------- inside an object or array

  lemma BlankIsPlain(s: string)
    requires IsBlank(s)
    ensures IsPlain(s)
  {}

  lemma WordIsPlain(word: string)
    requires word == "null" || word == "true" || word == "false"
    ensures IsPlain(word)
  {}

  /** Within an open object or array, a whole value changes nothing. */
  lemma {:induction false} NestedValue(v: Value, rest: string, o: nat, a: nat)
    requires IsValue(v) && Ended(rest) && o + a > 0
    ensures Ended(Print(v, rest)) && SkipNested(Print(v, rest), o, a) == SkipNested(rest, o, a)
    decreases v
  {
    hide SkipNested, Ended, LeftOf, IsRaw, IsBlank, IsNumber, NumberText, IsPlain;
    match v
    case Literal(word) =>
      WordIsPlain(word);
      NestedPlain(word, rest, o, a);
    case Numeral(n) =>
      NumberIsPlain(n);
      NestedPlain(NumberText(n), rest, o, a);
    case Text(raw) => NestedString(raw, rest, o, a);
    case Array(open, es) =>
      NestedTurns(']', rest, o, a + 1);
      NestedElements(es, "]" + rest, o, a + 1);
      BlankIsPlain(open);
      NestedPlain(open, PrintElements(es, "]" + rest), o, a + 1);
      NestedTurns('[', open + PrintElements(es, "]" + rest), o, a);
    case Object(open, fs) =>
      NestedTurns('}', rest, o + 1, a);
      NestedFields(fs, "}" + rest, o + 1, a);
      BlankIsPlain(open);
      NestedPlain(open, PrintFields(fs, "}" + rest), o + 1, a);
      NestedTurns('{', open + PrintFields(fs, "}" + rest), o, a);
  }

  lemma {:induction false} NestedElements(es: Elements, rest: string, o: nat, a: nat)
    requires AreElements(es) && Ended(rest) && o + a > 0
    ensures Ended(PrintElements(es, rest)) && SkipNested(PrintElements(es, rest), o, a) == SkipNested(rest, o, a)
    decreases es
  {
    hide SkipNested, Ended, LeftOf, IsBlank, IsPlain, Print, IsValue;
    if es.Element? {
      var next := if es.more.NoElements? then rest else "," + PrintElements(es.more, rest);
      NestedElements(es.more, rest, o, a);
      NestedTurns(',', PrintElements(es.more, rest), o, a);
      BlankIsPlain(es.after);
      NestedPlain(es.after, next, o, a);
      NestedValue(es.value, es.after + next, o, a);
      BlankIsPlain(es.before);
      NestedPlain(es.before, Print(es.value, es.after + next), o, a);
    }
  }

  lemma {:induction false} NestedFields(fs: Fields, rest: string, o: nat, a: nat)
    requires AreFields(fs) && Ended(rest) && o + a > 0
    ensures Ended(PrintFields(fs, rest)) && SkipNested(PrintFields(fs, rest), o, a) == SkipNested(rest, o, a)
    decreases fs
  {
    hide SkipNested, Ended, LeftOf, IsBlank, IsPlain, Print, IsValue, IsRaw, PrintName;
    if fs.Field? {
      var next := if fs.more.NoFields? then rest else "," + PrintFields(fs.more, rest);
      NestedFields(fs.more, rest, o, a);
      NestedTurns(',', PrintFields(fs.more, rest), o, a);
      BlankIsPlain(fs.after);
      NestedPlain(fs.after, next, o, a);
      NestedValue(fs.value, fs.after + next, o, a);
      var text := Print(fs.value, fs.after + next);
      NestedName(fs.name, fs.beforeColon, fs.afterColon, text, o, a);
      BlankIsPlain(fs.before);
      NestedPlain(fs.before, PrintName(fs.name, fs.beforeColon, fs.afterColon, text), o, a);
    }
  }

  lemma NestedName(name: string, beforeColon: string, afterColon: string, rest: string, o: nat, a: nat)
    requires IsRaw(name) && IsBlank(beforeColon) && IsBlank(afterColon) && Ended(rest) && o + a > 0
    ensures Ended(PrintName(name, beforeColon, afterColon, rest))
    ensures SkipNested(PrintName(name, beforeColon, afterColon, rest), o, a) == SkipNested(rest, o, a)
  {
    hide SkipNested, Ended, LeftOf, IsBlank, IsPlain, IsRaw;
    BlankIsPlain(afterColon);
    NestedPlain(afterColon, rest, o, a);
    NestedTurns(':', afterColon + rest, o, a);
    BlankIsPlain(beforeColon);
    NestedPlain(beforeColon, ":" + (afterColon + rest), o, a);
    NestedString(name, beforeColon + (":" + (afterColon + rest)), o, a);
  }

  // ---------------------------------------------------------------- one value

  /** What of a value the scanner leaves unread: the exponent of a number that is written with a capital E. */
  function Unread(v: Value): string {
    if v.Numeral? then CapitalPart(v.number) else ""
  }

  lemma SkipLiteral(word: string, rest: string)
    requires Ended(rest) && (word == "null" || word == "true" || word == "false")
    ensures Ended(word + rest) && ValueFrom(word + rest) == rest && !IsSpace((word + rest)[0])
  {
    hide Ended, LeftOf, SkipNumber, InString, ValueFrom, SkipObjectArray;
    EndedBehind(word, rest);
    ValueTurn(word + rest);
    assert Word(word + rest) == word;
    assert (word + rest)[|word|..] == rest;
  }

  lemma SkipNumeral(n: Number, rest: string)
    requires IsNumber(n) && Ended(rest) && !InNumber(rest[0])
    ensures Ended(NumberText(n) + rest) && ValueFrom(NumberText(n) + rest) == CapitalPart(n) + rest
    ensures !IsSpace((NumberText(n) + rest)[0])
  {
    hide Ended, LeftOf, SkipNumber, InString, ValueFrom, SkipObjectArray, NumberText, IsNumber, CapitalPart, IsPlain;
    NumberIsPlain(n);
    EndedBehind(NumberText(n), rest);
    ValueTurn(NumberText(n) + rest);
    SkipWholeNumber(n, rest);
  }

  lemma SkipText(raw: string, rest: string)
    requires Ended(rest) && IsRaw(raw)
    ensures Ended("\"" + (raw + ("\"" + rest))) && ValueFrom("\"" + (raw + ("\"" + rest))) == rest
  {
    hide Ended, LeftOf, SkipNumber, InString, ValueFrom, SkipObjectArray, IsRaw;
    SkipRaw(raw, rest);
    FirstAndRest('"', raw + ("\"" + rest));
    NotAWord(raw + ("\"" + rest));
    ValueTurn(['"'] + (raw + ("\"" + rest)));
  }

  lemma NotAWord(rest: string)
    ensures Word("\"" + rest) == ""
  {
    var t := "\"" + rest;
    assert t[0] != "null"[0] && t[0] != "true"[0] && t[0] != "false"[0];
  }

  lemma SkipLeaf(v: Value, rest: string)
    requires IsValue(v) && Ended(rest) && (v.Literal? || v.Numeral? || v.Text?)
    requires v.Numeral? ==> !InNumber(rest[0])
    ensures Ended(Print(v, rest)) && ValueFrom(Print(v, rest)) == Unread(v) + rest
    ensures !IsSpace(Print(v, rest)[0])
  {
    hide Ended, LeftOf, IsRaw, IsNumber, InString, ValueFrom, NumberText, CapitalPart;
    PrependEmpty(rest);
    match v
    case Literal(word) => SkipLiteral(word, rest);
    case Numeral(n) => SkipNumeral(n, rest);
    case Text(raw) => SkipText(raw, rest);
  }

  lemma SkipContainer(v: Value, rest: string)
    requires IsValue(v) && Ended(rest) && (v.Array? || v.Object?)
    ensures Ended(Print(v, rest)) && ValueFrom(Print(v, rest)) == rest
    ensures !IsSpace(Print(v, rest)[0])
  {
    hide Ended, LeftOf, SkipNested, ValueFrom, IsBlank, PrintElements, PrintFields;
    match v
    case Array(open, es) =>
      var inside := open + PrintElements(es, "]" + rest);
      NestedTurns(']', rest, 0, 1);
      NestedElements(es, "]" + rest, 0, 1);
      BlankIsPlain(open);
      NestedPlain(open, PrintElements(es, "]" + rest), 0, 1);
      NestedTurns('[', inside, 0, 0);
      FirstAndRest('[', inside);
      ValueTurn(['['] + inside);
    case Object(open, fs) =>
      var inside := open + PrintFields(fs, "}" + rest);
      NestedTurns('}', rest, 1, 0);
      NestedFields(fs, "}" + rest, 1, 0);
      BlankIsPlain(open);
      NestedPlain(open, PrintFields(fs, "}" + rest), 1, 0);
      NestedTurns('{', inside, 0, 0);
      FirstAndRest('{', inside);
      ValueTurn(['{'] + inside);
  }

  /** Behind white space and a value, which must not go on like a number if it is one, the scanner stops at the end of
      the value: exactly there, unless the value is a number with a capital E, and then at that. */
  lemma ValueIsSkipped(blank: string, v: Value, rest: string)
    requires IsBlank(blank) && IsValue(v) && Ended(rest) && (v.Numeral? ==> !InNumber(rest[0]))
    ensures Ended(blank + Print(v, rest)) && SkipValue(blank + Print(v, rest)) == Unread(v) + rest
    ensures SkipValue(blank + Print(v, rest)) == rest <==> Unread(v) == ""
  {
    hide Ended, LeftOf, Print, SkipSpaces, ValueFrom, IsBlank;
    if v.Array? || v.Object? {
      SkipContainer(v, rest);
    } else {
      SkipLeaf(v, rest);
    }
    SkipBlank(blank, Print(v, rest));
    NoSpaces(Print(v, rest));
    PrependEmpty(rest);
  }

  lemma NoSpaces(t: string)
    requires Ended(t) && !IsSpace(t[0])
    ensures SkipSpaces(t) == t
  {}

  // ---------------------------------------------------------------- text that is no value

  /** What is passed up to a closing quote is the inside of a string; without one the scanner stops at the terminator. */
  lemma {:induction false} StringEnds(t: string)
    requires Ended(t)
    ensures
      var r := InString(t);
      r != "" && |r| <= |t| && (r[0] == '\0' || EndsString(t, |t| - |r|))
    decreases |t|
  {
    hide LeftOf, Ended, InString, EndsString;
    StringStep(t);
    if t[0] == '"' {
      QuoteEnds(t);
    } else if t[0] != '\0' {
      var n := Step(t);
      StringEnds(t[n..]);
      StringStep(t[n..]);
      var r := InString(t);
      if r[0] != '\0' { EndsLater(t, n, |t[n..]| - |r|); }
    }
  }

  /** How many characters inside a string are passed together. */
  function Step(t: string): nat
    requires t != ""
  {
    if t[0] == '\\' && |t| > 1 && t[1] != '\0' then 2 else 1
  }

  lemma StringStep(t: string)
    requires Ended(t)
    ensures t[0] == '\0' ==> InString(t) == t
    ensures t[0] == '"' ==> InString(t) == t[1..] && Ended(t[1..])
    ensures t[0] != '\0' && t[0] != '"' ==> Step(t) <= |t| && Ended(t[Step(t)..]) && InString(t) == InString(t[Step(t)..])
  {
    if t[0] != '\0' {
      LeftOfOne(t);
      var u := t[1..];
      if Step(t) == 2 {
        LeftOfOne(u);
        assert u[1..] == t[2..];
      }
    }
    hide LeftOf;
  }

  lemma QuoteEnds(t: string)
    requires t != "" && t[0] == '"'
    ensures EndsString(t, 1)
  {}

  lemma EndsLater(t: string, n: nat, k: int)
    requires t != "" && t[0] != '\0' && t[0] != '"' && n == Step(t) && n <= |t| && EndsString(t[n..], k)
    requires n == 1 ==> t[0] != '\\'
    ensures EndsString(t, n + k)
  {
    assert t[..n + k - 1] == t[..n] + t[n..][..k - 1];
    RawGoesOn(t[..n], t[n..][..k - 1]);
  }

  /** The first `k` characters are the inside of a string and its closing quote. */
  predicate EndsString(t: string, k: int) {
    0 < k <= |t| && t[k - 1] == '"' && IsRaw(t[..k - 1])
  }

  lemma RawGoesOn(start: string, more: string)
    requires IsRaw(more)
    requires |start| == 1 || (|start| == 2 && start[0] == '\\' && start[1] != '\0')
    requires start[0] != '"' && start[0] != '\0' && (|start| == 1 ==> start[0] != '\\')
    ensures IsRaw(start + more)
  {
    assert (start + more)[|start|..] == more;
  }

  /** How many brackets are open behind `s`. */
  function Depth(s: string, open: char, close: char): int {
    if s == "" then 0
    else var c := s[|s| - 1];
         Depth(s[..|s| - 1], open, close) + if c == open then 1 else if c == close then -1 else 0
  }

  /** No start of `s` but the empty one and the whole leaves as many braces, and as many brackets, closed as open. */
  predicate OpenWithin(s: string, o: int, a: int) {
    forall k :: 0 < k < |s| ==> !(o + Depth(s[..k], '{', '}') == 0 && a + Depth(s[..k], '[', ']') == 0)
  }

  /** Of a text with brackets in any order, without strings, the scanner passes as much as it takes to have as many
      braces and as many brackets closed as open, which need not be the right ones; or all, if that never happens. */
  lemma {:induction false} NestedByDepth(s: string, rest: string, o: int, a: int)
    requires s != "" && Ended(rest) && OpenWithin(s, o, a) && '"' !in s && '\0' !in s
    ensures Ended(s + rest)
    ensures
      var o', a' := o + Depth(s, '{', '}'), a + Depth(s, '[', ']');
      SkipNested(s + rest, o, a) == if o' == 0 && a' == 0 then rest else SkipNested(rest, o', a')
  {
    hide Ended, LeftOf, SkipNested;
    var m := |s| - 1;
    var c := s[m];
    var last := [c] + rest;
    assert s + rest == s[..m] + last;
    if m == 0 {
      assert s == [c] && s + rest == last && Depth(s[..m], '{', '}') == 0 && Depth(s[..m], '[', ']') == 0;
      NestedTurns(c, rest, o, a);
    } else {
      forall k | 0 < k < m
        ensures !(o + Depth(s[..m][..k], '{', '}') == 0 && a + Depth(s[..m][..k], '[', ']') == 0)
      {
        assert s[..m][..k] == s[..k];
      }
      var o1, a1 := o + Depth(s[..m], '{', '}'), a + Depth(s[..m], '[', ']');
      NestedTurns(c, rest, o1, a1);
      NestedByDepth(s[..m], last, o, a);
    }
  }

  /** A character that starts no value, whatever follows. */
  predicate StartsNothing(c: char) {
    c != '\0' && c != '-' && !IsDigit(c) && c != '"' && c != '{' && c != '[' && c != 'n' && c != 't' && c != 'f'
  }

  /** What is found in place of a value is passed, up to the next value, or to the terminator. */
  lemma {:induction false} GarbageIsPassed(s: string, rest: string)
    requires Ended(rest) && !IsSpace(rest[0]) && forall i :: 0 <= i < |s| ==> StartsNothing(s[i])
    ensures Ended(s + rest) && SkipValue(s + rest) == ValueFrom(rest) == ValueFrom(s + rest)
  {
    hide ValueFrom, SkipSpaces, SkipNumber, LeftOf;
    if s == "" {
      PrependEmpty(rest);
      NoSpaces(rest);
    } else {
      GarbageIsPassed(s[1..], rest);
      SplitFirst(s, rest);
      var t := s + rest;
      assert t[0] == s[0] && t[1..] == s[1..] + rest;
      ValueGoesOn(t);
      if IsSpace(t[0]) { SkipSpace(s[0], s[1..] + rest); } else { NoSpaces(t); }
    }
  }

  lemma ValueGoesOn(t: string)
    requires Ended(t) && StartsNothing(t[0])
    ensures Ended(t[1..]) && ValueFrom(t) == ValueFrom(t[1..])
  {
    LeftOfOne(t);
    NoWordHere(t);
    ValueTurn(t);
    hide ValueFrom, LeftOf, Ended, Word, SkipNumber, SkipObjectArray, Past;
  }

  lemma NoWordHere(t: string)
    requires t != "" && t[0] != 'n' && t[0] != 't' && t[0] != 'f'
    ensures Word(t) == ""
  {
    assert t[0] != "null"[0] && t[0] != "true"[0] && t[0] != "false"[0];
  }
}
