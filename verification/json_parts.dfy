/** Cutting what has been printed (RFC 8259, sections 4 and 5). The theorems ArrayIsCut and ObjectIsCut are reached
    element by element: the first element of what is left is read to its end, what separates it from the next
    becomes NULs, and the rest is cut in the same way.  A field is a C string inside the buffer, so it is described
    by how far before the end of the buffer it starts. */
module JsonParts {
  import opened Chars
  import opened JsonScan
  import opened JsonSplit
  import opened JsonValues

  // ---------------------------------------------------------------- texts and what follows them

  /** What comes between an element and the end of the text. */
  function Next(es: Elements, rest: string): string {
    if es.NoElements? then rest else "," + PrintElements(es, rest)
  }

  /** The field that starts so far before the end of the text is the C string `s`. */
  predicate IsField(text: string, field: nat, s: string) {
    field <= |text| && s + "\0" <= text[|text| - field..] && '\0' !in s
  }

  lemma Regroup4(a: string, b: string, c: string, d: string, rest: string)
    ensures a + (b + (c + (d + rest))) == (a + (b + (c + d))) + rest
  {
    Regroup3(b, c, d, rest);
    Regroup2(a, b + (c + d), rest);
  }

  lemma {:induction false} PrintsBefore(v: Value, rest: string)
    ensures Print(v, rest) == Print(v, "") + rest
    decreases v
  {
    hide PrintElements, PrintFields, NumberText;
    match v
    case Literal(word) => AppendEmpty(word);
    case Numeral(n) => AppendEmpty(NumberText(n));
    case Text(raw) =>
      AppendEmpty("\"");
      Regroup3("\"", raw, "\"", rest);
    case Array(open, es) =>
      ElementsBefore(es, "]" + rest);
      ElementsBefore(es, "]");
      AppendEmpty("]");
      Regroup4("[", open, PrintElements(es, ""), "]", rest);
    case Object(open, fs) =>
      FieldsBefore(fs, "}" + rest);
      FieldsBefore(fs, "}");
      AppendEmpty("}");
      Regroup4("{", open, PrintFields(fs, ""), "}", rest);
  }

  lemma {:induction false} ElementsBefore(es: Elements, rest: string)
    ensures PrintElements(es, rest) == PrintElements(es, "") + rest
    decreases es
  {
    hide Print;
    PrependEmpty(rest);
    if es.Element? {
      var bare := if es.more.NoElements? then "" else "," + PrintElements(es.more, "");
      if es.more.Element? {
        ElementsBefore(es.more, rest);
        Regroup2(",", PrintElements(es.more, ""), rest);
      }
      PrintsBefore(es.value, es.after + (bare + rest));
      PrintsBefore(es.value, es.after + bare);
      Regroup4(es.before, Print(es.value, ""), es.after, bare, rest);
    }
  }

  lemma {:induction false} FieldsBefore(fs: Fields, rest: string)
    ensures PrintFields(fs, rest) == PrintFields(fs, "") + rest
    decreases fs
  {
    hide Print, PrintName;
    PrependEmpty(rest);
    if fs.Field? {
      var bare := if fs.more.NoFields? then "" else "," + PrintFields(fs.more, "");
      if fs.more.Field? {
        FieldsBefore(fs.more, rest);
        Regroup2(",", PrintFields(fs.more, ""), rest);
      }
      PrintsBefore(fs.value, fs.after + (bare + rest));
      PrintsBefore(fs.value, fs.after + bare);
      Regroup3(Print(fs.value, ""), fs.after, bare, rest);
      var text := Print(fs.value, "") + (fs.after + bare);
      NameBefore(fs.name, fs.beforeColon, fs.afterColon, text, rest);
      Regroup2(fs.before, PrintName(fs.name, fs.beforeColon, fs.afterColon, text), rest);
    }
  }

  lemma NameBefore(name: string, beforeColon: string, afterColon: string, text: string, rest: string)
    ensures PrintName(name, beforeColon, afterColon, text + rest) == PrintName(name, beforeColon, afterColon, text) + rest
  {
    Regroup4(beforeColon, ":", afterColon, text, rest);
    Regroup4("\"", name, "\"", beforeColon + (":" + (afterColon + text)), rest);
  }

  // ---------------------------------------------------------------- separators

  lemma {:induction false} SkipOneBlank(s: string, rest: string, c: char, found: bool)
    requires Ended(rest) && IsBlank(s) && !IsSpace(c) && c != '\0'
    ensures Ended(s + rest) && SkipOne(s + rest, c, found) == SkipOne(rest, c, found)
  {
    hide *;
    if s == "" {
      PrependEmpty(rest);
    } else {
      BlankSplits(s);
      SkipOneBlank(s[1..], rest, c, found);
      SplitFirst(s, rest);
      SkipOneTurn(s[0], s[1..] + rest, c, found);
    }
  }

  lemma SkipOneTurn(b: char, rest: string, c: char, found: bool)
    requires Ended(rest) && !IsSpace(c) && c != '\0'
    ensures Ended([b] + rest)
    ensures IsSpace(b) ==> SkipOne([b] + rest, c, found) == SkipOne(rest, c, found)
    ensures b == c && !found ==> SkipOne([b] + rest, c, found) == SkipOne(rest, c, true)
  {
    hide Ended, LeftOf;
    FirstAndRest(b, rest);
  }

  lemma SkipOneStops(t: string, c: char, found: bool)
    requires Ended(t) && !IsSpace(t[0]) && c != '\0' && (found || t[0] != c)
    ensures SkipOne(t, c, found) == (t, found)
  {}

  /** The first character of a value. */
  predicate IsStart(c: char) {
    c == '"' || c == '[' || c == '{' || c == '-' || IsDigit(c) || c == 'n' || c == 't' || c == 'f'
  }

  lemma ValueStarts(v: Value, rest: string)
    requires IsValue(v)
    ensures Print(v, rest) != "" && IsStart(Print(v, rest)[0])
  {
    hide PrintElements, PrintFields, NumberText, IsNumber, AreElements, AreFields, IsRaw, IsPlain;
    match v
    case Literal(word) =>
    case Numeral(n) =>
      NumberIsPlain(n);
      assert Print(v, rest)[0] == NumberText(n)[0];
    case Text(raw) =>
    case Array(open, es) =>
    case Object(open, fs) =>
  }

  // ---------------------------------------------------------------- arrays

  function Values(es: Elements): seq<Value> {
    if es.NoElements? then [] else [es.value] + Values(es.more)
  }

  predicate NoCapitals(vs: seq<Value>) {
    forall i :: 0 <= i < |vs| ==> Unread(vs[i]) == ""
  }

  /** The texts of some values, each alone. */
  predicate AreFieldsOf(text: string, fields: seq<nat>, parts: seq<string>) {
    |fields| == |parts| && forall i :: 0 <= i < |parts| ==> IsField(text, fields[i], parts[i])
  }

  function Texts(vs: seq<Value>): seq<string> {
    seq(|vs|, i requires 0 <= i < |vs| => Print(vs[i], ""))
  }

  lemma ArrayEndsAt(lead: string, rest: string)
    requires IsBlank(lead) && Ended(rest)
    ensures Ended(lead + ("]" + rest))
    ensures var r := ArrayFrom(lead + ("]" + rest)); r.ok && r.fields == [] && r.left == |rest| && (lead == "" ==> "\0" <= r.text)
  {
    hide Ended, LeftOf, SkipSpaces, IsBlank, ArrayFrom;
    FirstAndRest(']', rest);
    SkipBlank(lead, "]" + rest);
    NoSpaces("]" + rest);
    ArrayEnds(lead + ("]" + rest), "]" + rest);
    if lead == "" {
      PrependEmpty("]" + rest);
    }
  }

  /** The reading of one element, and of what separates it from the next. */
  lemma ElementIsRead(lead: string, v: Value, after: string, next: string, t: string)
    requires IsBlank(lead) && IsValue(v) && IsBlank(after) && Ended(next) && (next[0] == ',' || next[0] == ']')
    requires t == lead + Print(v, after + next)
    ensures Ended(t) && Ended(after + next) && SkipSpaces(t) == Print(v, after + next) && IsStart(SkipSpaces(t)[0])
    ensures SkipValue(SkipSpaces(t)) == Unread(v) + (after + next)
    ensures SkipOne(after + next, ',', false) == SkipOne(next, ',', false)
  {
    hide Ended, LeftOf, SkipSpaces, IsBlank, SkipValue, SkipOne, Print, IsValue;
    var u := Print(v, after + next);
    EndedBehind(after, next);
    AfterValue(after, next);
    ValueIsSkipped("", v, after + next) by { EmptyIsBlank(); }
    PrependEmpty(u);
    ValueStarts(v, after + next);
    SkipBlank(lead, u);
    NoSpaces(u);
    SkipOneBlank(after, next, ',', false);
  }

  lemma EmptyIsBlank()
    ensures IsBlank("")
  {}

  lemma AfterValue(after: string, next: string)
    requires IsBlank(after) && next != "" && !InNumber(next[0])
    ensures !InNumber((after + next)[0])
  {}

  lemma LaterField(part: string, text: string, field: nat, s: string)
    requires IsField(text, field, s)
    ensures IsField(Cat(part, text), field, s)
  {
    assert (part + text)[|part + text| - field..] == text[|text| - field..];
  }

  lemma LaterFields(part: string, text: string, fields: seq<nat>, parts: seq<string>)
    requires AreFieldsOf(text, fields, parts)
    ensures AreFieldsOf(Cat(part, text), fields, parts)
  {
    hide IsField, Cat;
    forall i | 0 <= i < |parts| ensures IsField(Cat(part, text), fields[i], parts[i]) {
      LaterField(part, text, fields[i], parts[i]);
    }
  }

  /** The first field: what was read, up to the first NUL written behind it. */
  lemma FirstField(t: string, u: string, s: string, w: string, x: string, text: string)
    requires u == s + w && LeftOf(w, u) && |x| <= |w| && |u| <= |t| && |text| == |x|
    requires |x| < |w| || "\0" <= text
    ensures IsField(Cat(Replaced(t, u, w, x), text), |u|, s)
  {
    var whole := Cat(Replaced(t, u, w, x), text);
    assert Before(u, w) == s;
    assert whole == Before(t, u) + (s + (Nuls(|w| - |x|) + text));
    assert whole[|whole| - |u|..] == s + (Nuls(|w| - |x|) + text);
    assert "\0" <= Nuls(|w| - |x|) + text;
  }

  lemma OneMoreField(text: string, field: nat, s: string, fields: seq<nat>, parts: seq<string>)
    requires IsField(text, field, s) && AreFieldsOf(text, fields, parts)
    ensures AreFieldsOf(text, [field] + fields, [s] + parts)
  {}

  lemma StartIsNoEnd(c: char)
    requires IsStart(c)
    ensures c !in "]},: " && !IsSpace(c)
  {}

  lemma AddedIs(field: nat, part: string, next: Outcome)
    ensures var r := Added(field, part, next);
            r.ok == next.ok && r.left == next.left && r.fields == [field] + next.fields && r.text == Cat(part, next.text)
  {}

  lemma Skipped(t: string, u: string, w: string, x: string, found: bool)
    requires Ended(t) && u == SkipSpaces(t) && w == SkipValue(u) && (x, found) == SkipOne(w, ',', false)
    ensures |x| <= |w| <= |u| <= |t| && LeftOf(w, u) && (found ==> |x| < |w|) && Ended(x)
  {
    hide LeftOf, Ended, SkipSpaces, SkipValue, SkipOne;
  }

  /** Cutting the text from inside an array on succeeds or not, and if it does leaves so much text and these parts. */
  predicate ArrayGives(t: string, ok: bool, left: nat, parts: seq<string>)
    requires Ended(t)
  {
    var r := ArrayFrom(t);
    r.ok == ok && (ok ==> r.left == left && AreFieldsOf(r.text, r.fields, parts))
  }

  lemma ArrayGivesThat(t: string, r: Outcome, ok: bool, left: nat, parts: seq<string>)
    requires Ended(t) && r == ArrayFrom(t)
    ensures ArrayGives(t, ok, left, parts) <==>
              r.ok == ok && (ok ==> r.left == left && AreFieldsOf(r.text, r.fields, parts))
  {
    hide *;
    ArrayGivesIs(t, ok, left, parts);
  }

  lemma ArrayGivesIs(t: string, ok: bool, left: nat, parts: seq<string>)
    requires Ended(t)
    ensures ArrayGives(t, ok, left, parts) <==>
            (ArrayFrom(t).ok == ok &&
             (ok ==> ArrayFrom(t).left == left && AreFieldsOf(ArrayFrom(t).text, ArrayFrom(t).fields, parts)))
  {
    hide Ended, LeftOf, ArrayFrom, AreFieldsOf;
  }

  /** What comes of the text of an array if the first element is read to its end. */
  lemma FirstElement(lead: string, v: Value, after: string, next: string, t: string, x: string, found: bool,
                     ok: bool, left: nat, parts: seq<string>)
    requires IsBlank(lead) && IsValue(v) && IsBlank(after) && Ended(next) && (next[0] == ',' || next[0] == ']')
    requires t == lead + Print(v, after + next) && Ended(t) && Unread(v) == ""
    requires (x, found) == SkipOne(next, ',', false) && (found || x[0] == ']') && Ended(x)
    requires found || (x == next && "\0" <= ArrayFrom(x).text)
    requires ArrayGives(x, ok, left, parts)
    ensures ArrayGives(t, ok, left, [Print(v, "")] + parts)
  {
    hide *;
    var u, w, r := Print(v, after + next), after + next, ArrayFrom(x);
    ElementIsRead(lead, v, after, next, t);
    PrependEmpty(w);
    StartIsNoEnd(u[0]);
    Skipped(t, u, w, x, found);
    ArrayGoesOn(t, u, w, x, found);
    AddedIs(|u|, Replaced(t, u, w, x), r);
    ArrayGivesThat(x, r, ok, left, parts);
    if ok {
      PrintsBefore(v, w);
      FirstField(t, u, Print(v, ""), w, x, r.text);
      LaterFields(Replaced(t, u, w, x), r.text, r.fields, parts);
      OneMoreField(Cat(Replaced(t, u, w, x), r.text), |u|, Print(v, ""), r.fields, parts);
    }
    ArrayGivesThat(t, Added(|u|, Replaced(t, u, w, x), r), ok, left, [Print(v, "")] + parts);
  }

  lemma NoMoreTexts()
    ensures Texts([]) == [] && NoCapitals([])
  {}

  lemma MoreTexts(v: Value, vs: seq<Value>)
    ensures Texts([v] + vs) == [Print(v, "")] + Texts(vs)
    ensures NoCapitals([v] + vs) <==> Unread(v) == "" && NoCapitals(vs)
  {
    assert ([v] + vs)[0] == v && ([v] + vs)[1..] == vs;
    forall i | 0 <= i < |vs| ensures ([v] + vs)[i + 1] == vs[i] {}
  }

  /** An element with a capital E in it ends the reading with an error. */
  lemma CapitalFails(lead: string, v: Value, after: string, next: string, t: string)
    requires IsBlank(lead) && IsValue(v) && IsBlank(after) && Ended(next) && (next[0] == ',' || next[0] == ']')
    requires t == lead + Print(v, after + next) && Ended(t) && Unread(v) != ""
    ensures !ArrayFrom(t).ok
  {
    hide *;
    var u, w := Print(v, after + next), Unread(v) + (after + next);
    ElementIsRead(lead, v, after, next, t);
    StartIsNoEnd(u[0]);
    UnreadIsCapital(v);
    EndedBehind(Unread(v), after + next);
    SplitFirst(Unread(v), after + next);
    SkipOneStops(w, ',', false);
    Skipped(t, u, w, w, false);
    ArrayGoesOn(t, u, w, w, false);
    AddedIs(|u|, Replaced(t, u, w, w), Outcome(false, [], w, |w|));
  }

  lemma UnreadIsCapital(v: Value)
    requires Unread(v) != ""
    ensures Unread(v)[0] == 'E' && !IsSpace('E')
  {}

  /** The elements of an array, from the first on, behind any white space. */
  lemma {:induction false} ElementsAreCut(es: Elements, lead: string, rest: string, t: string)
    requires es.Element? && AreElements(es) && IsBlank(lead) && Ended(rest)
    requires t == lead + Print(es.value, es.after + Next(es.more, "]" + rest))
    ensures Ended(t) && ArrayGives(t, NoCapitals(Values(es)), |rest|, Texts(Values(es)))
    decreases es
  {
    hide *;
    var v, more := es.value, es.more;
    var next := Next(more, "]" + rest);
    ElementParts(es);
    NextStarts(more, rest);
    ElementIsRead(lead, v, es.after, next, t);
    MoreTexts(v, Values(more));
    if Unread(v) != "" {
      CapitalFails(lead, v, es.after, next, t);
      ArrayGivesThat(t, ArrayFrom(t), false, |rest|, Texts(Values(es)));
    } else if more.NoElements? {
      ArrayEndsAt("", rest) by { EmptyIsBlank(); }
      PrependEmpty("]" + rest);
      SkipOneStops(next, ',', false);
      NoMoreTexts();
      NoFields(ArrayFrom(next).text);
      ArrayGivesThat(next, ArrayFrom(next), true, |rest|, []);
      FirstElement(lead, v, es.after, next, t, next, false, true, |rest|, []);
    } else {
      var x := Print(more.value, more.after + Next(more.more, "]" + rest));
      PrependEmpty(x);
      EmptyIsBlank();
      ElementsAreCut(more, "", rest, x);
      CommaIsRead(more, rest, x);
      FirstElement(lead, v, es.after, next, t, x, true, NoCapitals(Values(more)), |rest|, Texts(Values(more)));
    }
  }

  lemma NoFields(text: string)
    ensures AreFieldsOf(text, [], [])
  {}

  lemma ElementParts(es: Elements)
    requires es.Element? && AreElements(es)
    ensures IsBlank(es.before) && IsValue(es.value) && IsBlank(es.after) && AreElements(es.more)
    ensures Values(es) == [es.value] + Values(es.more) && (es.more.NoElements? ==> Values(es.more) == [])
  {}

  lemma NextStarts(es: Elements, rest: string)
    requires AreElements(es) && Ended(rest)
    ensures Ended(Next(es, "]" + rest))
    ensures Next(es, "]" + rest)[0] == (if es.NoElements? then ']' else ',') && !IsSpace(']')
    ensures es.NoElements? ==> Next(es, "]" + rest) == "]" + rest
  {
    EndedBehind("]", rest);
    hide PrintElements;
    if es.Element? {
      PrintedEnds(es, "]" + rest);
      EndedBehind(",", PrintElements(es, "]" + rest));
    }
  }

  lemma PrintedEnds(es: Elements, rest: string)
    requires Ended(rest)
    ensures Ended(PrintElements(es, rest))
  {
    hide PrintElements;
    ElementsBefore(es, rest);
    EndedBehind(PrintElements(es, ""), rest);
  }

  lemma CommaIsRead(es: Elements, rest: string, x: string)
    requires es.Element? && AreElements(es) && Ended(rest)
    requires x == Print(es.value, es.after + Next(es.more, "]" + rest)) && Ended(x)
    ensures Ended(Next(es, "]" + rest)) && SkipOne(Next(es, "]" + rest), ',', false) == (x, true)
  {
    NextStarts(es, rest);
    var tail := PrintElements(es, "]" + rest);
    assert tail == es.before + x;
    hide *;
    ElementParts(es);
    ValueStarts(es.value, es.after + Next(es.more, "]" + rest));
    StartIsNoEnd(x[0]);
    EndedBehind(es.before, x);
    CommaFirst(es, rest);
    SkipOneTurn(',', tail, ',', false);
    SkipOneBlank(es.before, x, ',', true);
    SkipOneStops(x, ',', true);
  }

  lemma CommaFirst(es: Elements, rest: string)
    requires es.Element?
    ensures Next(es, "]" + rest) == [','] + PrintElements(es, "]" + rest)
    ensures !IsSpace(',')
  {}

  /** Cutting up a printed array succeeds exactly if none of its elements is a number with a capital E.  Then the
      fields are the elements in their order, as C strings, and what follows the array is left. */
  lemma ArrayIsCut(open: string, es: Elements, rest: string)
    requires IsBlank(open) && AreElements(es) && Ended(rest)
    ensures Ended(Print(Array(open, es), rest))
    ensures var r := GetArray(Print(Array(open, es), rest));
            && (r.ok <==> NoCapitals(Values(es)))
            && (r.ok ==> r.left == |rest| && AreFieldsOf(r.text, r.fields, Texts(Values(es))))
  {
    hide *;
    var inside := open + PrintElements(es, "]" + rest);
    EndedBehind("]", rest);
    PrintedEnds(es, "]" + rest);
    EndedBehind(open, PrintElements(es, "]" + rest));
    ArrayText(open, es, rest);
    ArrayFromInside(inside);
    var all := ArrayFrom(inside);
    if es.NoElements? {
      ArrayEndsAt(open, rest);
      NoMoreTexts();
      NoFields(all.text);
    } else {
      var value := Print(es.value, es.after + Next(es.more, "]" + rest));
      ElementParts(es);
      BlankBoth(open, es.before);
      Regroup2(open, es.before, value);
      ElementsAreCut(es, open + es.before, rest, inside);
      ArrayGivesThat(inside, all, NoCapitals(Values(es)), |rest|, Texts(Values(es)));
    }
    if all.ok {
      LaterFields("[", all.text, all.fields, Texts(Values(es)));
    }
  }

  lemma ArrayText(open: string, es: Elements, rest: string)
    ensures Print(Array(open, es), rest) == ['['] + (open + PrintElements(es, "]" + rest))
    ensures es.NoElements? ==> PrintElements(es, "]" + rest) == "]" + rest && Values(es) == []
    ensures es.Element? ==> PrintElements(es, "]" + rest) == es.before + Print(es.value, es.after + Next(es.more, "]" + rest))
  {}

  lemma BlankBoth(a: string, b: string)
    requires IsBlank(a) && IsBlank(b)
    ensures IsBlank(a + b)
  {}

  lemma ArrayFromInside(inside: string)
    requires Ended(inside)
    ensures Ended(['['] + inside)
    ensures var r, all := GetArray(['['] + inside), ArrayFrom(inside);
            r.ok == all.ok && r.left == all.left && r.fields == all.fields && r.text == Cat("[", all.text)
  {
    hide Ended, LeftOf, ArrayFrom;
    FirstAndRest('[', inside);
  }

  // ---------------------------------------------------------------- objects

  function Following(fs: Fields, rest: string): string {
    if fs.NoFields? then rest else "," + PrintFields(fs, rest)
  }

  /** A field from its name to the end of its value. */
  function FieldText(f: Fields): string
    requires f.Field?
  {
    PrintName(f.name, f.beforeColon, f.afterColon, Print(f.value, ""))
  }

  function FieldTexts(fs: Fields): seq<string> {
    if fs.NoFields? then [] else [FieldText(fs)] + FieldTexts(fs.more)
  }

  predicate NoCapitalFields(fs: Fields) {
    fs.NoFields? || (Unread(fs.value) == "" && NoCapitalFields(fs.more))
  }

  lemma FieldParts(fs: Fields)
    requires fs.Field? && AreFields(fs)
    ensures IsBlank(fs.before) && IsRaw(fs.name) && IsBlank(fs.beforeColon) && IsBlank(fs.afterColon)
    ensures IsValue(fs.value) && IsBlank(fs.after) && AreFields(fs.more)
    ensures FieldTexts(fs) == [FieldText(fs)] + FieldTexts(fs.more) && (fs.more.NoFields? ==> FieldTexts(fs.more) == [])
    ensures NoCapitalFields(fs) <==> Unread(fs.value) == "" && NoCapitalFields(fs.more)
  {}

  /** The name and the colon are passed. */
  lemma NameIsRead(name: string, beforeColon: string, afterColon: string, value: string)
    requires IsRaw(name) && IsBlank(beforeColon) && IsBlank(afterColon)
    requires Ended(value) && IsStart(value[0])
    ensures var u := PrintName(name, beforeColon, afterColon, value);
            Ended(u) && u[0] == '"' && Ended(Past(u)) && SkipOne(Past(u), ':', false) == (value, true)
  {
    var colon := afterColon + value;
    var tail := beforeColon + (":" + colon);
    var u := "\"" + (name + ("\"" + tail));
    assert u == PrintName(name, beforeColon, afterColon, value);
    assert !IsSpace(':');
    hide *;
    EndedBehind(afterColon, value);
    SkipOneTurn(':', colon, ':', false);
    EndedBehind(beforeColon, ":" + colon);
    SkipRaw(name, tail);
    FirstAndRest('"', name + ("\"" + tail));
    PastString(['"'] + (name + ("\"" + tail)));
    SkipOneBlank(beforeColon, ":" + colon, ':', false);
    SkipOneBlank(afterColon, value, ':', true);
    StartIsNoEnd(value[0]);
    SkipOneStops(value, ':', true);
  }

  /** The reading of one field, and of what separates it from the next. */
  lemma FieldIsRead(lead: string, f: Fields, next: string, u: string, k: string, w: string, t: string)
    requires IsBlank(lead) && f.Field? && AreFields(f) && Ended(next) && (next[0] == ',' || next[0] == '}')
    requires k == Print(f.value, f.after + next) && u == PrintName(f.name, f.beforeColon, f.afterColon, k) && t == lead + u
    requires w == Unread(f.value) + (f.after + next)
    ensures Ended(t) && u == SkipSpaces(t) && u[0] == '"' && Ended(u) && Ended(Past(u)) && SkipOne(Past(u), ':', false) == (k, true)
    ensures Ended(k) && w == SkipValue(k) && Ended(w)
    ensures Ended(f.after + next) && SkipOne(f.after + next, ',', false) == SkipOne(next, ',', false)
  {
    hide *;
    FieldParts(f);
    EndedBehind(f.after, next);
    NotNumber(next[0]);
    AfterValue(f.after, next);
    EmptyIsBlank();
    ValueIsSkipped("", f.value, f.after + next);
    PrependEmpty(k);
    ValueStarts(f.value, f.after + next);
    NameIsRead(f.name, f.beforeColon, f.afterColon, k);
    SkipBlank(lead, u);
    NoSpaces(u) by { QuoteIsNoSpace(); }
    SkipOneBlank(f.after, next, ',', false) by { QuoteIsNoSpace(); }
    EndedBehind(Unread(f.value), f.after + next);
  }

  lemma NotNumber(c: char)
    requires c == ',' || c == '}'
    ensures !InNumber(c)
  {}

  lemma QuoteIsNoSpace()
    ensures !IsSpace('"') && !IsSpace(',') && !IsSpace('}') && !IsSpace(']')
  {}

  lemma ObjectEndsAt(lead: string, rest: string)
    requires IsBlank(lead) && Ended(rest)
    ensures Ended(lead + ("}" + rest))
    ensures var r := ObjectFrom(lead + ("}" + rest)); r.ok && r.fields == [] && r.left == |rest| && (lead == "" ==> "\0" <= r.text)
  {
    hide Ended, LeftOf, SkipSpaces, IsBlank, ObjectFrom;
    FirstAndRest('}', rest);
    SkipBlank(lead, "}" + rest);
    NoSpaces("}" + rest);
    ObjectEnds(lead + ("}" + rest), "}" + rest);
    if lead == "" {
      PrependEmpty("}" + rest);
    }
  }

  /** The same for objects. */
  predicate ObjectGives(t: string, ok: bool, left: nat, parts: seq<string>)
    requires Ended(t)
  {
    var r := ObjectFrom(t);
    r.ok == ok && (ok ==> r.left == left && AreFieldsOf(r.text, r.fields, parts))
  }

  lemma ObjectGivesThat(t: string, r: Outcome, ok: bool, left: nat, parts: seq<string>)
    requires Ended(t) && r == ObjectFrom(t)
    ensures ObjectGives(t, ok, left, parts) <==>
              r.ok == ok && (ok ==> r.left == left && AreFieldsOf(r.text, r.fields, parts))
  {
    hide *;
    ObjectGivesIs(t, ok, left, parts);
  }

  lemma ObjectGivesIs(t: string, ok: bool, left: nat, parts: seq<string>)
    requires Ended(t)
    ensures ObjectGives(t, ok, left, parts) <==>
            (ObjectFrom(t).ok == ok &&
             (ok ==> ObjectFrom(t).left == left && AreFieldsOf(ObjectFrom(t).text, ObjectFrom(t).fields, parts)))
  {
    hide Ended, LeftOf, ObjectFrom, AreFieldsOf;
  }

  /** What comes of the text of an object if the first field is read to its end. */
  lemma FirstFieldOf(lead: string, f: Fields, next: string, t: string, x: string, found: bool,
                     ok: bool, left: nat, parts: seq<string>)
    requires IsBlank(lead) && f.Field? && AreFields(f) && Ended(next) && (next[0] == ',' || next[0] == '}')
    requires t == lead + PrintName(f.name, f.beforeColon, f.afterColon, Print(f.value, f.after + next)) && Ended(t)
    requires Unread(f.value) == ""
    requires (x, found) == SkipOne(next, ',', false) && (found || x[0] == '}') && Ended(x)
    requires found || (x == next && "\0" <= ObjectFrom(x).text)
    requires ObjectGives(x, ok, left, parts)
    ensures ObjectGives(t, ok, left, [FieldText(f)] + parts)
  {
    hide *;
    var w := f.after + next;
    var k := Print(f.value, w);
    var u, r := PrintName(f.name, f.beforeColon, f.afterColon, k), ObjectFrom(x);
    PrependEmpty(w);
    FieldIsRead(lead, f, next, u, k, w, t);
    MemberIs(t, u, k, w, x, found);
    ObjectGoesOn(t, u, k, w, x, found);
    AddedIs(|u|, Replaced(t, u, w, x), r);
    ObjectGivesThat(x, r, ok, left, parts);
    if ok {
      PrintsBefore(f.value, w);
      NameBefore(f.name, f.beforeColon, f.afterColon, Print(f.value, ""), w);
      FieldTextIs(f);
      FieldLeft(u, k, w, x, found);
      FirstField(t, u, FieldText(f), w, x, r.text);
      LaterFields(Replaced(t, u, w, x), r.text, r.fields, parts);
      OneMoreField(Cat(Replaced(t, u, w, x), r.text), |u|, FieldText(f), r.fields, parts);
    }
    ObjectGivesThat(t, Added(|u|, Replaced(t, u, w, x), r), ok, left, [FieldText(f)] + parts);
  }

  lemma FieldTextIs(f: Fields)
    requires f.Field?
    ensures FieldText(f) == PrintName(f.name, f.beforeColon, f.afterColon, Print(f.value, ""))
  {}

  lemma FieldLeft(u: string, k: string, w: string, x: string, found: bool)
    requires Ended(u) && u[0] == '"' && Ended(Past(u)) && SkipOne(Past(u), ':', false) == (k, true)
    requires Ended(k) && w == SkipValue(k) && Ended(w) && SkipOne(w, ',', false) == (x, found)
    ensures LeftOf(w, u) && |x| <= |w| && (found ==> |x| < |w|)
  {
    NameEnds(u);
    LeftOfChain(w, k, u);
    hide LeftOf, Ended, SkipValue, SkipOne;
  }

  lemma CapitalFieldFails(lead: string, f: Fields, next: string, t: string)
    requires IsBlank(lead) && f.Field? && AreFields(f) && Ended(next) && (next[0] == ',' || next[0] == '}')
    requires t == lead + PrintName(f.name, f.beforeColon, f.afterColon, Print(f.value, f.after + next)) && Ended(t)
    requires Unread(f.value) != ""
    ensures !ObjectFrom(t).ok
  {
    hide *;
    var w := Unread(f.value) + (f.after + next);
    var k := Print(f.value, f.after + next);
    var u := PrintName(f.name, f.beforeColon, f.afterColon, k);
    FieldIsRead(lead, f, next, u, k, w, t);
    UnreadIsCapital(f.value);
    SplitFirst(Unread(f.value), f.after + next);
    SkipOneStops(w, ',', false);
    MemberIs(t, u, k, w, w, false);
    ObjectGoesOn(t, u, k, w, w, false);
    AddedIs(|u|, Replaced(t, u, w, w), Outcome(false, [], w, |w|));
  }

  lemma FollowingStarts(fs: Fields, rest: string)
    requires AreFields(fs) && Ended(rest)
    ensures Ended(Following(fs, "}" + rest))
    ensures Following(fs, "}" + rest)[0] == if fs.NoFields? then '}' else ','
    ensures fs.NoFields? ==> Following(fs, "}" + rest) == "}" + rest
  {
    EndedBehind("}", rest);
    hide PrintFields;
    if fs.Field? {
      PrintedFieldsEnd(fs, "}" + rest);
      EndedBehind(",", PrintFields(fs, "}" + rest));
    }
  }

  lemma PrintedFieldsEnd(fs: Fields, rest: string)
    requires Ended(rest)
    ensures Ended(PrintFields(fs, rest))
  {
    hide PrintFields;
    FieldsBefore(fs, rest);
    EndedBehind(PrintFields(fs, ""), rest);
  }

  /** The text of the first field and of all that follows it. */
  function FromName(f: Fields, rest: string): string
    requires f.Field?
  {
    PrintName(f.name, f.beforeColon, f.afterColon, Print(f.value, f.after + Following(f.more, "}" + rest)))
  }

  lemma FromNameIs(f: Fields, rest: string)
    requires f.Field?
    ensures FromName(f, rest) ==
            PrintName(f.name, f.beforeColon, f.afterColon, Print(f.value, f.after + Following(f.more, "}" + rest)))
    ensures f.more.NoFields? ==> NoCapitalFields(f.more)
  {}

  lemma CommaBeforeField(fs: Fields, rest: string, x: string)
    requires fs.Field? && AreFields(fs) && Ended(rest) && x == FromName(fs, rest) && Ended(x)
    ensures Ended(Following(fs, "}" + rest)) && SkipOne(Following(fs, "}" + rest), ',', false) == (x, true)
  {
    FollowingStarts(fs, rest);
    var tail := PrintFields(fs, "}" + rest);
    assert tail == fs.before + x;
    assert x[0] == '"';
    assert Following(fs, "}" + rest) == [','] + tail;
    hide *;
    QuoteIsNoSpace();
    FieldParts(fs);
    EndedBehind(fs.before, x);
    SkipOneTurn(',', tail, ',', false);
    SkipOneBlank(fs.before, x, ',', true);
    SkipOneStops(x, ',', true);
  }

  /** The fields of an object, from the first on, behind any white space. */
  lemma {:induction false} FieldsAreCut(fs: Fields, lead: string, rest: string, t: string)
    requires fs.Field? && AreFields(fs) && IsBlank(lead) && Ended(rest) && t == lead + FromName(fs, rest)
    ensures Ended(t) && ObjectGives(t, NoCapitalFields(fs), |rest|, FieldTexts(fs))
    decreases fs
  {
    hide *;
    var more := fs.more;
    var next := Following(more, "}" + rest);
    var k := Print(fs.value, fs.after + next);
    var u, w := PrintName(fs.name, fs.beforeColon, fs.afterColon, k), Unread(fs.value) + (fs.after + next);
    FromNameIs(fs, rest);
    FieldParts(fs);
    FollowingStarts(more, rest);
    FieldIsRead(lead, fs, next, u, k, w, t);
    if Unread(fs.value) != "" {
      CapitalFieldFails(lead, fs, next, t);
      ObjectGivesThat(t, ObjectFrom(t), false, |rest|, FieldTexts(fs));
    } else if more.NoFields? {
      EmptyIsBlank();
      ObjectEndsAt("", rest);
      PrependEmpty("}" + rest);
      QuoteIsNoSpace();
      SkipOneStops(next, ',', false);
      NoFields(ObjectFrom(next).text);
      ObjectGivesThat(next, ObjectFrom(next), true, |rest|, []);
      FirstFieldOf(lead, fs, next, t, next, false, true, |rest|, []);
    } else {
      var x := FromName(more, rest);
      PrependEmpty(x);
      EmptyIsBlank();
      FieldsAreCut(more, "", rest, x);
      CommaBeforeField(more, rest, x);
      FirstFieldOf(lead, fs, next, t, x, true, NoCapitalFields(more), |rest|, FieldTexts(more));
    }
  }

  /** Cutting up a printed object succeeds exactly if none of its values is a number with a capital E.  Then the
      fields are the name, the colon and the value of each in their order, as C strings. */
  lemma ObjectIsCut(open: string, fs: Fields, rest: string)
    requires IsBlank(open) && AreFields(fs) && Ended(rest)
    ensures Ended(Print(Object(open, fs), rest))
    ensures var r := GetObject(Print(Object(open, fs), rest));
            && (r.ok <==> NoCapitalFields(fs))
            && (r.ok ==> r.left == |rest| && AreFieldsOf(r.text, r.fields, FieldTexts(fs)))
  {
    hide *;
    var inside := open + PrintFields(fs, "}" + rest);
    EndedBehind("}", rest);
    PrintedFieldsEnd(fs, "}" + rest);
    EndedBehind(open, PrintFields(fs, "}" + rest));
    ObjectText(open, fs, rest);
    ObjectFromInside(inside);
    var all := ObjectFrom(inside);
    if fs.NoFields? {
      ObjectEndsAt(open, rest);
      NoFields(all.text);
    } else {
      FieldParts(fs);
      BlankBoth(open, fs.before);
      Regroup2(open, fs.before, FromName(fs, rest));
      FieldsAreCut(fs, open + fs.before, rest, inside);
      ObjectGivesThat(inside, all, NoCapitalFields(fs), |rest|, FieldTexts(fs));
    }
    if all.ok {
      LaterFields("{", all.text, all.fields, FieldTexts(fs));
    }
  }

  lemma ObjectText(open: string, fs: Fields, rest: string)
    ensures Print(Object(open, fs), rest) == ['{'] + (open + PrintFields(fs, "}" + rest))
    ensures fs.NoFields? ==> PrintFields(fs, "}" + rest) == "}" + rest && FieldTexts(fs) == [] && NoCapitalFields(fs)
    ensures fs.Field? ==> PrintFields(fs, "}" + rest) == fs.before + FromName(fs, rest)
  {}

  lemma ObjectFromInside(inside: string)
    requires Ended(inside)
    ensures Ended(['{'] + inside)
    ensures var r, all := GetObject(['{'] + inside), ObjectFrom(inside);
            r.ok == all.ok && r.left == all.left && r.fields == all.fields && r.text == Cat("{", all.text)
  {
    hide Ended, LeftOf, ObjectFrom;
    FirstAndRest('{', inside);
  }
}
