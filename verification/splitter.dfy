/** Cutting a line into delimited arguments in place (librtcommon/arg.cpp). */
module Splitter {
  import opened Chars

  predicate IsBlank(s: string) {
    forall i :: 0 <= i < |s| ==> IsSpace(s[i])
  }

  // ---------------------------------------------------------------- what the line says

  /** A line without the white space at its end, except delimiters and the first character. */
  function Trimmed(s: string, delimiter: char): string
    decreases |s|
  {
    if |s| > 1 && IsSpace(s[|s| - 1]) && s[|s| - 1] != delimiter then Trimmed(s[..|s| - 1], delimiter) else s
  }

  /** The text up to the first delimiter. */
  function First(s: string, delimiter: char): (f: string)
    ensures |f| <= |s| && f == s[..|f|] && delimiter !in f && (|f| < |s| ==> s[|f|] == delimiter)
  {
    if s == "" || s[0] == delimiter then "" else [s[0]] + First(s[1..], delimiter)
  }

  /** The first `max` arguments. */
  function Arguments(s: string, delimiter: char, max: nat): seq<string>
    decreases max
  {
    if max == 0 || s == "" then [] else
    var f := First(s, delimiter);
    [f] + (if |f| < |s| then Arguments(s[|f| + 1..], delimiter, max - 1) else [])
  }

  /** The last of these arguments has a delimiter behind it. */
  predicate Closed(s: string, delimiter: char, max: nat)
    decreases max
  {
    if max == 0 || s == "" then true else
    var f := First(s, delimiter);
    |f| < |s| && Closed(s[|f| + 1..], delimiter, max - 1)
  }

  /** How many of the arguments count: a blank rest behind the last delimiter does not. */
  function Count(s: string, delimiter: char, max: nat): nat {
    var args := Arguments(s, delimiter, max);
    if args != [] && !Closed(s, delimiter, max) && IsBlank(args[|args| - 1]) then |args| - 1 else |args|
  }

  /** Where these arguments start, the line starting at `from`. */
  function Places(s: string, delimiter: char, max: nat, from: nat): seq<nat>
    decreases max
  {
    if max == 0 || s == "" then [] else
    var f := First(s, delimiter);
    [from] + (if |f| < |s| then Places(s[|f| + 1..], delimiter, max - 1, from + |f| + 1) else [])
  }

  /** The line with its first `max` delimiters made NUL. */
  function Cleared(s: string, delimiter: char, max: nat): (r: string)
    ensures |r| == |s|
  {
    if s == "" then ""
    else if s[0] == delimiter && max > 0 then "\0" + Cleared(s[1..], delimiter, max - 1)
    else [s[0]] + Cleared(s[1..], delimiter, max)
  }

  function Delimiters(s: string, delimiter: char): nat {
    if s == "" then 0 else (if s[0] == delimiter then 1 else 0) + Delimiters(s[1..], delimiter)
  }

  lemma FirstStops(t: string, c: char)
    requires c in t
    ensures |First(t, c)| < |t|
  {
    assert t[..|t|] == t;
  }

  /** The C string at the start of a buffer. */
  function CText(t: string): (s: string)
    requires '\0' in t
    ensures |s| < |t| && s == t[..|s|] && t[|s|] == '\0' && '\0' !in s
  {
    FirstStops(t, '\0');
    First(t, '\0')
  }

  /** What a buffer becomes: of the line in it the first delimiters are made NUL, and the white space
      trimmed from its end; nothing else is touched. */
  function Cut(t: string, delimiter: char, max: nat): (r: string)
    requires '\0' in t
    ensures |r| == |t|
  {
    var line := CText(t);
    var s := Trimmed(line, delimiter);
    TrimmedCuts(line, delimiter);
    Cleared(s, delimiter, max) + Nuls(|line| - |s|) + t[|line|..]
  }

  /** Only white space is trimmed. */
  lemma {:induction false} TrimmedCuts(s: string, delimiter: char)
    ensures Trimmed(s, delimiter) <= s
    ensures forall i :: |Trimmed(s, delimiter)| <= i < |s| ==> IsSpace(s[i]) && s[i] != delimiter
    decreases |s|
  {
    if |s| > 1 && IsSpace(s[|s| - 1]) && s[|s| - 1] != delimiter {
      TrimmedCuts(s[..|s| - 1], delimiter);
    }
  }

  lemma {:induction false} ClearedAt(s: string, delimiter: char, max: nat, i: nat)
    requires i < |s|
    ensures Cleared(s, delimiter, max)[i]
            == if s[i] == delimiter && Delimiters(s[..i], delimiter) < max then '\0' else s[i]
  {
    if i > 0 {
      assert s[1..][..i - 1] == s[..i][1..];
      ClearedAt(s[1..], delimiter, if s[0] == delimiter && max > 0 then max - 1 else max, i - 1);
    }
  }

  /** A byte that changes was one of the first `max` delimiters, or white space at the end of the line,
      and is NUL now; from the old end of the line on there is no change. */
  lemma CutChanges(t: string, delimiter: char, max: nat, i: nat)
    requires '\0' in t && i < |t|
    ensures
      var line := CText(t);
      var s := Trimmed(line, delimiter);
      Cut(t, delimiter, max)[i] ==
        if |line| <= i then t[i]
        else if |s| <= i || (t[i] == delimiter && Delimiters(t[..i], delimiter) < max) then '\0'
        else t[i]
    ensures Cut(t, delimiter, max)[i] != t[i] ==> t[i] == delimiter || IsSpace(t[i])
  {
    var line := CText(t);
    TrimmedCuts(line, delimiter);
    var s := Trimmed(line, delimiter);
    if i < |s| {
      ClearedAt(s, delimiter, max, i);
      assert s[..i] == t[..i] && s[i] == t[i];
    } else if i < |line| {
      assert line[i] == t[i];
    }
  }

  /** The argument `a` lies at `p` of the line, right behind the start (the first one) or a delimiter, and
      reaches up to the next delimiter or to the end. */
  predicate LiesAt(s: string, delimiter: char, a: string, p: int, first: bool) {
    && 0 <= p <= p + |a| <= |s| && s[p..p + |a|] == a && delimiter !in a
    && (if first then p == 0 else p > 0 && s[p - 1] == delimiter)
    && (p + |a| < |s| ==> s[p + |a|] == delimiter)
  }

  lemma {:induction false} PlacesTell(s: string, delimiter: char, max: nat, from: nat, j: nat)
    requires j < |Arguments(s, delimiter, max)|
    ensures |Places(s, delimiter, max, from)| == |Arguments(s, delimiter, max)|
    ensures LiesAt(s, delimiter, Arguments(s, delimiter, max)[j], Places(s, delimiter, max, from)[j] - from, j == 0)
    decreases max
  {
    hide *;
    SamePlaces(s, delimiter, max, from);
    if max == 0 || s == "" {
      NoArguments(s, delimiter, max, from);
    } else {
      ArgumentsStart(s, delimiter, max);
      PlacesStart(s, delimiter, max, from);
      FirstLies(s, delimiter);
      if j > 0 {
        var f := First(s, delimiter);
        var rest := s[|f| + 1..];
        SamePlaces(rest, delimiter, max - 1, from + |f| + 1);
        PlacesTell(rest, delimiter, max - 1, from + |f| + 1, j - 1);
        LiesBehind(s, |f|, delimiter, Arguments(rest, delimiter, max - 1)[j - 1],
                   Places(rest, delimiter, max - 1, from + |f| + 1)[j - 1] - (from + |f| + 1), j == 1);
      }
    }
  }

  lemma FirstLies(s: string, delimiter: char)
    ensures LiesAt(s, delimiter, First(s, delimiter), 0, true)
  {}

  lemma LiesBehind(s: string, k: nat, delimiter: char, a: string, p: int, first: bool)
    requires k < |s| && s[k] == delimiter && LiesAt(s[k + 1..], delimiter, a, p, first)
    ensures LiesAt(s, delimiter, a, p + k + 1, false)
  {
    var rest, from := s[k + 1..], p + k + 1;
    assert s[from..from + |a|] == rest[p..p + |a|];
  }

  lemma ArgumentsStart(s: string, delimiter: char, max: nat)
    requires max > 0 && s != ""
    ensures
      var f := First(s, delimiter);
      && Arguments(s, delimiter, max)
         == [f] + (if |f| < |s| then Arguments(s[|f| + 1..], delimiter, max - 1) else [])
      && Closed(s, delimiter, max) == (|f| < |s| && Closed(s[|f| + 1..], delimiter, max - 1))
  {
    hide First, Places;
  }

  lemma PlacesStart(s: string, delimiter: char, max: nat, from: nat)
    requires max > 0 && s != ""
    ensures
      var f := First(s, delimiter);
      Places(s, delimiter, max, from)
      == [from] + (if |f| < |s| then Places(s[|f| + 1..], delimiter, max - 1, from + |f| + 1) else [])
  {
    hide First, Arguments, Closed;
  }

  lemma {:induction false} SamePlaces(s: string, delimiter: char, max: nat, from: nat)
    ensures |Places(s, delimiter, max, from)| == |Arguments(s, delimiter, max)|
    decreases max
  {
    hide *;
    if max == 0 || s == "" {
      NoArguments(s, delimiter, max, from);
    } else {
      ArgumentsStart(s, delimiter, max);
      PlacesStart(s, delimiter, max, from);
      var f := First(s, delimiter);
      if |f| < |s| {
        SamePlaces(s[|f| + 1..], delimiter, max - 1, from + |f| + 1);
      }
    }
  }

  lemma NoArguments(s: string, delimiter: char, max: nat, from: nat)
    requires max == 0 || s == ""
    ensures Arguments(s, delimiter, max) == [] && Places(s, delimiter, max, from) == []
  {}

  // ---------------------------------------------------------------- the round trip

  function Joined(fields: seq<string>, delimiter: char): string {
    if fields == [] then "" else fields[0] + [delimiter] + Joined(fields[1..], delimiter)
  }

  predicate Plain(field: string, delimiter: char) {
    delimiter !in field && '\0' !in field
  }

  lemma {:induction false} FirstOfJoined(f: string, delimiter: char, rest: string)
    requires delimiter !in f
    ensures First(f + [delimiter] + rest, delimiter) == f
  {
    var s := f + [delimiter] + rest;
    if f != "" {
      assert s[1..] == f[1..] + [delimiter] + rest;
      FirstOfJoined(f[1..], delimiter, rest);
    }
  }

  lemma {:induction false} JoinedEndsClosed(fields: seq<string>, delimiter: char)
    requires fields != []
    ensures var s := Joined(fields, delimiter); s != "" && s[|s| - 1] == delimiter
  {
    var rest := Joined(fields[1..], delimiter);
    assert Joined(fields, delimiter) == fields[0] + [delimiter] + rest;
    if |fields| > 1 {
      JoinedEndsClosed(fields[1..], delimiter);
    }
  }

  lemma OneArgument(f: string, delimiter: char, rest: string, max: nat)
    requires delimiter !in f && max > 0
    ensures Arguments(f + [delimiter] + rest, delimiter, max) == [f] + Arguments(rest, delimiter, max - 1)
    ensures Closed(f + [delimiter] + rest, delimiter, max) == Closed(rest, delimiter, max - 1)
  {
    hide First;
    var s := f + [delimiter] + rest;
    FirstOfJoined(f, delimiter, rest);
    assert s[|f| + 1..] == rest;
  }

  lemma {:induction false} JoinedArguments(fields: seq<string>, delimiter: char, max: nat)
    requires |fields| <= max && forall i :: 0 <= i < |fields| ==> Plain(fields[i], delimiter)
    ensures Arguments(Joined(fields, delimiter), delimiter, max) == fields
    ensures Closed(Joined(fields, delimiter), delimiter, max)
    decreases max
  {
    hide *;
    if fields == [] {
      NothingJoined(delimiter, max);
    } else {
      var rest := fields[1..];
      forall i | 0 <= i < |rest| ensures Plain(rest[i], delimiter) {
        assert rest[i] == fields[i + 1];
      }
      JoinedArguments(rest, delimiter, max - 1);
      PlainField(fields[0], delimiter);
      OneArgument(fields[0], delimiter, Joined(rest, delimiter), max);
      JoinedStep(fields, delimiter);
    }
  }

  lemma NothingJoined(delimiter: char, max: nat)
    ensures Arguments(Joined([], delimiter), delimiter, max) == [] && Closed(Joined([], delimiter), delimiter, max)
  {}

  lemma JoinedStep(fields: seq<string>, delimiter: char)
    requires fields != []
    ensures Joined(fields, delimiter) == fields[0] + [delimiter] + Joined(fields[1..], delimiter)
    ensures [fields[0]] + fields[1..] == fields
  {}

  lemma PlainField(field: string, delimiter: char)
    requires Plain(field, delimiter)
    ensures delimiter !in field
  {}

  lemma {:induction false} ClearedJoined(fields: seq<string>, delimiter: char, max: nat)
    requires |fields| <= max && forall i :: 0 <= i < |fields| ==> Plain(fields[i], delimiter)
    ensures Cleared(Joined(fields, delimiter), delimiter, max) == Joined(fields, '\0')
    decreases max
  {
    if fields != [] {
      var rest := fields[1..];
      ClearedJoined(rest, delimiter, max - 1);
      ClearedField(fields[0], delimiter, Joined(rest, delimiter), max);
    }
  }

  lemma {:induction false} ClearedField(f: string, delimiter: char, rest: string, max: nat)
    requires delimiter !in f && max > 0
    ensures Cleared(f + [delimiter] + rest, delimiter, max) == f + "\0" + Cleared(rest, delimiter, max - 1)
  {
    var s := f + [delimiter] + rest;
    if f == "" {
      assert s[1..] == rest;
    } else {
      assert s[1..] == f[1..] + [delimiter] + rest;
      ClearedField(f[1..], delimiter, rest, max);
    }
  }

  lemma {:induction false} JoinedHasNoEnd(fields: seq<string>, delimiter: char)
    requires delimiter != '\0' && forall i :: 0 <= i < |fields| ==> Plain(fields[i], delimiter)
    ensures '\0' !in Joined(fields, delimiter)
  {
    if fields != [] {
      JoinedHasNoEnd(fields[1..], delimiter);
    }
  }

  lemma CTextIs(s: string, rest: string)
    requires '\0' !in s
    ensures CText(s + "\0" + rest) == s
  {
    FirstOfJoined(s, '\0', rest);
  }

  /** A line of fields without delimiters in them, each followed by a delimiter, is cut into just these
      fields, blanks and white space included; in its buffer exactly the delimiters become NUL. */
  lemma RoundTrip(fields: seq<string>, delimiter: char, max: nat, rest: string)
    requires 0 < |fields| <= max && forall i :: 0 <= i < |fields| ==> Plain(fields[i], delimiter)
    requires delimiter != '\0'
    ensures
      var t := Joined(fields, delimiter) + "\0" + rest;
      var s := Trimmed(CText(t), delimiter);
      && Count(s, delimiter, max) == |fields| && Arguments(s, delimiter, max) == fields
      && Cut(t, delimiter, max) == Joined(fields, '\0') + "\0" + rest
      && |Joined(fields, '\0')| == |Joined(fields, delimiter)|
      && forall i :: 0 <= i < |t| ==>
           Cut(t, delimiter, max)[i] == if i < |Joined(fields, delimiter)| && t[i] == delimiter then '\0' else t[i]
  {
    hide Arguments, Closed, Joined, Cleared, CText;
    var line := Joined(fields, delimiter);
    var t := line + "\0" + rest;
    JoinedHasNoEnd(fields, delimiter);
    CTextIs(line, rest);
    JoinedEndsClosed(fields, delimiter);
    JoinedArguments(fields, delimiter, max);
    ClearedJoined(fields, delimiter, max);
    assert Cut(t, delimiter, max) == Joined(fields, '\0') + "\0" + rest;
    forall i | 0 <= i < |line| ensures Joined(fields, '\0')[i] == if line[i] == delimiter then '\0' else line[i] {
      JoinedAt(fields, delimiter, i);
    }
  }

  /** Two joined lists of the same fields differ in the delimiters only. */
  lemma {:induction false} JoinedAt(fields: seq<string>, delimiter: char, i: nat)
    requires forall i :: 0 <= i < |fields| ==> Plain(fields[i], delimiter)
    requires i < |Joined(fields, delimiter)|
    ensures |Joined(fields, '\0')| == |Joined(fields, delimiter)|
    ensures Joined(fields, '\0')[i] == if Joined(fields, delimiter)[i] == delimiter then '\0' else Joined(fields, delimiter)[i]
  {
    JoinedLength(fields, delimiter);
    if i > |fields[0]| {
      JoinedAt(fields[1..], delimiter, i - |fields[0]| - 1);
    }
  }

  lemma {:induction false} JoinedLength(fields: seq<string>, delimiter: char)
    ensures |Joined(fields, '\0')| == |Joined(fields, delimiter)|
  {
    if fields != [] {
      JoinedLength(fields[1..], delimiter);
    }
  }

  // ---------------------------------------------------------------- any line

  lemma {:induction false} OnlyRest(rest: string, delimiter: char)
    requires delimiter !in rest
    ensures First(rest, delimiter) == rest
  {
    if rest != "" {
      OnlyRest(rest[1..], delimiter);
    }
  }

  lemma LastArgument(rest: string, delimiter: char, max: nat)
    requires delimiter !in rest && max > 0
    ensures Arguments(rest, delimiter, max) == if rest == "" then [] else [rest]
    ensures Closed(rest, delimiter, max) <==> rest == ""
  {
    hide First;
    OnlyRest(rest, delimiter);
  }

  lemma JoinedBefore(fields: seq<string>, delimiter: char, rest: string)
    requires fields != []
    ensures Joined(fields, delimiter) + rest == fields[0] + [delimiter] + (Joined(fields[1..], delimiter) + rest)
  {}

  lemma {:induction false} ArgumentsBehind(fields: seq<string>, delimiter: char, rest: string, max: nat)
    requires |fields| <= max && forall i :: 0 <= i < |fields| ==> delimiter !in fields[i]
    ensures Arguments(Joined(fields, delimiter) + rest, delimiter, max) == fields + Arguments(rest, delimiter, max - |fields|)
    ensures Closed(Joined(fields, delimiter) + rest, delimiter, max) == Closed(rest, delimiter, max - |fields|)
  {
    hide Arguments, Closed;
    if fields == [] {
      assert Joined(fields, delimiter) + rest == rest;
    } else {
      ArgumentsBehind(fields[1..], delimiter, rest, max - 1);
      JoinedBefore(fields, delimiter, rest);
      OneArgument(fields[0], delimiter, Joined(fields[1..], delimiter) + rest, max);
      assert fields == [fields[0]] + fields[1..];
    }
  }

  /** Any line is fields, each followed by a delimiter, and a rest without one.  With room for more arguments than these
      fields, the rest is the last argument if there is any of it, but it counts only if it is not blank. */
  lemma RestIsLast(fields: seq<string>, delimiter: char, rest: string, max: nat)
    requires |fields| < max && delimiter !in rest && forall i :: 0 <= i < |fields| ==> delimiter !in fields[i]
    ensures
      var s := Joined(fields, delimiter) + rest;
      && Arguments(s, delimiter, max) == fields + (if rest == "" then [] else [rest])
      && Count(s, delimiter, max) == |fields| + if IsBlank(rest) then 0 else 1
  {
    hide Arguments, Closed, Joined;
    ArgumentsBehind(fields, delimiter, rest, max);
    LastArgument(rest, delimiter, max - |fields|);
  }

  /** With room for just these fields, whatever is behind them is left alone and does not count. */
  lemma NoRoomForMore(fields: seq<string>, delimiter: char, rest: string)
    requires forall i :: 0 <= i < |fields| ==> delimiter !in fields[i]
    ensures
      var s := Joined(fields, delimiter) + rest;
      Arguments(s, delimiter, |fields|) == fields && Count(s, delimiter, |fields|) == |fields|
  {
    hide Joined;
    ArgumentsBehind(fields, delimiter, rest, |fields|);
  }

  /** There is such a way to read any line. */
  lemma {:induction false} AnyLine(s: string, delimiter: char) returns (fields: seq<string>, rest: string)
    ensures s == Joined(fields, delimiter) + rest && delimiter !in rest
    ensures forall i :: 0 <= i < |fields| ==> delimiter !in fields[i]
    decreases |s|
  {
    var f := First(s, delimiter);
    if |f| == |s| {
      fields, rest := [], s;
    } else {
      var more, last := AnyLine(s[|f| + 1..], delimiter);
      fields, rest := [f] + more, last;
      assert fields[1..] == more;
      JoinedBefore(fields, delimiter, rest);
      assert s == f + [delimiter] + s[|f| + 1..];
    }
  }

  /** Of a line longer than one character no white space is left at the end, unless it is a delimiter. */
  lemma {:induction false} TrimmedStops(s: string, delimiter: char)
    ensures
      var r := Trimmed(s, delimiter);
      (s != "" ==> r != "") && (|r| > 1 ==> !IsSpace(r[|r| - 1]) || r[|r| - 1] == delimiter)
    decreases |s|
  {
    if |s| > 1 && IsSpace(s[|s| - 1]) && s[|s| - 1] != delimiter {
      TrimmedStops(s[..|s| - 1], delimiter);
    }
  }

  // ---------------------------------------------------------------- the code

  /** At `from` there is the C string `f`. */
  predicate HoldsAt(t: string, from: nat, f: string) {
    from + |f| < |t| && t[from..from + |f|] == f && t[from + |f|] == '\0'
  }

  lemma TextHasNoEnd(t: string, from: nat, f: string)
    requires HoldsAt(t, from, f) && '\0' !in f
    ensures forall p :: from <= p < from + |f| ==> t[p] == f[p - from] && t[p] != '\0'
    ensures t[from + |f|] == '\0'
  {
    forall p | from <= p < from + |f| ensures t[p] == f[p - from] && t[p] != '\0' {
      assert t[p] == t[from..from + |f|][p - from];
    }
  }

  /** The start of a C string is all there is of it. */
  method Length(line: array<char>) returns (n: nat)
    requires '\0' in line[..]
    ensures n == |CText(line[..])|
  {
    n := 0;
    ghost var s := CText(line[..]);
    TextHasNoEnd(line[..], 0, s) by { assert line[..][0..|s|] == s; }
    while line[n] != '\0'
      invariant n <= |s|
      decreases |s| - n
    {
      n := n + 1;
    }
  }

  /** A buffer with the first k characters of the line `s`, the others of them overwritten. */
  function Shortened(s: string, k: nat, tail: string): string
    requires k <= |s|
  {
    s[..k] + Nuls(|s| - k) + tail
  }

  lemma ShortenOne(s: string, k: nat, tail: string)
    requires k < |s|
    ensures Shortened(s, k + 1, tail)[k] == s[k]
    ensures Shortened(s, k + 1, tail)[k := '\0'] == Shortened(s, k, tail)
  {}

  lemma TrimOne(s: string, k: nat, delimiter: char)
    requires 0 < k < |s|
    ensures Trimmed(s[..k + 1], delimiter)
            == if IsSpace(s[k]) && s[k] != delimiter then Trimmed(s[..k], delimiter) else s[..k + 1]
  {
    assert s[..k + 1][..k] == s[..k];
  }

  lemma ShortenedHolds(t: string, s: string, k: nat, tail: string)
    requires k <= |s| && t == Shortened(s, k, tail) && '\0' !in s && tail != "" && tail[0] == '\0'
    ensures HoldsAt(t, 0, s[..k]) && '\0' !in s[..k] && t[k..] == Nuls(|s| - k) + tail
  {
    assert t[0..k] == s[..k];
  }

  lemma LineIs(t: string, s: string)
    requires '\0' in t && s == CText(t)
    ensures |s| < |t| && t == Shortened(s, |s|, t[|s|..]) && t[|s|..][0] == '\0' && '\0' !in s
  {}

  /** Overwrites white space at the end of the line, from its last character down. */
  method TrimEnd(line: array<char>, delimiter: char, ghost s: string) returns (ghost r: string)
    requires '\0' in line[..] && s == CText(line[..]) && s != ""
    modifies line
    ensures r == Trimmed(s, delimiter) && r != "" && r <= s
    ensures HoldsAt(line[..], 0, r) && '\0' !in r
    ensures |r| <= line.Length && line[|r|..] == Nuls(|s| - |r|) + old(line[|s|..])
  {
    hide CText, Trimmed, Shortened, HoldsAt;
    ghost var tail := line[|s|..];
    LineIs(line[..], s);
    var p := Length(line);
    p := p - 1;
    assert s[..p + 1] == s;
    ShortenOne(s, p, tail);
    while IsSpace(line[p]) && line[p] != delimiter && p > 0
      invariant 0 <= p < |s| < line.Length && line[p] == s[p]
      invariant Trimmed(s[..p + 1], delimiter) == Trimmed(s, delimiter)
      invariant line[..] == Shortened(s, p + 1, tail)
      decreases p
    {
      TrimOne(s, p, delimiter);
      ShortenOne(s, p, tail);
      line[p] := '\0';
      p := p - 1;
      ShortenOne(s, p, tail);
    }
    r := s[..p + 1];
    OneLeft(s, p, delimiter);
    ShortenedHolds(line[..], s, p + 1, tail);
  }

  lemma OneLeft(s: string, p: nat, delimiter: char)
    requires p < |s| && (!IsSpace(s[p]) || s[p] == delimiter || p == 0)
    ensures Trimmed(s[..p + 1], delimiter) == s[..p + 1]
  {}

  /** The loop stands at `p` of the text `s`, has found the arguments `args` so far, and closed all of them or not. */
  ghost predicate Underway(t: string, s: string, delimiter: char, max: nat, p: nat, argv: seq<nat>, args: seq<string>, closed: bool) {
    && p <= |s| < |t| && |argv| == |args| <= max
    && t[p..|s|] == s[p..] && t[|s|] == '\0'
    && (forall j :: 0 <= j < |args| ==> HoldsAt(t, argv[j], args[j]) && argv[j] + |args[j]| <= p
                                        && (argv[j] + |args[j]| < p || !closed))
    && Arguments(s, delimiter, max) == args + (if closed then Arguments(s[p..], delimiter, max - |args|) else [])
    && Closed(s, delimiter, max) == (closed && Closed(s[p..], delimiter, max - |args|))
    && (!closed ==> p == |s| && args != [])
  }

  /** And has cleared the delimiters before `p`, of what may be cleared, leaving alone the `tail` of the buffer. */
  ghost predicate Clears(t: string, tail: string, s: string, delimiter: char, max: nat, p: nat, n: nat) {
    && p <= |s| <= |t| && n <= max && t[p..] == s[p..] + tail
    && Cleared(s, delimiter, max) == t[..p] + Cleared(s[p..], delimiter, max - n)
  }

  /** And has noted where arguments start. */
  ghost predicate Marks(s: string, delimiter: char, max: nat, p: nat, argv: seq<nat>, closed: bool) {
    && p <= |s| && |argv| <= max
    && Places(s, delimiter, max, 0) == argv + (if closed then Places(s[p..], delimiter, max - |argv|, p) else [])
  }

  ghost predicate Tracks(t: string, tail: string, s: string, delimiter: char, max: nat, p: nat, argv: seq<nat>, closed: bool) {
    Clears(t, tail, s, delimiter, max, p, |argv|) && Marks(s, delimiter, max, p, argv, closed)
  }

  lemma TracksStart(t: string, s: string, delimiter: char, max: nat)
    requires HoldsAt(t, 0, s)
    ensures Tracks(t, t[|s|..], s, delimiter, max, 0, [], true)
  {
    hide Cleared, Places;
    assert s[0..] == s && t == t[0..|s|] + t[|s|..];
  }

  /** An argument that ends at a delimiter, and what is left behind it. */
  lemma FirstThenRest(s: string, p: nat, delimiter: char)
    requires p < |s| && p + |First(s[p..], delimiter)| < |s|
    ensures var f := First(s[p..], delimiter);
            delimiter !in f && s[p..] == f + [delimiter] + s[p + |f| + 1..]
  {}

  lemma RestBehind(s: string, p: nat, k: nat)
    requires p + k <= |s|
    ensures s[p..][k..] == s[p + k..]
  {}

  lemma ClearsClose(t: string, tail: string, s: string, delimiter: char, max: nat, p: nat, n: nat)
    requires Clears(t, tail, s, delimiter, max, p, n) && n < max && p < |s|
    requires p + |First(s[p..], delimiter)| < |s| <= |t|
    ensures var q := p + |First(s[p..], delimiter)|;
            Clears(t[q := '\0'], tail, s, delimiter, max, q + 1, n + 1)
  {
    hide Cleared, First;
    var f := First(s[p..], delimiter);
    var q := p + |f|;
    FirstThenRest(s, p, delimiter);
    ClearedField(f, delimiter, s[q + 1..], max - n);
    ClearOne(t, p, f, delimiter, s[q + 1..] + tail) by {
      assert t[p..] == f + [delimiter] + (s[q + 1..] + tail);
    }
    var rest := Cleared(s[q + 1..], delimiter, max - n - 1);
    assert t[..p] + (f + "\0" + rest) == (t[..p] + f + "\0") + rest;
  }

  lemma ClearOne(t: string, p: nat, f: string, delimiter: char, rest: string)
    requires p <= |t| && t[p..] == f + [delimiter] + rest
    ensures var t' := t[p + |f| := '\0'];
            t'[..p + |f| + 1] == t[..p] + f + "\0" && t'[p + |f| + 1..] == rest
  {
    var q := p + |f|;
    assert t[p..q] == t[p..][..|f|] == f;
    assert t[q + 1..] == t[p..][|f| + 1..];
  }

  lemma MarksAre(s: string, delimiter: char, max: nat, p: nat, argv: seq<nat>, closed: bool)
    requires p <= |s| && |argv| <= max
    ensures Marks(s, delimiter, max, p, argv, closed)
      <==> Places(s, delimiter, max, 0) == argv + (if closed then Places(s[p..], delimiter, max - |argv|, p) else [])
  {
    hide Places;
  }

  lemma MarksClose(s: string, delimiter: char, max: nat, p: nat, argv: seq<nat>)
    requires Marks(s, delimiter, max, p, argv, true) && |argv| < max && p < |s|
    requires p + |First(s[p..], delimiter)| < |s|
    ensures Marks(s, delimiter, max, p + |First(s[p..], delimiter)| + 1, argv + [p], true)
  {
    hide *;
    var q, m := p + |First(s[p..], delimiter)|, max - |argv|;
    MarksAre(s, delimiter, max, p, argv, true);
    PlacesStep(s, delimiter, m, p);
    PlaceMoves(Places(s, delimiter, max, 0), argv, p, Places(s[q + 1..], delimiter, m - 1, q + 1));
    MarksAre(s, delimiter, max, q + 1, argv + [p], true);
  }

  lemma PlacesStep(s: string, delimiter: char, m: nat, p: nat)
    requires m > 0 && p < |s| && p + |First(s[p..], delimiter)| < |s|
    ensures var q := p + |First(s[p..], delimiter)|;
            Places(s[p..], delimiter, m, p) == [p] + Places(s[q + 1..], delimiter, m - 1, q + 1)
  {
    hide *;
    RestBehind(s, p, |First(s[p..], delimiter)| + 1);
    PlacesStart(s[p..], delimiter, m, p);
  }

  lemma PlaceMoves(all: seq<nat>, a: seq<nat>, p: nat, b: seq<nat>)
    requires all == a + ([p] + b)
    ensures all == (a + [p]) + b
  {}

  lemma TracksClose(t: string, t': string, tail: string, s: string, delimiter: char, max: nat, p: nat, argv: seq<nat>)
    requires Tracks(t, tail, s, delimiter, max, p, argv, true) && |argv| < max && p < |s| <= |t|
    requires var q := p + |First(s[p..], delimiter)|; q < |s| && t' == t[q := '\0']
    ensures Tracks(t', tail, s, delimiter, max, p + |First(s[p..], delimiter)| + 1, argv + [p], true)
  {
    hide Clears, Marks, First;
    ClearsClose(t, tail, s, delimiter, max, p, |argv|);
    MarksClose(s, delimiter, max, p, argv);
  }

  lemma {:induction false} ClearedPlain(s: string, delimiter: char, max: nat)
    requires delimiter !in s || max == 0
    ensures Cleared(s, delimiter, max) == s
  {
    if s != "" {
      ClearedPlain(s[1..], delimiter, max);
    }
  }

  lemma ClearsEnds(t: string, tail: string, s: string, delimiter: char, max: nat, p: nat, n: nat)
    requires Clears(t, tail, s, delimiter, max, p, n) && p <= |s| && (delimiter !in s[p..] || n == max)
    ensures t == Cleared(s, delimiter, max) + tail
    ensures forall n' :: n <= n' <= max ==> Clears(t, tail, s, delimiter, max, |s|, n')
  {
    hide Cleared;
    ClearedPlain(s[p..], delimiter, max - n);
    assert t == t[..p] + (s[p..] + tail) == (t[..p] + s[p..]) + tail;
    assert Cleared(s, delimiter, max) == t[..|s|];
    forall n' | n <= n' <= max ensures Clears(t, tail, s, delimiter, max, |s|, n') {
      ClearedPlain(s[|s|..], delimiter, max - n');
    }
  }

  lemma MarksEnds(s: string, delimiter: char, max: nat, p: nat, argv: seq<nat>)
    requires Marks(s, delimiter, max, p, argv, true) && |argv| < max && p < |s|
    requires p + |First(s[p..], delimiter)| == |s|
    ensures Marks(s, delimiter, max, |s|, argv + [p], false)
  {
    hide Places, First;
    PlacesStart(s[p..], delimiter, max - |argv|, p);
    assert argv + ([p] + []) == (argv + [p]) + [];
  }

  lemma TracksEnds(t: string, tail: string, s: string, delimiter: char, max: nat, p: nat, argv: seq<nat>)
    requires Tracks(t, tail, s, delimiter, max, p, argv, true) && |argv| < max && p < |s|
    requires p + |First(s[p..], delimiter)| == |s|
    ensures Tracks(t, tail, s, delimiter, max, |s|, argv + [p], false)
  {
    hide Clears, Marks;
    assert First(s[p..], delimiter) == s[p..];
    ClearsEnds(t, tail, s, delimiter, max, p, |argv|);
    MarksEnds(s, delimiter, max, p, argv);
  }

  lemma MarksEnd(s: string, delimiter: char, max: nat, p: nat, argv: seq<nat>, closed: bool)
    requires p <= |s| && |argv| <= max
    requires Marks(s, delimiter, max, p, argv, closed) && (p == |s| || |argv| == max)
    ensures argv == Places(s, delimiter, max, 0)
  {
    hide *;
    MarksAre(s, delimiter, max, p, argv, closed);
    if closed { NoArguments(s[p..], delimiter, max - |argv|, p); }
  }

  lemma TracksEnd(t: string, tail: string, s: string, delimiter: char, max: nat, p: nat, argv: seq<nat>, closed: bool)
    requires Tracks(t, tail, s, delimiter, max, p, argv, closed) && p <= |s| && |argv| <= max && (p == |s| || |argv| == max)
    ensures t == Cleared(s, delimiter, max) + tail && argv == Places(s, delimiter, max, 0)
  {
    hide Clears, Marks;
    ClearsEnds(t, tail, s, delimiter, max, p, |argv|);
    MarksEnd(s, delimiter, max, p, argv, closed);
  }

  ghost predicate Stands(t: string, tail: string, s: string, delimiter: char, max: nat,
                         p: nat, argv: seq<nat>, args: seq<string>, closed: bool) {
    Underway(t, s, delimiter, max, p, argv, args, closed) && Tracks(t, tail, s, delimiter, max, p, argv, closed)
  }

  lemma StandsAtStart(t: string, s: string, delimiter: char, max: nat)
    requires HoldsAt(t, 0, s)
    ensures |s| < |t| && Stands(t, t[|s|..], s, delimiter, max, 0, [], [], true)
  {
    hide Underway, Tracks;
    assert |s| < |t|;
    UnderwayStart(t, s, delimiter, max);
    TracksStart(t, s, delimiter, max);
  }

  lemma StandsStill(t: string, tail: string, s: string, delimiter: char, max: nat,
                    p: nat, argv: seq<nat>, args: seq<string>, closed: bool)
    requires Stands(t, tail, s, delimiter, max, p, argv, args, closed) && '\0' !in s
    ensures p <= |s| < |t| && t[p..|s|] == s[p..] && t[|s|] == '\0' && (p < |s| <==> t[p] != '\0')
    ensures p < |s| ==> closed
  {
    hide Tracks;
    LineAt(t, s, delimiter, max, p, argv, args, closed);
  }

  /** The loop goes on behind an argument that has just been closed. */
  lemma StandsCloses(t: string, t': string, tail: string, s: string, delimiter: char, max: nat,
                     p: nat, argv: seq<nat>, args: seq<string>)
    requires Stands(t, tail, s, delimiter, max, p, argv, args, true) && |argv| == |args| < max && p < |s| <= |t|
    requires var q := p + |First(s[p..], delimiter)|; q < |s| && t' == t[q := '\0']
    ensures var f := First(s[p..], delimiter);
            Stands(t', tail, s, delimiter, max, p + |f| + 1, argv + [p], args + [f], true)
  {
    hide Underway, Tracks, First;
    ArgumentCloses(t, t', s, delimiter, max, p, argv, args);
    TracksClose(t, t', tail, s, delimiter, max, p, argv);
  }

  lemma StandsEnds(t: string, tail: string, s: string, delimiter: char, max: nat, p: nat, argv: seq<nat>, args: seq<string>)
    requires Stands(t, tail, s, delimiter, max, p, argv, args, true) && |argv| == |args| < max && p < |s|
    requires p + |First(s[p..], delimiter)| == |s|
    ensures Stands(t, tail, s, delimiter, max, |s|, argv + [p], args + [First(s[p..], delimiter)], false)
  {
    hide Underway, Tracks, First;
    ArgumentEnds(t, s, delimiter, max, p, argv, args);
    TracksEnds(t, tail, s, delimiter, max, p, argv);
  }

  lemma StandsAtEnd(t: string, tail: string, s: string, delimiter: char, max: nat,
                    p: nat, argv: seq<nat>, args: seq<string>, closed: bool)
    requires Stands(t, tail, s, delimiter, max, p, argv, args, closed)
    requires |argv| == |args| <= max && p <= |s| && (p == |s| || |args| == max)
    ensures Arguments(s, delimiter, max) == args && Closed(s, delimiter, max) == closed
    ensures forall j :: 0 <= j < |args| ==> HoldsAt(t, argv[j], args[j])
    ensures t == Cleared(s, delimiter, max) + tail && argv == Places(s, delimiter, max, 0)
  {
    hide Underway, Tracks, Arguments, Closed, Cleared, Places, HoldsAt;
    UnderwayEnd(t, s, delimiter, max, p, argv, args, closed);
    TracksEnd(t, tail, s, delimiter, max, p, argv, closed);
  }

  lemma CutIs(t: string, t': string, s: string, delimiter: char, max: nat)
    requires '\0' in t && s == Trimmed(CText(t), delimiter) && |s| <= |CText(t)|
    requires t' == Cleared(s, delimiter, max) + (Nuls(|CText(t)| - |s|) + t[|CText(t)|..])
    ensures t' == Cut(t, delimiter, max)
  {}

  /** An empty line is left alone. */
  lemma NothingCut(t: string, delimiter: char, max: nat)
    requires '\0' in t && CText(t) == ""
    ensures Cut(t, delimiter, max) == t && Places(Trimmed(CText(t), delimiter), delimiter, max, 0) == []
  {}

  /** From `p` to the delimiter that ends the argument there, or to the end of the line. */
  method ScanArgument(line: array<char>, start: nat, delimiter: char, ghost s: string) returns (p: nat)
    requires start < |s| < line.Length && line[start..|s|] == s[start..] && line[|s|] == '\0' && '\0' !in s
    requires delimiter != '\0'
    ensures p == start + |First(s[start..], delimiter)|
  {
    p := start;
    while line[p] != '\0' && line[p] != delimiter
      invariant start <= p <= |s|
      invariant p + |First(s[p..], delimiter)| == start + |First(s[start..], delimiter)|
      decreases |s| - p
    {
      assert p < |s|;
      assert s[p..][1..] == s[p + 1..];
      assert line[p] == line[start..|s|][p - start] == s[start..][p - start] == s[p];
      p := p + 1;
    }
    if p < |s| {
      assert line[p] == line[start..|s|][p - start] == s[start..][p - start] == s[p];
      assert s[p..][0] == delimiter;
    }
  }

  /** An argument ended by a delimiter, which becomes a NUL. */
  lemma ArgumentCloses(t: string, t': string, s: string, delimiter: char, max: nat, p: nat, argv: seq<nat>, args: seq<string>)
    requires Underway(t, s, delimiter, max, p, argv, args, true) && |args| < max && p < |s|
    requires var q := p + |First(s[p..], delimiter)|; q < |s| && t' == t[q := '\0']
    ensures var f := First(s[p..], delimiter);
            Underway(t', s, delimiter, max, p + |f| + 1, argv + [p], args + [f], true)
  {
    hide Arguments, Closed, First, HoldsAt;
    var f := First(s[p..], delimiter);
    var q := p + |f|;
    ArgumentsStep(s, delimiter, p, max - |args|);
    HoldsNew(t, s, p, q, f);
    forall j | 0 <= j < |args| ensures HoldsAt(t', argv[j], args[j]) {
      HoldsStill(t, argv[j], args[j], q);
    }
    assert t'[q + 1..|s|] == t[p..|s|][|f| + 1..] == s[p..][|f| + 1..] == s[q + 1..];
    var rest := Arguments(s[q + 1..], delimiter, max - |args| - 1);
    assert args + ([f] + rest) == (args + [f]) + rest;
  }

  lemma ArgumentsStep(s: string, delimiter: char, p: nat, max: nat)
    requires p < |s| && max > 0 && p + |First(s[p..], delimiter)| < |s|
    ensures var f := First(s[p..], delimiter);
            var next := s[p + |f| + 1..];
            && Arguments(s[p..], delimiter, max) == [f] + Arguments(next, delimiter, max - 1)
            && Closed(s[p..], delimiter, max) == Closed(next, delimiter, max - 1)
  {
    hide *;
    RestBehind(s, p, |First(s[p..], delimiter)| + 1);
    ArgumentsStart(s[p..], delimiter, max);
  }

  lemma HoldsNew(t: string, s: string, p: nat, q: nat, f: string)
    requires p <= q < |s| < |t| && t[p..|s|] == s[p..] && f == s[p..][..q - p]
    ensures HoldsAt(t[q := '\0'], p, f)
  {
    assert t[q := '\0'][p..q] == t[p..|s|][..q - p];
  }

  lemma HoldsStill(t: string, from: nat, f: string, q: nat)
    requires HoldsAt(t, from, f) && from + |f| < q < |t|
    ensures HoldsAt(t[q := '\0'], from, f)
  {
    assert t[q := '\0'][from..from + |f|] == t[from..from + |f|];
  }

  /** An argument ended by the end of the line. */
  lemma ArgumentEnds(t: string, s: string, delimiter: char, max: nat, p: nat, argv: seq<nat>, args: seq<string>)
    requires Underway(t, s, delimiter, max, p, argv, args, true) && |args| < max && p < |s|
    requires p + |First(s[p..], delimiter)| == |s|
    ensures Underway(t, s, delimiter, max, |s|, argv + [p], args + [First(s[p..], delimiter)], false)
  {
    var f := First(s[p..], delimiter);
    assert f == s[p..];
    assert HoldsAt(t, p, f);
    assert args + ([f] + []) == (args + [f]) + [];
  }

  lemma UnderwayStart(t: string, s: string, delimiter: char, max: nat)
    requires HoldsAt(t, 0, s)
    ensures Underway(t, s, delimiter, max, 0, [], [], true)
  {
    assert s[0..] == s && t[0..|s|] == s;
  }

  /** When the loop stops all arguments have been found. */
  lemma UnderwayEnd(t: string, s: string, delimiter: char, max: nat, p: nat, argv: seq<nat>, args: seq<string>, closed: bool)
    requires Underway(t, s, delimiter, max, p, argv, args, closed) && (p == |s| || |args| == max)
    ensures Arguments(s, delimiter, max) == args && Closed(s, delimiter, max) == closed
    ensures forall j :: 0 <= j < |args| ==> HoldsAt(t, argv[j], args[j])
  {}

  /** Whether there is anything but white space in the C string `f` that starts at `from`. */
  method HasText(line: array<char>, from: nat, ghost f: string) returns (ok: bool)
    requires HoldsAt(line[..], from, f) && '\0' !in f
    ensures ok == !IsBlank(f)
  {
    var p := from;
    TextHasNoEnd(line[..], from, f);
    while line[p] != '\0'
      invariant from <= p <= from + |f| && IsBlank(f[..p - from])
      decreases from + |f| - p
    {
      if !IsSpace(line[p]) {
        return true;
      }
      p := p + 1;
    }
    assert f[..|f|] == f;
    return false;
  }

  lemma NothingFound(delimiter: char, max: nat)
    ensures Count(Trimmed("", delimiter), delimiter, max) == 0
  {}

  lemma LineAt(t: string, s: string, delimiter: char, max: nat, p: nat, argv: seq<nat>, args: seq<string>, closed: bool)
    requires Underway(t, s, delimiter, max, p, argv, args, closed) && '\0' !in s
    ensures p <= |s| < |t| && t[p..|s|] == s[p..] && t[|s|] == '\0' && (p < |s| <==> t[p] != '\0')
    ensures p < |s| ==> closed
  {
    if p < |s| {
      assert t[p] == t[p..|s|][0] == s[p];
    }
  }

  lemma Stopped(t: string, s: string, p: nat, delimiter: char)
    requires p < |s| < |t| && t[p..|s|] == s[p..] && t[|s|] == '\0' && delimiter != '\0'
    ensures var q := p + |First(s[p..], delimiter)|; q <= |s| && (t[q] == delimiter <==> q < |s|)
  {
    var q := p + |First(s[p..], delimiter)|;
    if q < |s| {
      assert t[q] == t[p..|s|][q - p] == s[p..][q - p];
    }
  }

  lemma {:induction false} ArgumentsHaveNoEnd(s: string, delimiter: char, max: nat)
    requires '\0' !in s
    ensures forall j :: 0 <= j < |Arguments(s, delimiter, max)| ==> '\0' !in Arguments(s, delimiter, max)[j]
    decreases max
  {
    if max > 0 && s != "" {
      var f := First(s, delimiter);
      if |f| < |s| {
        ArgumentsHaveNoEnd(s[|f| + 1..], delimiter, max - 1);
      }
    }
  }

  /** The loop of GetDelimArgs. */
  method MarkArguments(line: array<char>, delimiter: char, max: nat, ghost s: string) returns (closed: nat, argv: seq<nat>)
    requires HoldsAt(line[..], 0, s) && s != "" && '\0' !in s && delimiter != '\0' && max > 0
    modifies line
    ensures |s| <= line.Length && line[..] == Cleared(s, delimiter, max) + old(line[|s|..])
    ensures 0 < |argv| == |Arguments(s, delimiter, max)| && argv == Places(s, delimiter, max, 0)
    ensures closed <= |argv| && (closed == |argv| <==> Closed(s, delimiter, max))
    ensures forall j :: 0 <= j < |argv| ==> HoldsAt(line[..], argv[j], Arguments(s, delimiter, max)[j])
  {
    hide *;
    StandsAtStart(line[..], s, delimiter, max);
    ghost var tail := line[|s|..];
    var p, i := 0, 0;
    closed, argv := 0, [];
    ghost var args: seq<string> := [];
    while i < max
      invariant i == |args| <= max && (closed == i || (closed == i - 1 && p == |s|)) && p <= |s|
      invariant |argv| == i && (i == 0 ==> p == 0)
      invariant Stands(line[..], tail, s, delimiter, max, p, argv, args, closed == i)
    {
      StandsStill(line[..], tail, s, delimiter, max, p, argv, args, closed == i);
      if line[p] == '\0' {
        break;
      }
      ghost var t, from, f, before := line[..], p, First(s[p..], delimiter), argv;
      argv := argv + [p];
      Stopped(t, s, p, delimiter);
      p := ScanArgument(line, p, delimiter, s);
      if line[p] == delimiter {
        closed := closed + 1;
        line[p] := '\0';
        StandsCloses(t, line[..], tail, s, delimiter, max, from, before, args);
        p := p + 1;
      } else {
        StandsEnds(t, tail, s, delimiter, max, from, before, args);
      }
      args := args + [f];
      i := i + 1;
    }
    StandsStill(line[..], tail, s, delimiter, max, p, argv, args, closed == i);
    StandsAtEnd(line[..], tail, s, delimiter, max, p, argv, args, closed == i);
  }

  method GetDelimArgs(line: array<char>, delimiter: char, max: nat) returns (n: int, argv: seq<nat>)
    requires '\0' in line[..] && delimiter != '\0' && max > 0
    modifies line
    ensures line[..] == Cut(old(line[..]), delimiter, max)
    ensures var s := Trimmed(CText(old(line[..])), delimiter);
            && n == Count(s, delimiter, max) <= |argv| && argv == Places(s, delimiter, max, 0)
            && forall j :: 0 <= j < n ==> HoldsAt(line[..], argv[j], Arguments(s, delimiter, max)[j])
  {
    hide *;
    ghost var text := CText(line[..]);
    var length := Length(line);
    NothingFound(delimiter, max);
    if length == 0 {
      NothingCut(line[..], delimiter, max);
      return 0, [];
    }
    ghost var s := TrimEnd(line, delimiter, text);
    var closed;
    closed, argv := MarkArguments(line, delimiter, max, s);
    CutIs(old(line[..]), line[..], s, delimiter, max);
    ArgumentsHaveNoEnd(s, delimiter, max);
    CountIs(s, delimiter, max);
    n := |argv|;
    var lastArgOk := HasText(line, argv[n - 1], Arguments(s, delimiter, max)[n - 1]);
    if !lastArgOk && closed < n {
      n := n - 1;
    }
  }

  lemma CountIs(s: string, delimiter: char, max: nat)
    ensures var args := Arguments(s, delimiter, max);
            Count(s, delimiter, max) ==
            if args != [] && !Closed(s, delimiter, max) && IsBlank(args[|args| - 1]) then |args| - 1 else |args|
  {}
}
