/** The JSON scanner (librtcommon/rt_json.cpp). A position in a NUL-terminated buffer is modelled by the text from
    there on; the methods work on the buffer itself and are proved to end where the functions say. */
module JsonScan {
  import opened Chars

  // ---------------------------------------------------------------- texts and positions

  /** A text with a terminator in it. */
  predicate Ended(t: string): (ended: bool)
    ensures ended ==> t != []
  {
    '\0' in t
  }

  /** `r` is what is left of `t` after some characters that are not terminators. */
  predicate LeftOf(r: string, t: string): (left: bool)
    ensures left ==> |r| <= |t| && (Ended(t) ==> Ended(r))
  {
    |r| <= |t| && r == t[|t| - |r|..] && '\0' !in t[..|t| - |r|] && (Ended(t) ==> Ended(r))
  }

  lemma LeftOfOne(t: string)
    requires Ended(t) && t[0] != '\0'
    ensures LeftOf(t[1..], t)
  {
    assert t == [t[0]] + t[1..];
  }

  lemma LeftOfSelf(t: string)
    ensures LeftOf(t, t)
  {}

  lemma LeftOfChain(r: string, s: string, t: string)
    requires LeftOf(r, s) && LeftOf(s, t)
    ensures LeftOf(r, t)
  {
    assert t[..|t| - |r|] == t[..|t| - |s|] + s[..|s| - |r|];
  }

  predicate InNumber(c: char) {
    IsDigit(c) || c == '-' || c == 'e' || c == '+' || c == '.'
  }

  // ---------------------------------------------------------------- skipping

  function SkipSpaces(t: string): (r: string)
    requires Ended(t)
    ensures LeftOf(r, t) && r != [] && !IsSpace(r[0])
    decreases |t|
  {
    if IsSpace(t[0]) then
      LeftOfOne(t);
      LeftOfChain(SkipSpaces(t[1..]), t[1..], t);
      SkipSpaces(t[1..])
    else t
  }

  function SkipNumber(t: string): (r: string)
    requires Ended(t)
    ensures LeftOf(r, t) && r != [] && !InNumber(r[0])
    decreases |t|
  {
    if InNumber(t[0]) then
      LeftOfOne(t);
      LeftOfChain(SkipNumber(t[1..]), t[1..], t);
      SkipNumber(t[1..])
    else t
  }

  /** From inside a string to behind its closing quote, or to the terminator. */
  function InString(t: string): (r: string)
    requires Ended(t)
    ensures LeftOf(r, t)
    decreases |t|
  {
    if t[0] == '\0' then t else
    LeftOfOne(t);
    var u := t[1..];
    if t[0] == '"' then u
    else if t[0] == '\\' && u[0] != '\0' then
      LeftOfOne(u);
      LeftOfChain(u[1..], u, t);
      LeftOfChain(InString(u[1..]), u[1..], t);
      InString(u[1..])
    else
      LeftOfChain(InString(u), u, t);
      InString(u)
  }

  /** One turn of the loop that looks for the end of an object or array. */
  function Past(t: string): (r: string)
    requires Ended(t) && t[0] != '\0'
    ensures LeftOf(r, t) && |r| < |t|
  {
    LeftOfOne(t);
    if t[0] == '"' then LeftOfChain(InString(t[1..]), t[1..], t); InString(t[1..]) else t[1..]
  }

  function Opens(t: string, open: char, close: char): int
    requires t != []
  {
    if t[0] == open then 1 else if t[0] == close then -1 else 0
  }

  /** To where as many brackets and braces are closed as are open. */
  function SkipNested(t: string, objects: int, arrays: int): (r: string)
    requires Ended(t)
    ensures LeftOf(r, t)
    decreases |t|
  {
    if t[0] == '\0' then t else
    var u := Past(t);
    var o, a := objects + Opens(t, '{', '}'), arrays + Opens(t, '[', ']');
    if o == 0 && a == 0 then u else
      LeftOfChain(SkipNested(u, o, a), u, t);
      SkipNested(u, o, a)
  }

  function SkipObjectArray(t: string): (r: string)
    requires Ended(t)
    ensures LeftOf(r, t)
  {
    var u := SkipSpaces(t);
    if u[0] != '{' && u[0] != '[' then u else
      LeftOfChain(SkipNested(u, 0, 0), u, t);
      SkipNested(u, 0, 0)
  }

  /** One of the three words at the start of a text, or nothing. */
  function Word(t: string): (w: string)
    ensures w <= t && '\0' !in w
  {
    if "null" <= t then "null" else if "true" <= t then "true" else if "false" <= t then "false" else ""
  }

  lemma LeftOfPrefix(w: string, t: string)
    requires w <= t && '\0' !in w
    ensures LeftOf(t[|w|..], t)
  {
    assert t == w + t[|w|..];
  }

  function ValueFrom(t: string): (r: string)
    requires Ended(t)
    ensures LeftOf(r, t)
    decreases |t|
  {
    if t[0] == '\0' then t
    else if t[0] == '-' || IsDigit(t[0]) then SkipNumber(t)
    else if Word(t) != "" then LeftOfPrefix(Word(t), t); t[|Word(t)|..]
    else if t[0] == '"' then Past(t)
    else if t[0] == '{' || t[0] == '[' then SkipObjectArray(t)
    else
      LeftOfOne(t);
      LeftOfChain(ValueFrom(t[1..]), t[1..], t);
      ValueFrom(t[1..])
  }

  function SkipValue(t: string): (r: string)
    requires Ended(t)
    ensures LeftOf(r, t)
  {
    LeftOfChain(ValueFrom(SkipSpaces(t)), SkipSpaces(t), t);
    ValueFrom(SkipSpaces(t))
  }

  /** Behind any spaces and at most one `c`, and whether that was there. */
  function SkipOne(t: string, c: char, found: bool): (r: (string, bool))
    requires Ended(t) && c != '\0'
    ensures LeftOf(r.0, t) && (found ==> r.1) && (r.1 && !found ==> |r.0| < |t|)
    decreases |t|
  {
    if (t[0] == c && !found) || IsSpace(t[0]) then
      LeftOfOne(t);
      var r := SkipOne(t[1..], c, found || t[0] == c);
      LeftOfChain(r.0, t[1..], t);
      r
    else (t, found)
  }

  // ---------------------------------------------------------------- the methods that only move

  /** The text from `p` on. */
  ghost function At(buf: array<char>, p: nat): (t: string)
    requires p <= buf.Length
    reads buf
    ensures |t| == buf.Length - p && (p < buf.Length ==> t[0] == buf[p])
  {
    buf[p..]
  }

  lemma StepAt(buf: array<char>, p: nat)
    requires p < buf.Length && Ended(At(buf, p)) && buf[p] != '\0'
    ensures p + 1 < buf.Length && At(buf, p + 1) == At(buf, p)[1..] && Ended(At(buf, p + 1))
  {
    LeftOfOne(At(buf, p));
  }

  lemma StepsAt(buf: array<char>, p: nat, k: nat)
    requires p + k <= buf.Length
    ensures At(buf, p + k) == At(buf, p)[k..]
  {}

  lemma AtLeft(buf: array<char>, p: nat, r: string)
    requires p <= buf.Length && Ended(At(buf, p)) && LeftOf(r, At(buf, p))
    ensures Ended(r) && |r| <= buf.Length - p && r == At(buf, buf.Length - |r|)
  {}

  /** The start of the next token, as the loops over isspace find it. */
  method PassSpaces(buf: array<char>, start: nat) returns (p: nat)
    requires start <= buf.Length && Ended(At(buf, start))
    ensures start <= p < buf.Length && At(buf, p) == SkipSpaces(At(buf, start))
  {
    hide Ended, LeftOf, At;
    p := start;
    while IsSpace(buf[p])
      invariant start <= p < buf.Length && Ended(At(buf, p)) && SkipSpaces(At(buf, p)) == SkipSpaces(At(buf, start))
      decreases buf.Length - p
    {
      StepAt(buf, p);
      p := p + 1;
    }
  }

  method PassNumber(buf: array<char>, start: nat) returns (p: nat)
    requires start <= buf.Length && Ended(At(buf, start))
    ensures start <= p < buf.Length && At(buf, p) == SkipNumber(At(buf, start))
  {
    hide Ended, LeftOf, At;
    p := start;
    while true
      invariant start <= p < buf.Length && Ended(At(buf, p)) && SkipNumber(At(buf, p)) == SkipNumber(At(buf, start))
      decreases buf.Length - p
    {
      if InNumber(buf[p]) {
        StepAt(buf, p);
        p := p + 1;
      } else {
        break;
      }
    }
  }

  method PassString(buf: array<char>, start: nat) returns (p: nat)
    requires start < buf.Length && Ended(At(buf, start + 1))
    ensures start < p < buf.Length && At(buf, p) == InString(At(buf, start + 1)) && Ended(At(buf, p))
  {
    hide Ended, LeftOf, At;
    p := start + 1;
    while true
      invariant start < p < buf.Length && Ended(At(buf, p)) && InString(At(buf, p)) == InString(At(buf, start + 1))
      decreases buf.Length - p
    {
      if buf[p] == '"' {
        StepAt(buf, p);
        p := p + 1;
        return;
      } else if buf[p] == '\0' {
        return;
      } else if buf[p] == '\\' {
        StepAt(buf, p);
        p := p + 1;
        if buf[p] != '\0' {
          StepAt(buf, p);
          p := p + 1;
        }
      } else {
        StepAt(buf, p);
        p := p + 1;
      }
    }
  }

  lemma SkipObjectArrayIs(t: string)
    requires Ended(t)
    ensures var u := SkipSpaces(t); SkipObjectArray(t) == if u[0] != '{' && u[0] != '[' then u else SkipNested(u, 0, 0)
  {}

  method PassObjectArray(buf: array<char>, start: nat) returns (p: nat)
    requires start <= buf.Length && Ended(At(buf, start))
    ensures start <= p < buf.Length && At(buf, p) == SkipObjectArray(At(buf, start))
  {
    hide Ended, LeftOf, At, SkipSpaces, InString, SkipObjectArray, SkipNested, Past;
    ghost var end := SkipObjectArray(At(buf, start));
    AtLeft(buf, start, SkipSpaces(At(buf, start)));
    SkipObjectArrayIs(At(buf, start));
    p := PassSpaces(buf, start);
    if buf[p] != '{' && buf[p] != '[' {
      return;
    }
    var objects, arrays := 0, 0;
    while true
      invariant start <= p < buf.Length && Ended(At(buf, p))
      invariant SkipNested(At(buf, p), objects, arrays) == end
      decreases buf.Length - p
    {
      ghost var t := At(buf, p);
      NestedTurn(t, objects, arrays);
      if buf[p] == '\0' {
        return;
      }
      StepAt(buf, p);
      PastString(t);
      if buf[p] == '"' {
        p := PassString(buf, p);
      } else if buf[p] == '[' {
        arrays := arrays + 1;
        p := p + 1;
      } else if buf[p] == ']' {
        arrays := arrays - 1;
        p := p + 1;
      } else if buf[p] == '{' {
        objects := objects + 1;
        p := p + 1;
      } else if buf[p] == '}' {
        objects := objects - 1;
        p := p + 1;
      } else {
        p := p + 1;
      }
      assert At(buf, p) == Past(t);
      if arrays == 0 && objects == 0 {
        return;
      }
    }
  }

  lemma NestedTurn(t: string, objects: int, arrays: int)
    requires Ended(t)
    ensures t[0] == '\0' ==> SkipNested(t, objects, arrays) == t
    ensures t[0] != '\0' ==>
              var o, a := objects + Opens(t, '{', '}'), arrays + Opens(t, '[', ']');
              SkipNested(t, objects, arrays) == if o == 0 && a == 0 then Past(t) else SkipNested(Past(t), o, a)
  {}

  /** Whether the text at `p` starts with `w`, as strncmp tells. */
  method StartsWith(buf: array<char>, p: nat, w: string) returns (same: bool)
    requires p <= buf.Length && Ended(At(buf, p)) && '\0' !in w
    ensures same <==> w <= At(buf, p)
  {
    var i := 0;
    while i < |w|
      invariant 0 <= i <= |w| && p + i <= buf.Length && w[..i] <= At(buf, p)
    {
      EndedAfter(At(buf, p), i);
      if buf[p + i] != w[i] {
        assert At(buf, p)[i] != w[i];
        return false;
      }
      i := i + 1;
    }
    assert w[..|w|] == w;
    return true;
  }

  lemma EndedAfter(t: string, i: nat)
    requires Ended(t) && i <= |t| && '\0' !in t[..i]
    ensures i < |t|
  {
    assert t == t[..i] + t[i..];
  }

  /** The length of the word null, true or false at `p`, or zero. */
  method WordLength(buf: array<char>, p: nat) returns (n: nat)
    requires p <= buf.Length && Ended(At(buf, p))
    ensures n == |Word(At(buf, p))|
  {
    hide Ended, At;
    var none := StartsWith(buf, p, "null");
    if none {
      return 4;
    }
    var yes := StartsWith(buf, p, "true");
    if yes {
      return 4;
    }
    var no := StartsWith(buf, p, "false");
    if no {
      return 5;
    }
    return 0;
  }

  lemma ValueTurn(t: string)
    requires Ended(t)
    ensures t[0] != '\0' ==> Ended(t[1..])
    ensures ValueFrom(t) == if t[0] == '\0' then t else if t[0] == '-' || IsDigit(t[0]) then SkipNumber(t)
                            else if Word(t) != "" then t[|Word(t)|..]
                            else if t[0] == '"' then InString(t[1..])
                            else if t[0] == '{' || t[0] == '[' then SkipObjectArray(t) else ValueFrom(t[1..])
    ensures Word(t) == if "null" <= t then "null" else if "true" <= t then "true" else if "false" <= t then "false" else ""
  {
    if t[0] != '\0' {
      PastString(t);
    }
  }

  lemma SkipValueIs(t: string)
    requires Ended(t)
    ensures SkipValue(t) == ValueFrom(SkipSpaces(t))
  {}

  method PassValue(buf: array<char>, start: nat) returns (p: nat)
    requires start <= buf.Length && Ended(At(buf, start))
    ensures start <= p < buf.Length && At(buf, p) == SkipValue(At(buf, start))
  {
    hide *;
    ghost var end := SkipValue(At(buf, start));
    AtLeft(buf, start, SkipSpaces(At(buf, start)));
    SkipValueIs(At(buf, start));
    p := PassSpaces(buf, start);
    while true
      invariant start <= p < buf.Length && Ended(At(buf, p)) && ValueFrom(At(buf, p)) == end
      decreases buf.Length - p
    {
      ValueTurn(At(buf, p));
      if buf[p] == '\0' {
        return;
      } else if buf[p] == '-' || IsDigit(buf[p]) {
        p := PassNumber(buf, p);
        return;
      }
      BehindWord(buf, p);
      var word := WordLength(buf, p);
      if word != 0 {
        p := p + word;
        return;
      }
      if buf[p] == '"' {
        StepAt(buf, p);
        p := PassString(buf, p);
        return;
      } else if buf[p] == '{' {
        p := PassObjectArray(buf, p);
        return;
      } else if buf[p] == '[' {
        p := PassObjectArray(buf, p);
        return;
      } else {
        StepAt(buf, p);
        p := p + 1;
      }
    }
  }

  lemma PastString(t: string)
    requires Ended(t) && t[0] != '\0'
    ensures Ended(t[1..]) && Past(t) == if t[0] == '"' then InString(t[1..]) else t[1..]
  {
    LeftOfOne(t);
  }

  lemma BehindWord(buf: array<char>, p: nat)
    requires p < buf.Length && Ended(At(buf, p))
    ensures var n := |Word(At(buf, p))|; p + n < buf.Length && At(buf, p + n) == At(buf, p)[n..]
  {
    var w := Word(At(buf, p));
    EndedAfter(At(buf, p), |w|);
    StepsAt(buf, p, |w|);
  }

  method PassColon(buf: array<char>, start: nat) returns (p: nat, found: bool)
    requires start <= buf.Length && Ended(At(buf, start))
    ensures start <= p < buf.Length && (At(buf, p), found) == SkipOne(At(buf, start), ':', false)
  {
    hide Ended, LeftOf, At;
    p, found := start, false;
    while true
      invariant start <= p < buf.Length && Ended(At(buf, p))
      invariant SkipOne(At(buf, p), ':', found) == SkipOne(At(buf, start), ':', false)
      decreases buf.Length - p
    {
      if buf[p] == ':' && !found {
        StepAt(buf, p);
        found := true;
        p := p + 1;
      } else if IsSpace(buf[p]) {
        StepAt(buf, p);
        p := p + 1;
      } else {
        return;
      }
    }
  }
}
