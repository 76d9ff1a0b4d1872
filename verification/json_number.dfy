/** Numbers (RFC 8259, section 6). The ten-state reader of librtcommon/rt_json.cpp against the grammar. */
module JsonNumber {
  import opened Chars
  import opened JsonScan
  import opened JsonValues

  /** Steps that a state can take without consuming a character. */
  function Rank(state: nat): nat {
    if state == 0 then 5 else if state == 1 then 4 else if state == 3 then 3
    else if state == 2 || state == 5 || state == 7 then 2 else 1
  }

  /** The text behind the first character. */
  function Behind(t: string): (r: string)
    requires Ended(t)
    ensures Ended(r) && (t[0] != '\0' ==> r == t[1..])
  {
    if t[0] == '\0' then t else LeftOfOne(t); t[1..]
  }

  /** Whether the reader succeeds from `state`, and the text it leaves. */
  function Read(state: nat, t: string): (r: (bool, string))
    requires Ended(t) && state <= 9
    ensures Ended(r.1) && |r.1| <= |t|
    decreases |t|, Rank(state)
  {
    hide Ended;
    var c, u := t[0], Behind(t);
    match state
    case 0 => if c == '-' then Read(1, u) else Read(1, t)
    case 1 => if c == '0' then Read(2, u) else if IsDigit(c) then Read(3, t) else (false, t)
    case 2 => if c == '.' then Read(4, u) else if IsDigit(c) then (false, t) else Read(6, t)
    case 3 => if IsDigit(c) then Read(3, u) else Read(2, t)
    case 4 => if IsDigit(c) then Read(5, u) else (false, t)
    case 5 => if IsDigit(c) then Read(5, u) else Read(6, t)
    case 6 => if c == 'E' || c == 'e' then Read(7, u) else (true, t)
    case 7 => if c == '+' || c == '-' then Read(8, u) else Read(8, t)
    case 8 => if IsDigit(c) then Read(9, u) else (false, t)
    case _ => if IsDigit(c) then Read(9, u) else (true, t)
  }

  /** The text is left where a reading of `t` from `state` stops. */
  method GetNumber(buf: array<char>, start: nat) returns (p: nat, ok: bool)
    requires start <= buf.Length && Ended(At(buf, start))
    ensures start <= p < buf.Length && (ok, At(buf, p)) == Read(0, At(buf, start))
  {
    hide Ended, LeftOf, At;
    p := start;
    var state := 0;
    var endFound, errorFound := false, false;
    while !endFound && !errorFound
      invariant start <= p < buf.Length && Ended(At(buf, p)) && state <= 9 && !(endFound && errorFound)
      invariant Read(0, At(buf, start)) == if endFound || errorFound then (endFound, At(buf, p)) else Read(state, At(buf, p))
      decreases !endFound && !errorFound, buf.Length - p, Rank(state)
    {
      var c := buf[p];
      if c != '\0' {
        StepAt(buf, p);
      }
      match state
      case 0 =>
        if c == '-' {
          p := p + 1;
        }
        state := 1;
      case 1 =>
        if c == '0' {
          p, state := p + 1, 2;
        } else if '1' <= c <= '9' {
          state := 3;
        } else {
          errorFound := true;
        }
      case 2 =>
        if c == '.' {
          p, state := p + 1, 4;
        } else if IsDigit(c) {
          errorFound := true;
        } else {
          state := 6;
        }
      case 3 =>
        if IsDigit(c) {
          p := p + 1;
        } else {
          state := 2;
        }
      case 4 =>
        if IsDigit(c) {
          p, state := p + 1, 5;
        } else {
          errorFound := true;
        }
      case 5 =>
        if IsDigit(c) {
          p := p + 1;
        } else {
          state := 6;
        }
      case 6 =>
        if c == 'E' || c == 'e' {
          p, state := p + 1, 7;
        } else {
          endFound := true;
        }
      case 7 =>
        if c == '+' || c == '-' {
          p := p + 1;
        }
        state := 8;
      case 8 =>
        if IsDigit(c) {
          p, state := p + 1, 9;
        } else {
          errorFound := true;
        }
      case _ =>
        if IsDigit(c) {
          p := p + 1;
        } else {
          endFound := true;
        }
    }
    ok := endFound;
  }

  // ---------------------------------------------------------------- what it accepts

  /** No number that starts with `n` goes on into `rest`. */
  predicate Follows(n: Number, rest: string)
    requires rest != ""
  {
    var c := rest[0];
    && !IsDigit(c)
    && (n.exponent == "" ==> c != 'e' && c != 'E')
    && (n.exponent == "" && n.fraction == "" ==> c != '.')
  }

  lemma OneRead(state: nat, c: char, rest: string)
    requires Ended(rest) && state <= 9 && c != '\0'
    ensures Ended([c] + rest) && ([c] + rest)[0] == c && Behind([c] + rest) == rest
  {
    hide Ended;
    FirstAndRest(c, rest);
  }

  lemma {:induction false} DigitsRead(state: nat, s: string, rest: string)
    requires Ended(rest) && AllDigits(s) && (state == 3 || state == 5 || state == 9)
    ensures Ended(s + rest) && Read(state, s + rest) == Read(state, rest)
  {
    hide Ended, LeftOf;
    if s == "" {
      PrependEmpty(rest);
    } else {
      DigitsRead(state, s[1..], rest);
      SplitFirst(s, rest);
      OneRead(state, s[0], s[1..] + rest);
    }
  }

  lemma ExponentDigits(d: string, rest: string)
    requires Ended(rest) && d != "" && AllDigits(d)
    ensures Ended(d + rest) && Read(8, d + rest) == Read(9, rest) && Read(7, d + rest) == Read(9, rest)
  {
    hide Ended, LeftOf;
    DigitsRead(9, d[1..], rest);
    SplitFirst(d, rest);
    OneRead(8, d[0], d[1..] + rest);
  }

  lemma SignRead(sign: char, d: string, rest: string)
    requires Ended(rest) && d != "" && AllDigits(d) && (sign == '+' || sign == '-')
    ensures Ended([sign] + (d + rest)) && Read(7, [sign] + (d + rest)) == Read(9, rest)
  {
    hide Ended, LeftOf;
    ExponentDigits(d, rest);
    OneRead(7, sign, d + rest);
  }

  lemma ExponentRead(e: string, rest: string)
    requires Ended(rest) && IsExponent(e)
    ensures Ended(e + rest) && Read(6, e + rest) == Read(9, rest)
  {
    var tail := e[1..];
    var signed := |e| > 1 && (e[1] == '+' || e[1] == '-');
    var d := if signed then e[2..] else tail;
    assert signed ==> tail == [e[1]] + d;
    hide Ended, LeftOf, Read;
    ExponentDigits(d, rest);
    if signed {
      SignRead(e[1], d, rest);
      SplitFirst(tail, rest);
    }
    SplitFirst(e, rest);
    LetterRead(e[0], tail + rest);
  }

  lemma LetterRead(letter: char, rest: string)
    requires Ended(rest) && (letter == 'e' || letter == 'E')
    ensures Ended([letter] + rest) && Read(6, [letter] + rest) == Read(7, rest)
  {
    hide Ended, LeftOf;
    OneRead(6, letter, rest);
  }

  lemma FractionRead(f: string, rest: string)
    requires Ended(rest) && f != "" && f[0] == '.' && |f| > 1 && AllDigits(f[1..])
    ensures Ended(f + rest) && Read(2, f + rest) == Read(5, rest)
  {
    hide Ended, LeftOf;
    var d := f[1..];
    DigitsRead(5, d[1..], rest);
    SplitFirst(d, rest);
    OneRead(4, d[0], d[1..] + rest);
    SplitFirst(f, rest);
    OneRead(2, f[0], d + rest);
  }

  /** The state in which the reader is behind a number. */
  function LastState(n: Number): nat
    requires n.digits != ""
  {
    if n.exponent != "" then 9 else if n.fraction != "" then 5 else if n.digits[0] == '0' then 2 else 3
  }

  lemma DigitsOfNumber(n: Number, rest: string)
    requires Ended(rest) && n.digits != "" && AllDigits(n.digits) && (n.digits[0] == '0' ==> |n.digits| == 1)
    ensures Ended(n.digits + rest)
    ensures Read(1, n.digits + rest) == Read(if n.digits[0] == '0' then 2 else 3, rest)
  {
    hide Ended, LeftOf;
    var d := n.digits;
    SplitFirst(d, rest);
    if d[0] == '0' {
      assert d[1..] == "";
      PrependEmpty(rest);
      OneRead(1, d[0], rest);
    } else {
      DigitsRead(3, d, rest);
    }
  }

  /** What follows the digits can be read in state 2 as well as in state 3 if it is not a digit. */
  lemma TwoIsThree(t: string)
    requires Ended(t) && !IsDigit(t[0])
    ensures Read(3, t) == Read(2, t)
  {}

  lemma FromFive(e: string, rest: string)
    requires Ended(rest) && IsExponent(e)
    ensures Ended(e + rest) && Read(5, e + rest) == Read(9, rest) && Read(2, e + rest) == Read(9, rest) && !IsDigit((e + rest)[0])
  {
    hide LeftOf;
    ExponentRead(e, rest);
    assert (e + rest)[0] == e[0];
  }

  lemma TailRead(n: Number, state: nat, rest: string)
    requires IsNumber(n) && Ended(rest) && state == (if n.digits[0] == '0' then 2 else 3)
    ensures Ended(n.fraction + (n.exponent + rest))
    ensures Read(state, n.fraction + (n.exponent + rest)) == Read(LastState(n), rest)
  {
    hide Ended, LeftOf, Read, IsExponent, AllDigits;
    var x := n.exponent + rest;
    EndedBehind(n.exponent, rest);
    if n.exponent == "" {
      PrependEmpty(rest);
    } else {
      FromFive(n.exponent, rest);
    }
    if n.fraction == "" {
      PrependEmpty(x);
      if state == 3 && n.exponent != "" {
        TwoIsThree(x);
      }
    } else {
      FractionRead(n.fraction, x);
      assert (n.fraction + x)[0] == '.';
      TwoIsThree(n.fraction + x);
    }
  }

  /** Reading a number brings the reader behind it, whatever follows. */
  lemma NumberIsPassed(n: Number, rest: string)
    requires IsNumber(n) && Ended(rest)
    ensures Ended(NumberText(n) + rest) && Read(0, NumberText(n) + rest) == Read(LastState(n), rest)
  {
    var tail := n.fraction + (n.exponent + rest);
    assert NumberText(n) + rest == n.minus + (n.digits + tail);
    hide Ended, LeftOf, Read, NumberText;
    TailRead(n, if n.digits[0] == '0' then 2 else 3, rest);
    DigitsOfNumber(n, tail);
    MinusRead(n.minus, n.digits + tail);
  }

  lemma MinusRead(minus: string, rest: string)
    requires Ended(rest) && (minus == "" || minus == "-") && rest[0] != '-'
    ensures Ended(minus + rest) && Read(0, minus + rest) == Read(1, rest)
  {
    hide Ended, LeftOf;
    if minus == "" {
      PrependEmpty(rest);
    } else {
      OneRead(0, '-', rest);
    }
  }

  // ---------------------------------------------------------------- and nothing else

  lemma {:induction false} ReadDigits(t: string, state: nat) returns (d: string, rest: string)
    requires Ended(t) && (state == 3 || state == 5 || state == 9)
    ensures t == d + rest && AllDigits(d) && Ended(rest) && !IsDigit(rest[0]) && Read(state, t) == Read(state, rest)
    decreases |t|
  {
    hide Ended, LeftOf;
    if IsDigit(t[0]) {
      assert Ended(t[1..]) by { LeftOfOne(t); }
      d, rest := ReadDigits(t[1..], state);
      d := [t[0]] + d;
    } else {
      d, rest := "", t;
    }
  }

  lemma ReadOn(t: string)
    requires Ended(t) && t[0] != '\0'
    ensures Ended(t[1..]) && Behind(t) == t[1..] && t == [t[0]] + t[1..]
  {
    LeftOfOne(t);
  }

  lemma ReadExponent(t: string) returns (e: string, rest: string)
    requires Ended(t) && Read(6, t).0
    ensures t == e + rest && Ended(rest) && Read(6, t).1 == rest
    ensures if e == "" then rest[0] != 'e' && rest[0] != 'E' else IsExponent(e) && !IsDigit(rest[0])
  {
    hide Ended, LeftOf;
    if t[0] != 'e' && t[0] != 'E' {
      e, rest := "", t;
    } else {
      ReadOn(t);
      var u := t[1..];
      var sign := "";
      if u[0] == '+' || u[0] == '-' {
        ReadOn(u);
        sign, u := [u[0]], u[1..];
      }
      var d;
      d, rest := ReadExponentDigits(u);
      e := [t[0]] + (sign + d);
      ExponentIs(t[0], sign, d);
      assert t[1..] == sign + u;
      Regroup3([t[0]], sign, d, rest);
    }
  }

  lemma ReadExponentDigits(u: string) returns (d: string, rest: string)
    requires Ended(u) && Read(8, u).0
    ensures u == d + rest && Ended(rest) && d != "" && AllDigits(d) && !IsDigit(rest[0]) && Read(8, u).1 == rest
  {
    hide Ended, LeftOf;
    ReadOn(u);
    d, rest := ReadDigits(u[1..], 9);
    d := [u[0]] + d;
  }

  lemma ExponentIs(letter: char, sign: string, d: string)
    requires (letter == 'e' || letter == 'E') && (sign == "" || sign == "+" || sign == "-") && d != "" && AllDigits(d)
    ensures IsExponent([letter] + (sign + d))
  {
    var e := [letter] + (sign + d);
    assert e[1..] == sign + d;
    if sign != "" {
      assert e[2..] == d;
    }
  }

  lemma ReadFraction(t: string) returns (f: string, e: string, rest: string)
    requires Ended(t) && Read(2, t).0
    ensures t == f + (e + rest) && Ended(rest) && Read(2, t).1 == rest
    ensures f == "" || (f[0] == '.' && |f| > 1 && AllDigits(f[1..]))
    ensures e == "" || IsExponent(e)
    ensures !IsDigit(rest[0]) && (e == "" ==> rest[0] != 'e' && rest[0] != 'E') && (e == "" && f == "" ==> rest[0] != '.')
  {
    hide Ended, LeftOf, IsExponent;
    if t[0] != '.' {
      e, rest := ReadExponent(t);
      f := "";
      PrependEmpty(e + rest);
      if e == "" {
        PrependEmpty(rest);
      }
    } else {
      ReadOn(t);
      var u := t[1..];
      ReadOn(u);
      var d, x := ReadDigits(u[1..], 5);
      e, rest := ReadExponent(x);
      f := "." + ([u[0]] + d);
      FractionIs(u[0], d);
      if e == "" {
        PrependEmpty(rest);
      }
      Regroup3(".", [u[0]], d, x);
      assert u == [u[0]] + (d + x);
    }
  }

  lemma FractionIs(c: char, d: string)
    requires IsDigit(c) && AllDigits(d)
    ensures var f := "." + ([c] + d); f[0] == '.' && |f| > 1 && AllDigits(f[1..])
  {
    var f := "." + ([c] + d);
    assert f[1..] == [c] + d;
  }

  lemma ReadInteger(t: string) returns (n: Number, rest: string)
    requires Ended(t) && Read(1, t).0
    ensures n.minus == "" && IsNumber(n) && t == NumberText(n) + rest && Ended(rest) && Follows(n, rest) && Read(1, t).1 == rest
  {
    hide Ended, LeftOf, IsExponent, AllDigits;
    var d, f, e;
    if t[0] == '0' {
      ReadOn(t);
      f, e, rest := ReadFraction(t[1..]);
      d := "0";
      assert AllDigits(d) by { OneDigit('0'); }
    } else {
      var x;
      d, x := ReadDigits(t, 3);
      if d == "" {
        PrependEmpty(x);
      }
      TwoIsThree(x);
      f, e, rest := ReadFraction(x);
      FirstOf(d, x);
    }
    n := Number("", d, f, e);
    assert t == d + (f + (e + rest));
    PrependEmpty(d);
    Regroup3(d, f, e, rest);
    Joins(d, f, e);
  }

  lemma OneDigit(c: char)
    requires IsDigit(c)
    ensures AllDigits([c])
  {}

  lemma FirstOf(d: string, x: string)
    ensures d != "" ==> (d + x)[0] == d[0]
  {}

  lemma Joins(d: string, f: string, e: string)
    ensures "" + d + f + e == d + (f + e)
  {}

  /** A number at the start of a text, and what no number goes on into. */
  ghost predicate StartsNumber(t: string, n: Number, rest: string) {
    IsNumber(n) && t == NumberText(n) + rest && Ended(rest) && Follows(n, rest)
  }

  lemma ReadStops(n: Number, rest: string)
    requires IsNumber(n) && Ended(rest) && Follows(n, rest)
    ensures Read(LastState(n), rest) == (true, rest)
  {
    if n.exponent == "" {
      assert Read(6, rest) == (true, rest);
      if n.fraction == "" {
        assert Read(2, rest) == (true, rest);
      }
    }
  }

  lemma ReadIsNumber(t: string) returns (n: Number, rest: string)
    requires Ended(t) && Read(0, t).0
    ensures StartsNumber(t, n, rest)
  {
    hide Ended, LeftOf, IsExponent, AllDigits;
    if t[0] == '-' {
      ReadOn(t);
      n, rest := ReadInteger(t[1..]);
      assert "-" + NumberText(n) == NumberText(n.(minus := "-")) by { Signed(n.digits, n.fraction, n.exponent); }
      Regroup2("-", NumberText(n), rest);
      n := n.(minus := "-");
    } else {
      n, rest := ReadInteger(t);
    }
  }

  lemma Signed(d: string, f: string, e: string)
    ensures "-" + ("" + d + f + e) == "-" + d + f + e
  {}

  /** The reader succeeds exactly on the texts that start with a number of the grammar and with nothing that a longer one
      could start with; and it stops right behind that number. */
  lemma ReadsNumbers(t: string)
    requires Ended(t)
    ensures Read(0, t).0 <==> exists n: Number, rest: string :: StartsNumber(t, n, rest)
    ensures forall n: Number, rest: string :: StartsNumber(t, n, rest) ==> Read(0, t) == (true, rest)
  {
    hide Ended, LeftOf, IsNumber, NumberText, Read, Follows;
    forall n: Number, rest: string | StartsNumber(t, n, rest) ensures Read(0, t) == (true, rest) {
      NumberIsPassed(n, rest);
      ReadStops(n, rest);
    }
    if Read(0, t).0 {
      var n, rest := ReadIsNumber(t);
      assert StartsNumber(t, n, rest);
    }
  }

  /** No number that the text starts with is longer than the one that is read. */
  lemma ReadsTheLongest(t: string, n: Number, rest: string)
    requires Ended(rest) && IsNumber(n) && t == NumberText(n) + rest
    ensures Ended(t) && |Read(0, t).1| <= |rest|
  {
    hide Ended, IsNumber, NumberText, Read;
    NumberIsPassed(n, rest);
    DigitsThere(n);
  }

  lemma DigitsThere(n: Number)
    requires IsNumber(n)
    ensures n.digits != ""
  {}
}
