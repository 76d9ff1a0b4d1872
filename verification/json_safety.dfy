/** Cutting any buffer, well-formed or not. The cutting of arrays and objects never looks behind the terminator, and
    of what it has passed it changes nothing but white space, commas and the closing character. */
module JsonSafety {
  import opened Chars
  import opened JsonScan
  import opened JsonSplit

  /** Only white space, commas and the closing character have been made NULs, and nothing at or behind the point that
      was reached; and that point was reached without passing a NUL. */
  predicate CutOnly(t: string, text: string, close: char, left: nat) {
    && |text| == |t| && left <= |t|
    && (forall i :: 0 <= i < |t| ==> MayBecome(t[i], text[i], close))
    && text[|t| - left..] == t[|t| - left..]
    && '\0' !in t[..|t| - left]
  }

  predicate MayBecome(before: char, after: char, close: char) {
    after == before || (after == '\0' && (IsSpace(before) || before == ',' || before == close))
  }

  predicate AllSeparators(s: string) {
    forall i :: 0 <= i < |s| ==> IsSpace(s[i]) || s[i] == ','
  }

  lemma {:induction false} SkippedSeparators(t: string, found: bool)
    requires Ended(t)
    ensures var r := SkipOne(t, ',', found).0; |r| <= |t| && AllSeparators(Before(t, r))
    decreases |t|
  {
    hide LeftOf, Ended;
    if (t[0] == ',' && !found) || IsSpace(t[0]) {
      LeftOfOne(t);
      SkippedSeparators(t[1..], found || t[0] == ',');
      var r := SkipOne(t, ',', found).0;
      assert Before(t, r) == [t[0]] + Before(t[1..], r);
    }
  }

  lemma CutSelf(t: string, close: char, r: string)
    requires LeftOf(r, t)
    ensures CutOnly(t, t, close, |r|)
  {}

  lemma CutClosing(t: string, u: string, close: char)
    requires LeftOf(u, t) && u != [] && u[0] == close && close != '\0'
    ensures CutOnly(t, Cat(Before(t, u), Cat("\0", u[1..])), close, |u| - 1)
  {
    var text := Cat(Before(t, u), Cat("\0", u[1..]));
    assert t == Before(t, u) + u && u == [u[0]] + u[1..];
    assert text == (Before(t, u) + "\0") + u[1..];
    assert t == (Before(t, u) + [close]) + u[1..];
  }

  lemma CutKept(kept: string, x: string, text: string, close: char, left: nat)
    requires '\0' !in kept && CutOnly(x, text, close, left)
    ensures CutOnly(kept + x, Cat(kept, text), close, left)
  {
    var t, all, n := kept + x, kept + text, |kept|;
    forall i | 0 <= i < |t| ensures MayBecome(t[i], all[i], close) {
      if i >= n {
        assert MayBecome(x[i - n], text[i - n], close);
      }
    }
    assert all[|t| - left..] == text[|x| - left..] && t[|t| - left..] == x[|x| - left..];
    assert t[..|t| - left] == kept + x[..|x| - left];
  }

  lemma CutGone(gone: string, x: string, text: string, close: char, left: nat)
    requires AllSeparators(gone) && CutOnly(x, text, close, left)
    ensures CutOnly(gone + x, Cat(Nuls(|gone|), text), close, left)
  {
    var t, all, n := gone + x, Nuls(|gone|) + text, |gone|;
    forall i | 0 <= i < |t| ensures MayBecome(t[i], all[i], close) {
      if i >= n {
        assert MayBecome(x[i - n], text[i - n], close);
      }
    }
    assert all[|t| - left..] == text[|x| - left..] && t[|t| - left..] == x[|x| - left..];
    assert t[..|t| - left] == gone + x[..|x| - left];
  }

  lemma BeforeAnd(t: string, u: string)
    requires LeftOf(u, t)
    ensures Before(t, u) + u == t && '\0' !in Before(t, u)
  {}

  lemma CutStep(t: string, u: string, w: string, x: string, text: string, close: char, left: nat)
    requires LeftOf(u, t) && LeftOf(w, u) && LeftOf(x, w) && AllSeparators(Before(w, x))
    requires CutOnly(x, text, close, left)
    ensures CutOnly(t, Cat(Replaced(t, u, w, x), text), close, left)
  {
    var a, b, c := Before(t, u), Before(u, w), Nuls(|w| - |x|);
    ReplacedIs(t, u, w, x);
    hide *;
    BeforeAnd(t, u);
    BeforeAnd(u, w);
    BeforeAnd(w, x);
    BeforeLength(w, x);
    CutGone(Before(w, x), x, text, close, left);
    CutKept(b, w, Cat(c, text), close, left);
    CutKept(a, u, Cat(b, Cat(c, text)), close, left);
    CatAssociates(b, c, text);
    CatAssociates(a, Cat(b, c), text);
  }

  lemma ReplacedIs(t: string, u: string, w: string, x: string)
    requires |x| <= |w| <= |u| <= |t|
    ensures Replaced(t, u, w, x) == Cat(Before(t, u), Cat(Before(u, w), Nuls(|w| - |x|)))
  {
    hide Cat, Before;
  }

  lemma BeforeLength(w: string, x: string)
    requires |x| <= |w|
    ensures |Before(w, x)| == |w| - |x|
  {}

  /** On any terminated text the cutting of an array stops before passing a NUL, and changes only what it may. */
  lemma {:induction false} ArrayCutsOnly(t: string)
    requires Ended(t)
    ensures CutOnly(t, ArrayFrom(t).text, ']', ArrayFrom(t).left)
    decreases |t|
  {
    hide *;
    var u := SkipSpaces(t);
    if u[0] == ']' {
      ArrayEnds(t, u);
      CutClosing(t, u, ']');
    } else {
      var w := SkipValue(u);
      var (x, found) := SkipOne(w, ',', false);
      SkippedSeparators(w, false);
      ArrayGoesOn(t, u, w, x, found);
      if found || x[0] == ']' {
        ArrayCutsOnly(x);
        AddedText(|u|, Replaced(t, u, w, x), ArrayFrom(x));
        CutStep(t, u, w, x, ArrayFrom(x).text, ']', ArrayFrom(x).left);
      } else {
        AddedText(|u|, Replaced(t, u, w, x), Outcome(false, [], x, |x|));
        LeftOfSelf(x);
        CutSelf(x, ']', x);
        CutStep(t, u, w, x, x, ']', |x|);
      }
    }
  }

  lemma AddedText(field: nat, part: string, next: Outcome)
    ensures Added(field, part, next).text == Cat(part, next.text) && Added(field, part, next).left == next.left
  {}

  lemma {:induction false} ObjectCutsOnly(t: string)
    requires Ended(t)
    ensures CutOnly(t, ObjectFrom(t).text, '}', ObjectFrom(t).left)
    decreases |t|
  {
    hide *;
    var u := SkipSpaces(t);
    ObjectEnds(t, u);
    if u[0] == '}' {
      CutClosing(t, u, '}');
    } else if u[0] != '"' {
      CutSelf(t, '}', u);
    } else {
      var (k, colon) := SkipOne(Past(u), ':', false);
      NameEnds(u);
      if !colon {
        ObjectLacksColon(t, u, k);
        LeftOfChain(k, u, t);
        CutSelf(t, '}', k);
      } else {
        var w := SkipValue(k);
        var (x, found) := SkipOne(w, ',', false);
        LeftOfChain(w, k, u);
        SkippedSeparators(w, false);
        MemberIs(t, u, k, w, x, found);
        ObjectGoesOn(t, u, k, w, x, found);
        if found || x[0] == '}' {
          ObjectCutsOnly(x);
          AddedText(|u|, Replaced(t, u, w, x), ObjectFrom(x));
          CutStep(t, u, w, x, ObjectFrom(x).text, '}', ObjectFrom(x).left);
        } else {
          AddedText(|u|, Replaced(t, u, w, x), Outcome(false, [], x, |x|));
          LeftOfSelf(x);
          CutSelf(x, '}', x);
          CutStep(t, u, w, x, x, '}', |x|);
        }
      }
    }
  }

  // ---------------------------------------------------------------- success on any text

  /** Success means that the closing character was passed last, and is a NUL now; an array fails at something else. */
  predicate ClosedBy(t: string, r: Outcome, close: char) {
    && |r.text| == |t| && r.left <= |t|
    && (r.ok ==> r.left < |t| && t[|t| - r.left - 1] == close && r.text[|t| - r.left - 1] == '\0')
    && (!r.ok ==> 0 < r.left && (close == ']' ==> t[|t| - r.left] != ']'))
  }

  lemma ClosedHere(t: string, u: string, close: char)
    requires LeftOf(u, t) && u != [] && u[0] == close
    ensures ClosedBy(t, Outcome(true, [], Cat(Before(t, u), Cat("\0", u[1..])), |u| - 1), close)
  {}

  lemma FailsHere(t: string, x: string, close: char)
    requires LeftOf(x, t) && x != [] && (close == ']' ==> x[0] != ']')
    ensures ClosedBy(t, Outcome(false, [], t, |x|), close)
  {}

  lemma ClosedLater(t: string, x: string, field: nat, part: string, next: Outcome, close: char)
    requires LeftOf(x, t) && ClosedBy(x, next, close) && |part| == |t| - |x|
    ensures ClosedBy(t, Added(field, part, next), close)
  {}

  lemma {:induction false} ArrayIsClosed(t: string)
    requires Ended(t)
    ensures ClosedBy(t, ArrayFrom(t), ']')
    decreases |t|
  {
    hide *;
    var u := SkipSpaces(t);
    if u[0] == ']' {
      ArrayEnds(t, u);
      ClosedHere(t, u, ']');
    } else {
      var w := SkipValue(u);
      var (x, found) := SkipOne(w, ',', false);
      ArrayGoesOn(t, u, w, x, found);
      LeftOfChain(x, w, u);
      LeftOfChain(x, u, t);
      if found || x[0] == ']' {
        ArrayIsClosed(x);
        ClosedLater(t, x, |u|, Replaced(t, u, w, x), ArrayFrom(x), ']');
      } else {
        LeftOfSelf(x);
        FailsHere(x, x, ']');
        ClosedLater(t, x, |u|, Replaced(t, u, w, x), Outcome(false, [], x, |x|), ']');
      }
    }
  }

  lemma {:induction false} ObjectIsClosed(t: string)
    requires Ended(t)
    ensures ClosedBy(t, ObjectFrom(t), '}')
    decreases |t|
  {
    hide *;
    var u := SkipSpaces(t);
    ObjectEnds(t, u);
    if u[0] == '}' {
      ClosedHere(t, u, '}');
    } else if u[0] != '"' {
      FailsHere(t, u, '}');
    } else {
      var (k, colon) := SkipOne(Past(u), ':', false);
      NameEnds(u);
      LeftOfChain(k, u, t);
      if !colon {
        ObjectLacksColon(t, u, k);
        FailsHere(t, k, '}');
      } else {
        var w := SkipValue(k);
        var (x, found) := SkipOne(w, ',', false);
        MemberIs(t, u, k, w, x, found);
        ObjectGoesOn(t, u, k, w, x, found);
        LeftOfChain(x, w, k);
        LeftOfChain(x, k, t);
        if found || x[0] == '}' {
          ObjectIsClosed(x);
          ClosedLater(t, x, |u|, Replaced(t, u, w, x), ObjectFrom(x), '}');
        } else {
          LeftOfSelf(x);
          FailsHere(x, x, '}');
          ClosedLater(t, x, |u|, Replaced(t, u, w, x), Outcome(false, [], x, |x|), '}');
        }
      }
    }
  }

  /** On any terminated text an array or an object is only taken for one if it begins with its opening character and
      its closing character has been passed last; any other beginning leaves the text as it is. */
  lemma OnlyBracketed(t: string, isArray: bool)
    requires Ended(t)
    ensures
      var r := if isArray then GetArray(t) else GetObject(t);
      var open, close := if isArray then '[' else '{', if isArray then ']' else '}';
      && (t[0] != open ==> r == Outcome(false, [], t, |t|))
      && (r.ok ==> t[0] == open && 0 < |t| - r.left - 1 && t[|t| - r.left - 1] == close && r.text[|t| - r.left - 1] == '\0')
      && (t[0] == open && !r.ok ==> 0 < r.left && (isArray ==> t[|t| - r.left] != ']'))
  {
    hide *;
    OpenArray(t);
    OpenObject(t);
    if t[0] == '[' { ArrayIsClosed(t[1..]); ClosedInside(t, ArrayFrom(t[1..]), '[', ']'); }
    if t[0] == '{' { ObjectIsClosed(t[1..]); ClosedInside(t, ObjectFrom(t[1..]), '{', '}'); }
  }

  lemma ClosedInside(t: string, r: Outcome, open: char, close: char)
    requires t != "" && ClosedBy(t[1..], r, close)
    ensures
      && (r.ok ==> 0 < |t| - r.left - 1 < |t| == |Cat([open], r.text)| && t[|t| - r.left - 1] == close
                   && Cat([open], r.text)[|t| - r.left - 1] == '\0')
      && (!r.ok ==> 0 < r.left <= |t| && (close == ']' ==> t[|t| - r.left] != ']'))
  {}

  // ---------------------------------------------------------------- commas on any text

  /** The character with `e` characters left from it on. */
  function FromEnd(t: string, e: nat): char
    requires 0 < e <= |t|
  {
    t[|t| - e]
  }

  /** Between the points with `from` and with `to` characters left there is only white space. */
  predicate OnlySpaces(t: string, from: nat, to: nat) {
    to <= from <= |t| && forall e :: to < e <= from ==> IsSpace(FromEnd(t, e))
  }

  /** Right before a field, but for white space, is a comma, and it is not before `low`. */
  ghost predicate CommaBefore(t: string, low: nat, field: nat) {
    low <= |t| && exists d :: field < d <= low && FromEnd(t, d) == ',' && OnlySpaces(t, d - 1, field)
  }

  ghost predicate Separated(t: string, fields: seq<nat>) {
    && (fields != [] ==> OnlySpaces(t, |t|, fields[0]))
    && forall i :: 0 < i < |fields| ==> CommaBefore(t, fields[i - 1], fields[i])
  }

  lemma {:induction false} SpacesSkipped(t: string)
    requires Ended(t)
    ensures OnlySpaces(t, |t|, |SkipSpaces(t)|)
    decreases |t|
  {
    hide LeftOf;
    if IsSpace(t[0]) {
      LeftOfOne(t);
      SpacesSkipped(t[1..]);
      var n := |SkipSpaces(t)|;
      forall e | n < e <= |t| ensures IsSpace(FromEnd(t, e)) {
        if e < |t| { assert FromEnd(t, e) == FromEnd(t[1..], e); }
      }
    }
  }

  lemma {:induction false} CommaSkipped(t: string, found: bool)
    requires Ended(t)
    ensures
      var (r, now) := SkipOne(t, ',', found);
      |r| <= |t| && if found then OnlySpaces(t, |t|, |r|) else now ==> CommaBefore(t, |t|, |r|)
    decreases |t|
  {
    hide LeftOf, Ended;
    if (t[0] == ',' && !found) || IsSpace(t[0]) {
      LeftOfOne(t);
      var rest := t[1..];
      CommaSkipped(rest, found || t[0] == ',');
      var (r, now) := SkipOne(t, ',', found);
      if found {
        forall e | |r| < e <= |t| ensures IsSpace(FromEnd(t, e)) {
          if e < |t| { assert FromEnd(t, e) == FromEnd(rest, e); }
        }
      } else if now {
        if t[0] == ',' {
          SpacesLater(t, rest, |rest|, |r|);
          assert FromEnd(t, |t|) == ',' && OnlySpaces(t, |t| - 1, |r|);
        } else {
          CommaLater(t, rest, |rest|, |r|);
          var d :| |r| < d <= |rest| && FromEnd(t, d) == ',' && OnlySpaces(t, d - 1, |r|);
          assert d <= |t|;
        }
      }
    }
  }

  lemma SpacesLater(t: string, x: string, from: nat, to: nat)
    requires |x| <= |t| && x == t[|t| - |x|..] && OnlySpaces(x, from, to)
    ensures OnlySpaces(t, from, to)
  {
    forall e | to < e <= from ensures IsSpace(FromEnd(t, e)) {
      assert FromEnd(t, e) == FromEnd(x, e);
    }
  }

  lemma CommaLater(t: string, x: string, low: nat, field: nat)
    requires |x| <= |t| && x == t[|t| - |x|..] && CommaBefore(x, low, field)
    ensures CommaBefore(t, low, field)
  {
    var d :| field < d <= low && FromEnd(x, d) == ',' && OnlySpaces(x, d - 1, field);
    SpacesLater(t, x, d - 1, field);
    assert FromEnd(t, d) == FromEnd(x, d);
  }

  lemma SpacesJoin(t: string, from: nat, between: nat, to: nat)
    requires OnlySpaces(t, from, between) && OnlySpaces(t, between, to)
    ensures OnlySpaces(t, from, to)
  {}

  lemma CommaWidens(t: string, low: nat, wider: nat, field: nat, later: nat)
    requires CommaBefore(t, low, field) && low <= wider <= |t| && OnlySpaces(t, field, later)
    ensures CommaBefore(t, wider, later)
  {
    var d :| field < d <= low && FromEnd(t, d) == ',' && OnlySpaces(t, d - 1, field);
    SpacesJoin(t, d - 1, field, later);
  }

  /** One more field in front: a comma has been passed behind it, unless it is the last. */
  lemma SeparatedStep(t: string, u: string, w: string, x: string, fields: seq<nat>)
    requires LeftOf(u, t) && LeftOf(w, u) && LeftOf(x, w)
    requires OnlySpaces(t, |t|, |u|) && Separated(x, fields) && (fields != [] ==> CommaBefore(w, |w|, |x|))
    ensures Separated(t, [|u|] + fields)
  {
    hide OnlySpaces, FromEnd, Ended;
    LeftOfChain(w, u, t);
    LeftOfChain(x, w, t);
    var all := [|u|] + fields;
    forall i | 0 < i < |all| ensures CommaBefore(t, all[i - 1], all[i]) {
      if i == 1 {
        CommaLater(t, w, |w|, |x|);
        SpacesLater(t, x, |x|, fields[0]);
        CommaWidens(t, |w|, |u|, |x|, fields[0]);
      } else {
        CommaLater(t, x, fields[i - 2], fields[i - 1]);
      }
    }
  }

  lemma AddedFields(field: nat, part: string, next: Outcome)
    ensures Added(field, part, next).fields == [field] + next.fields
  {}

  lemma NoneSeparated(t: string)
    ensures Separated(t, [])
  {}

  lemma NoMoreElements(x: string)
    requires Ended(x) && x[0] == ']'
    ensures ArrayFrom(x).fields == []
  {
    hide SkipValue, SkipOne;
    assert SkipSpaces(x) == x;
  }

  lemma NoMoreMembers(x: string)
    requires Ended(x) && x[0] == '}'
    ensures ObjectFrom(x).fields == []
  {
    hide SkipValue, SkipOne;
    assert SkipSpaces(x) == x;
  }

  /** On any terminated text, taken for an array or not, between any two elements found there is a comma. */
  lemma {:induction false} ArrayIsSeparated(t: string)
    requires Ended(t)
    ensures Separated(t, ArrayFrom(t).fields)
    decreases |t|
  {
    hide *;
    var u := SkipSpaces(t);
    SpacesSkipped(t);
    if u[0] == ']' {
      ArrayEnds(t, u);
      NoneSeparated(t);
    } else {
      var w := SkipValue(u);
      var (x, found) := SkipOne(w, ',', false);
      CommaSkipped(w, false);
      ArrayGoesOn(t, u, w, x, found);
      if found || x[0] == ']' {
        ArrayIsSeparated(x);
        if !found { NoMoreElements(x); }
        AddedFields(|u|, Replaced(t, u, w, x), ArrayFrom(x));
        SeparatedStep(t, u, w, x, ArrayFrom(x).fields);
      } else {
        NoneSeparated(x);
        AddedFields(|u|, Replaced(t, u, w, x), Outcome(false, [], x, |x|));
        SeparatedStep(t, u, w, x, []);
      }
    }
  }

  /** And between any two members of an object. */
  lemma {:induction false} ObjectIsSeparated(t: string)
    requires Ended(t)
    ensures Separated(t, ObjectFrom(t).fields)
    decreases |t|
  {
    hide *;
    var u := SkipSpaces(t);
    SpacesSkipped(t);
    ObjectEnds(t, u);
    NoneSeparated(t);
    if u[0] == '"' {
      var (k, colon) := SkipOne(Past(u), ':', false);
      NameEnds(u);
      if !colon {
        ObjectLacksColon(t, u, k);
      } else {
        var w := SkipValue(k);
        var (x, found) := SkipOne(w, ',', false);
        CommaSkipped(w, false);
        LeftOfChain(w, k, u);
        MemberIs(t, u, k, w, x, found);
        ObjectGoesOn(t, u, k, w, x, found);
        if found || x[0] == '}' {
          ObjectIsSeparated(x);
          if !found { NoMoreMembers(x); }
          AddedFields(|u|, Replaced(t, u, w, x), ObjectFrom(x));
          SeparatedStep(t, u, w, x, ObjectFrom(x).fields);
        } else {
          NoneSeparated(x);
          AddedFields(|u|, Replaced(t, u, w, x), Outcome(false, [], x, |x|));
          SeparatedStep(t, u, w, x, []);
        }
      }
    }
  }
}
