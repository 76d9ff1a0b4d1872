/** Cutting arrays and objects (librtcommon/rt_json.cpp). This is done in place: every part becomes a NUL-terminated
    string within the buffer.  ArrayFrom and ObjectFrom say what comes of the text; the methods, which write into
    the buffer as they go, are proved to leave exactly that. */
module JsonSplit {
  import opened Chars
  import opened JsonScan

  /** Whether it succeeded, how much text there is from each field to the end of the buffer, what the text has become,
      and how much of it is left. */
  datatype Outcome = Outcome(ok: bool, fields: seq<nat>, text: string, left: nat)

  /** Concatenation as a function of its own, so that proofs can treat it as a symbol. */
  function Cat(a: string, b: string): string {
    a + b
  }

  lemma CatAssociates(a: string, b: string, c: string)
    ensures Cat(Cat(a, b), c) == Cat(a, Cat(b, c))
  {
    assert (a + b) + c == a + (b + c);
  }

  lemma CatNothing(a: string)
    ensures Cat(a, "") == a
  {}

  /** The part of `t` before `r`. */
  function Before(t: string, r: string): string
    requires |r| <= |t|
  {
    t[..|t| - |r|]
  }

  /** The text from `t` to `x` if the part from `w` on is made NULs. */
  function Replaced(t: string, u: string, w: string, x: string): (r: string)
    requires |x| <= |w| <= |u| <= |t|
    ensures |r| == |t| - |x|
  {
    Cat(Before(t, u), Cat(Before(u, w), Nuls(|w| - |x|)))
  }

  /** What comes of a text if a field so far from its end is found first and leaves `part` behind. */
  function Added(field: nat, part: string, next: Outcome): (r: Outcome)
    ensures |r.text| == |part| + |next.text| && r.left == next.left
  {
    Outcome(next.ok, [field] + next.fields, Cat(part, next.text), next.left)
  }

  function ArrayFrom(t: string): (r: Outcome)
    requires Ended(t)
    ensures |r.text| == |t| && r.left <= |t|
    decreases |t|
  {
    hide LeftOf, Ended, SkipSpaces, SkipValue, SkipOne;
    var u := SkipSpaces(t);
    if u[0] == ']' then Outcome(true, [], Cat(Before(t, u), Cat("\0", u[1..])), |u| - 1) else
    var w := SkipValue(u);
    var (x, found) := SkipOne(w, ',', false);
    if !found && x[0] != ']' then Added(|u|, Replaced(t, u, w, x), Outcome(false, [], x, |x|)) else
      Shorter(u, w, x, found, ',');
      Added(|u|, Replaced(t, u, w, x), ArrayFrom(x))
  }

  lemma Shorter(u: string, w: string, x: string, found: bool, c: char)
    requires Ended(u) && LeftOf(w, u) && c != '\0' && (x, found) == SkipOne(w, c, false)
    requires found || x[0] != u[0]
    ensures |x| < |u|
  {}

  function GetArray(t: string): (r: Outcome)
    requires Ended(t)
    ensures |r.text| == |t| && r.left <= |t|
  {
    if t[0] != '[' then Outcome(false, [], t, |t|) else
      LeftOfOne(t);
      var r := ArrayFrom(t[1..]);
      r.(text := Cat("[", r.text))
  }

  function ObjectFrom(t: string): (r: Outcome)
    requires Ended(t)
    ensures |r.text| == |t| && r.left <= |t|
    decreases |t|
  {
    hide LeftOf, Ended, SkipSpaces, SkipValue, SkipOne, Past;
    var u := SkipSpaces(t);
    if u[0] == '}' then Outcome(true, [], Cat(Before(t, u), Cat("\0", u[1..])), |u| - 1) else
    if u[0] != '"' then Outcome(false, [], t, |u|) else
    var (k, colon) := SkipOne(Past(u), ':', false);
    if !colon then Outcome(false, [], t, |k|) else
    var w := SkipValue(k);
    var (x, found) := SkipOne(w, ',', false);
    if !found && x[0] != '}' then Added(|u|, Replaced(t, u, w, x), Outcome(false, [], x, |x|))
    else Added(|u|, Replaced(t, u, w, x), ObjectFrom(x))
  }

  function GetObject(t: string): (r: Outcome)
    requires Ended(t)
    ensures |r.text| == |t| && r.left <= |t|
  {
    if t[0] != '{' then Outcome(false, [], t, |t|) else
      LeftOfOne(t);
      var r := ObjectFrom(t[1..]);
      r.(text := Cat("{", r.text))
  }

  // ---------------------------------------------------------------- the code

  /** Writes a NUL over one character. */
  method Clear(buf: array<char>, p: nat)
    requires p < buf.Length
    modifies buf
    ensures buf[..p + 1] == old(buf[..p]) + "\0" && buf[p + 1..] == old(buf[p + 1..])
    ensures At(buf, p + 1) == old(At(buf, p + 1))
  {
    buf[p] := '\0';
  }

  lemma OneMoreNul(head: string, n: nat)
    ensures head + Nuls(n) + "\0" == head + Nuls(n + 1)
  {}

  method FindSpacesOneComma(buf: array<char>, start: nat) returns (p: nat, found: bool)
    requires start <= buf.Length && Ended(At(buf, start))
    modifies buf
    ensures start <= p < buf.Length && (At(buf, p), found) == SkipOne(old(At(buf, start)), ',', false)
    ensures buf[..p] == old(buf[..start]) + Nuls(p - start) && buf[p..] == old(buf[p..])
  {
    hide Ended, LeftOf, At, Nuls;
    p, found := start, false;
    NoNuls(buf[..start]);
    while true
      invariant start <= p < buf.Length && Ended(At(buf, p))
      invariant SkipOne(At(buf, p), ',', found) == SkipOne(old(At(buf, start)), ',', false)
      invariant buf[..p] == old(buf[..start]) + Nuls(p - start) && buf[p..] == old(buf[p..])
      decreases buf.Length - p
    {
      OneMoreNul(old(buf[..start]), p - start);
      assert buf[p + 1..] == old(buf[p + 1..]) by {
        assert buf[p + 1..] == buf[p..][1..] && old(buf[p + 1..]) == old(buf[p..])[1..];
      }
      if buf[p] == ',' && !found {
        StepAt(buf, p);
        found := true;
        Clear(buf, p);
        p := p + 1;
      } else if IsSpace(buf[p]) {
        StepAt(buf, p);
        Clear(buf, p);
        p := p + 1;
      } else {
        return;
      }
    }
  }

  lemma NoNuls(head: string)
    ensures head == head + Nuls(0)
  {}

  /** Where fields begin that are so many characters from the end of a buffer. */
  function Positions(length: nat, fields: seq<nat>): seq<int>
  {
    seq(|fields|, i requires 0 <= i < |fields| => length - fields[i])
  }

  /** After the text `done` and the fields `argv` have been dealt with, `all` is what `now` will come to. */
  predicate Underway(length: nat, done: string, argv: seq<int>, all: Outcome, now: Outcome) {
    && all.ok == now.ok && all.left == now.left && all.text == Cat(done, now.text)
    && Positions(length, all.fields) == argv + Positions(length, now.fields)
  }

  lemma UnderwayField(length: nat, done: string, argv: seq<int>, all: Outcome, now: Outcome, field: nat, part: string, next: Outcome)
    requires Underway(length, done, argv, all, now)
    requires now == Added(field, part, next)
    ensures Underway(length, Cat(done, part), argv + [length - field], all, next)
  {
    hide Cat;
    CatAssociates(done, part, next.text);
    assert Positions(length, [field] + next.fields) == [length - field] + Positions(length, next.fields);
  }

  lemma UnderwayStart(length: nat, all: Outcome)
    ensures Underway(length, "", [], all, all)
  {
    assert "" + all.text == all.text;
  }

  lemma UnderwayEnd(length: nat, done: string, argv: seq<int>, all: Outcome, now: Outcome)
    requires Underway(length, done, argv, all, now) && now.fields == []
    ensures Positions(length, all.fields) == argv && all.text == Cat(done, now.text)
    ensures all.ok == now.ok && all.left == now.left
  {}

  /** The buffer up to `q` is the buffer up to `p` and the text in between. */
  lemma GrowsAt(buf: array<char>, p: nat, q: nat)
    requires p <= q <= buf.Length
    ensures buf[..q] == Cat(buf[..p], Before(At(buf, p), At(buf, q)))
  {}

  lemma WholeAt(buf: array<char>, p: nat)
    requires p <= buf.Length
    ensures buf[..] == Cat(buf[..p], At(buf, p))
  {}

  lemma ArrayEnds(t: string, u: string)
    requires Ended(t) && u == SkipSpaces(t) && u[0] == ']'
    ensures ArrayFrom(t) == Outcome(true, [], Cat(Before(t, u), Cat("\0", u[1..])), |u| - 1)
  {}

  lemma ArrayGoesOn(t: string, u: string, w: string, x: string, found: bool)
    requires Ended(t) && u == SkipSpaces(t) && u[0] != ']' && w == SkipValue(u) && (x, found) == SkipOne(w, ',', false)
    ensures !found && x[0] != ']' ==> ArrayFrom(t) == Added(|u|, Replaced(t, u, w, x), Outcome(false, [], x, |x|))
    ensures found || x[0] == ']' ==> |x| < |t| && ArrayFrom(t) == Added(|u|, Replaced(t, u, w, x), ArrayFrom(x))
  {
    hide LeftOf, Ended, SkipSpaces, SkipValue, SkipOne;
    if found || x[0] == ']' {
      Shorter(u, w, x, found, ',');
    }
  }

  lemma Joined(head: string, done: string, t: string, u: string, w: string, x: string)
    requires |x| <= |w| <= |u| <= |t|
    ensures Cat(Cat(Cat(head, done), Before(t, u)), Cat(Before(u, w), Nuls(|w| - |x|))) == Cat(head, Cat(done, Replaced(t, u, w, x)))
  {
    var a, b := Before(t, u), Cat(Before(u, w), Nuls(|w| - |x|));
    hide Cat, Before;
    CatAssociates(Cat(head, done), a, b);
    CatAssociates(head, done, Cat(a, b));
  }

  /** A value and what separates it from the next, as both loops pass them. */
  method PassElement(buf: array<char>, start: nat) returns (p: nat, found: bool)
    requires start <= buf.Length && Ended(At(buf, start))
    modifies buf
    ensures var w := SkipValue(old(At(buf, start)));
            && start <= p < buf.Length && (At(buf, p), found) == SkipOne(w, ',', false) && Ended(At(buf, p))
            && |At(buf, p)| <= |w|
            && buf[..p] == Cat(old(buf[..start]), Cat(Before(old(At(buf, start)), w), Nuls(|w| - |At(buf, p)|)))
            && buf[p..] == old(buf[p..])
  {
    hide Ended, LeftOf, SkipValue, SkipOne;
    var v := PassValue(buf, start);
    GrowsAt(buf, start, v);
    CatAssociates(buf[..start], Before(At(buf, start), At(buf, v)), Nuls(0));
    p, found := FindSpacesOneComma(buf, v);
    CatAssociates(old(buf[..start]), Before(old(At(buf, start)), old(At(buf, v))), Nuls(p - v));
  }

  /** The last step: the closing bracket or brace becomes a NUL. */
  method Close(buf: array<char>, p: nat)
    requires p < buf.Length
    modifies buf
    ensures buf[..] == Cat(old(buf[..p]), Cat("\0", old(At(buf, p))[1..]))
  {
    buf[p] := '\0';
    assert buf[p + 1..] == old(At(buf, p))[1..];
  }

  lemma ArrayStep(length: nat, done: string, argv: seq<int>, all: Outcome,
                  t: string, u: string, w: string, x: string, found: bool)
    requires Ended(t) && u == SkipSpaces(t) && u[0] != ']' && w == SkipValue(u) && (x, found) == SkipOne(w, ',', false)
    requires Underway(length, done, argv, all, ArrayFrom(t))
    ensures found || x[0] == ']' ==>
              |x| < |t| && Underway(length, Cat(done, Replaced(t, u, w, x)), argv + [length - |u|], all, ArrayFrom(x))
    ensures !found && x[0] != ']' ==>
              Underway(length, Cat(done, Replaced(t, u, w, x)), argv + [length - |u|], all, Outcome(false, [], x, |x|))
  {
    hide *;
    ArrayGoesOn(t, u, w, x, found);
    UnderwayField(length, done, argv, all, ArrayFrom(t), |u|, Replaced(t, u, w, x),
                  if found || x[0] == ']' then ArrayFrom(x) else Outcome(false, [], x, |x|));
  }

  lemma NoPositions(length: nat)
    ensures Positions(length, []) == []
  {}

  lemma OneMore(buf: array<char>, p: nat)
    requires p < buf.Length
    ensures buf[..p + 1] == Cat(buf[..p], [buf[p]])
  {}

  /** The loop of SplitArray. */
  method SplitElements(buf: array<char>, start: nat) returns (p: int, ok: bool, argv: seq<int>)
    requires start <= buf.Length && Ended(At(buf, start))
    modifies buf
    ensures var r := ArrayFrom(old(At(buf, start)));
            && ok == r.ok && argv == Positions(buf.Length, r.fields) && p == buf.Length - r.left
            && buf[..] == Cat(old(buf[..start]), r.text)
  {
    hide *;
    ghost var head, done, all := buf[..start], "", ArrayFrom(At(buf, start));
    CatNothing(head);
    p, argv := start, [];
    UnderwayStart(buf.Length, all);
    while true
      invariant start <= p < buf.Length && Ended(At(buf, p))
      invariant buf[..p] == Cat(head, done)
      invariant Underway(buf.Length, done, argv, all, ArrayFrom(At(buf, p)))
      decreases buf.Length - p
    {
      ghost var t, p0 := At(buf, p), p;
      p := PassSpaces(buf, p);
      ghost var u := At(buf, p);
      GrowsAt(buf, p0, p);
      if buf[p] == ']' {
        ArrayEnds(t, u);
        UnderwayEnd(buf.Length, done, argv, all, ArrayFrom(t));
        CatAssociates(head, done, Before(t, u));
        CatAssociates(head, Cat(done, Before(t, u)), Cat("\0", u[1..]));
        CatAssociates(done, Before(t, u), Cat("\0", u[1..]));
        Close(buf, p);
        return p + 1, true, argv;
      }
      ghost var w, before := SkipValue(u), argv;
      argv := argv + [p];
      var found;
      p, found := PassElement(buf, p);
      ghost var x := At(buf, p);
      ArrayStep(buf.Length, done, before, all, t, u, w, x, found);
      Joined(head, done, t, u, w, x);
      done := Cat(done, Replaced(t, u, w, x));
      if !found && buf[p] != ']' {
        UnderwayEnd(buf.Length, done, argv, all, Outcome(false, [], x, |x|));
        WholeAt(buf, p);
        CatAssociates(head, done, x);
        return p, false, argv;
      }
    }
  }

  method SplitArray(buf: array<char>, start: nat) returns (p: int, ok: bool, argv: seq<int>)
    requires start <= buf.Length && Ended(At(buf, start))
    modifies buf
    ensures var r := GetArray(old(At(buf, start)));
            && ok == r.ok && argv == Positions(buf.Length, r.fields) && p == buf.Length - r.left
            && buf[..] == Cat(old(buf[..start]), r.text)
  {
    hide *;
    OpenArray(At(buf, start));
    NoPositions(buf.Length);
    if buf[start] != '[' {
      WholeAt(buf, start);
      return start, false, [];
    }
    StepAt(buf, start);
    OneMore(buf, start);
    p, ok, argv := SplitElements(buf, start + 1);
    CatAssociates(old(buf[..start]), "[", ArrayFrom(old(At(buf, start + 1))).text);
  }

  lemma OpenArray(t: string)
    requires Ended(t)
    ensures t[0] != '[' ==> GetArray(t) == Outcome(false, [], t, |t|)
    ensures t[0] == '[' ==> Ended(t[1..]) && GetArray(t) == ArrayFrom(t[1..]).(text := Cat("[", ArrayFrom(t[1..]).text))
  {
    hide ArrayFrom, Ended, LeftOf;
    if t[0] != '\0' {
      LeftOfOne(t);
    }
  }

  // ---------------------------------------------------------------- objects

  lemma ObjectEnds(t: string, u: string)
    requires Ended(t) && u == SkipSpaces(t)
    ensures u[0] == '}' ==> ObjectFrom(t) == Outcome(true, [], Cat(Before(t, u), Cat("\0", u[1..])), |u| - 1)
    ensures u[0] != '}' && u[0] != '"' ==> ObjectFrom(t) == Outcome(false, [], t, |u|)
  {}

  lemma ObjectLacksColon(t: string, u: string, k: string)
    requires Ended(t) && u == SkipSpaces(t) && u[0] == '"' && (k, false) == SkipOne(Past(u), ':', false)
    ensures ObjectFrom(t) == Outcome(false, [], t, |k|)
  {}

  /** From `t`, a member starts at `u`, its value is to be looked for from `k` on and ends at `w`, and `x` comes next. */
  predicate Member(t: string, u: string, k: string, w: string, x: string, found: bool): (b: bool)
    requires Ended(t)
    ensures b ==> |x| <= |w| <= |u| <= |t| && |x| < |u| && u != [] && Ended(u) && Ended(x)
  {
    hide LeftOf, Ended, SkipSpaces, SkipOne, SkipValue, Past;
    && u == SkipSpaces(t) && u[0] == '"' && (k, true) == SkipOne(Past(u), ':', false)
    && Ended(k) && w == SkipValue(k) && (x, found) == SkipOne(w, ',', false)
  }

  lemma MemberIs(t: string, u: string, k: string, w: string, x: string, found: bool)
    requires Ended(t) && u == SkipSpaces(t) && u[0] == '"' && (k, true) == SkipOne(Past(u), ':', false)
    requires w == SkipValue(k) && (x, found) == SkipOne(w, ',', false)
    ensures Member(t, u, k, w, x, found)
  {
    hide LeftOf, Ended, SkipSpaces, SkipOne, SkipValue, Past;
  }

  lemma ObjectGoesOn(t: string, u: string, k: string, w: string, x: string, found: bool)
    requires Ended(t) && Member(t, u, k, w, x, found)
    ensures !found && x[0] != '}' ==> ObjectFrom(t) == Added(|u|, Replaced(t, u, w, x), Outcome(false, [], x, |x|))
    ensures found || x[0] == '}' ==> |x| < |t| && ObjectFrom(t) == Added(|u|, Replaced(t, u, w, x), ObjectFrom(x))
  {
    hide LeftOf, Ended, SkipSpaces, SkipValue, SkipOne, Past, Replaced, Cat;
  }

  lemma ObjectStep(length: nat, done: string, argv: seq<int>, all: Outcome,
                   t: string, u: string, k: string, w: string, x: string, found: bool)
    requires Ended(t) && Member(t, u, k, w, x, found)
    requires Underway(length, done, argv, all, ObjectFrom(t))
    ensures found || x[0] == '}' ==>
              |x| < |t| && Underway(length, Cat(done, Replaced(t, u, w, x)), argv + [length - |u|], all, ObjectFrom(x))
    ensures !found && x[0] != '}' ==>
              Underway(length, Cat(done, Replaced(t, u, w, x)), argv + [length - |u|], all, Outcome(false, [], x, |x|))
  {
    hide *;
    ObjectGoesOn(t, u, k, w, x, found);
    UnderwayField(length, done, argv, all, ObjectFrom(t), |u|, Replaced(t, u, w, x),
                  if found || x[0] == '}' then ObjectFrom(x) else Outcome(false, [], x, |x|));
  }

  lemma BeforeJoins(t: string, k: string, w: string)
    requires LeftOf(k, t) && LeftOf(w, k)
    ensures Cat(Before(t, k), Before(k, w)) == Before(t, w)
  {
    LeftOfChain(w, k, t);
  }

  /** A name and its value go into one field. */
  lemma JoinedName(a: string, u: string, k: string, w: string, nuls: string)
    requires LeftOf(k, u) && LeftOf(w, k)
    ensures Cat(Cat(a, Before(u, k)), Cat(Before(k, w), nuls)) == Cat(a, Cat(Before(u, w), nuls))
  {
    hide *;
    BeforeJoins(u, k, w);
    CatAssociates(Before(u, k), Before(k, w), nuls);
    CatAssociates(a, Before(u, k), Cat(Before(k, w), nuls));
  }

  lemma NameEnds(u: string)
    requires Ended(u) && u[0] == '"'
    ensures LeftOf(SkipOne(Past(u), ':', false).0, u) && LeftOf(SkipValue(SkipOne(Past(u), ':', false).0), SkipOne(Past(u), ':', false).0)
  {
    LeftOfChain(SkipOne(Past(u), ':', false).0, Past(u), u);
  }

  /** The loop of SplitObject. */
  method SplitMembers(buf: array<char>, start: nat) returns (p: int, ok: bool, argv: seq<int>)
    requires start <= buf.Length && Ended(At(buf, start))
    modifies buf
    ensures var r := ObjectFrom(old(At(buf, start)));
            && ok == r.ok && argv == Positions(buf.Length, r.fields) && p == buf.Length - r.left
            && buf[..] == Cat(old(buf[..start]), r.text)
  {
    hide *;
    ghost var head, done, all := buf[..start], "", ObjectFrom(At(buf, start));
    CatNothing(head);
    p, argv := start, [];
    UnderwayStart(buf.Length, all);
    while true
      invariant start <= p < buf.Length && Ended(At(buf, p))
      invariant buf[..p] == Cat(head, done)
      invariant Underway(buf.Length, done, argv, all, ObjectFrom(At(buf, p)))
      decreases buf.Length - p
    {
      ghost var t, p0 := At(buf, p), p;
      p := PassSpaces(buf, p);
      ghost var u, pu := At(buf, p), p;
      GrowsAt(buf, p0, p);
      ObjectEnds(t, u);
      if buf[p] == '}' {
        UnderwayEnd(buf.Length, done, argv, all, ObjectFrom(t));
        CatAssociates(head, done, Before(t, u));
        CatAssociates(head, Cat(done, Before(t, u)), Cat("\0", u[1..]));
        CatAssociates(done, Before(t, u), Cat("\0", u[1..]));
        Close(buf, p);
        return p + 1, true, argv;
      }
      if buf[p] != '"' {
        UnderwayEnd(buf.Length, done, argv, all, ObjectFrom(t));
        WholeAt(buf, p0);
        CatAssociates(head, done, t);
        return p, false, argv;
      }
      ghost var before := argv;
      argv := argv + [p];
      StepAt(buf, p);
      PastString(u);
      p := PassString(buf, p);
      var found;
      p, found := PassColon(buf, p);
      ghost var k := At(buf, p);
      if !found {
        argv := argv[..|argv| - 1];
        ObjectLacksColon(t, u, k);
        UnderwayEnd(buf.Length, done, before, all, ObjectFrom(t));
        WholeAt(buf, p0);
        CatAssociates(head, done, t);
        return p, false, argv;
      }
      GrowsAt(buf, pu, p);
      ghost var w := SkipValue(k);
      p, found := PassElement(buf, p);
      ghost var x := At(buf, p);
      NameEnds(u);
      MemberIs(t, u, k, w, x, found);
      ObjectStep(buf.Length, done, before, all, t, u, k, w, x, found);
      JoinedName(Cat(Cat(head, done), Before(t, u)), u, k, w, Nuls(|w| - |x|));
      Joined(head, done, t, u, w, x);
      done := Cat(done, Replaced(t, u, w, x));
      if !found && buf[p] != '}' {
        UnderwayEnd(buf.Length, done, argv, all, Outcome(false, [], x, |x|));
        WholeAt(buf, p);
        CatAssociates(head, done, x);
        return p, false, argv;
      }
    }
  }

  method SplitObject(buf: array<char>, start: nat) returns (p: int, ok: bool, argv: seq<int>)
    requires start <= buf.Length && Ended(At(buf, start))
    modifies buf
    ensures var r := GetObject(old(At(buf, start)));
            && ok == r.ok && argv == Positions(buf.Length, r.fields) && p == buf.Length - r.left
            && buf[..] == Cat(old(buf[..start]), r.text)
  {
    hide *;
    OpenObject(At(buf, start));
    NoPositions(buf.Length);
    if buf[start] != '{' {
      WholeAt(buf, start);
      return start, false, [];
    }
    StepAt(buf, start);
    OneMore(buf, start);
    p, ok, argv := SplitMembers(buf, start + 1);
    CatAssociates(old(buf[..start]), "{", ObjectFrom(old(At(buf, start + 1))).text);
  }

  lemma OpenObject(t: string)
    requires Ended(t)
    ensures t[0] != '{' ==> GetObject(t) == Outcome(false, [], t, |t|)
    ensures t[0] == '{' ==> Ended(t[1..]) && GetObject(t) == ObjectFrom(t[1..]).(text := Cat("{", ObjectFrom(t[1..]).text))
  {
    hide ObjectFrom, Ended, LeftOf;
    if t[0] != '\0' {
      LeftOfOne(t);
    }
  }
}
