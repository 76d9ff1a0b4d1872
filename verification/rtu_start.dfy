/** The start-up of a whole line. */
module RtuStart {
  // The centre orders every station to start; each tells both neighbours what its sensor reads.  No train moves
  // meanwhile, so that the sensors are stable.  Messages may be delayed, and stations poll, at any time.

  import opened Ring
  import opened Rtu
  import opened RtuLine

  /** A line, and what each station has heard since it was reset; the latter is there for the proofs only. */
  datatype Starting = Starting(line: World, heard: seq<Heard>)

  datatype Act =
    | Order(station: nat, now: int)
    | HearLast(segment: nat, now: int)
    | HearNext(segment: nat, now: int)
    | Turn(station: nat, now: int)

  /** What the sensor of station k reads. */
  predicate Sensed(w: World, k: nat) {
    k in w.booked
  }

  /** The centre's order: the station tells its neighbours in front and behind. */
  function DoOrder(w: World, k: nat, now: int): (r: World)
    requires WellFormed(w) && k < |w.stations|
    ensures WellFormed(r)
  {
    var x := Next(|w.stations|, k);
    var (s, e) := FromCentral(w.stations[k], Start, Sensed(w, k), now);
    World(w.stations[k := s], w.forward[x := w.forward[x] + e.toNext], w.backward[k := w.backward[k] + e.toLast],
          w.trains, w.booked, w.alarms + e.alarms)
  }

  ghost predicate Sized(x: Starting) {
    WellFormed(x.line) && |x.heard| == |x.line.stations|
  }

  function Hears(x: Starting, k: nat, g: Greeting): seq<Heard>
    requires k < |x.heard|
  {
    x.heard[k := x.heard[k].Add(g)]
  }

  function Step(x: Starting, a: Act): (r: Starting)
    requires Sized(x)
    ensures Sized(r)
  {
    var w, n := x.line, |x.line.stations|;
    match a
    case Order(k, now) =>
      if k < n then Starting(DoOrder(w, k, now), Hears(x, k, Greeting(CentralStart, Sensed(w, k), now))) else x
    case HearLast(k, now) =>
      if k < n && w.forward[k] != [] then
        Starting(DoDeliverForward(w, k, now), Hears(x, k, Greeting(LastSays(w.forward[k][0] == HaveTrain), Sensed(w, k), now)))
      else x
    case HearNext(k, now) =>
      if k < n && w.backward[k] != [] then
        var i := Prev(n, k);
        Starting(DoDeliverBackward(w, k, Sensed(w, i), now),
                 Hears(x, i, Greeting(NextSays(w.backward[k][0] == HaveTrain), Sensed(w, i), now)))
      else x
    case Turn(k, now) =>
      if k < n then x.(line := DoPoll(w, k, now, LEVEL_AFTER_CROSSING)) else x
  }

  /** Every station is ordered once, and none that waits polls more than fifteen seconds after its first message. */
  predicate Allowed(x: Starting, a: Act) {
    match a
    case Order(k, _) => k < |x.heard| ==> !x.heard[k].central
    case Turn(k, now) => k < |x.heard| && x.heard[k].Anybody() && !x.heard[k].Everybody() ==> now - x.heard[k].since <= 15
    case _ => true
  }

  function Steps(x: Starting, acts: seq<Act>): (r: Starting)
    requires Sized(x)
    ensures Sized(r)
  {
    if acts == [] then x else Step(Steps(x, acts[..|acts| - 1]), acts[|acts| - 1])
  }

  ghost predicate AllAllowed(x: Starting, acts: seq<Act>)
    requires Sized(x)
  {
    acts == [] || (
      var m := |acts| - 1;
      AllAllowed(x, acts[..m]) && Allowed(Steps(x, acts[..m]), acts[m]))
  }

  /** All stations have been reset, no message is under way, and every train stands in a segment of its own. */
  ghost predicate AllReset(x: Starting) {
    && Sized(x)
    && (forall k :: 0 <= k < |x.heard| ==> Waiting(x.line.stations[k], NOBODY) && x.heard[k] == NOBODY)
    && (forall k :: 0 <= k < |x.heard| ==> x.line.forward[k] == [] && x.line.backward[k] == [])
    && Parked(x.line)
  }

  ghost predicate Parked(w: World) {
    && WellFormed(w)
    && (forall t :: 0 <= t < |w.trains| ==> w.trains[t] == Inside(w.booked[t]))
    && (forall t, u :: 0 <= t < u < |w.trains| ==> w.booked[t] != w.booked[u])
    && NoSurprise(w) && PartialCount !in w.alarms
  }

  // ---------------------------------------------------------------- the invariant

  /** What station k has heard is what the sensors read. */
  predicate HeardRight(w: World, k: nat, h: Heard)
    requires k < |w.stations|
  {
    && (h.central || h.next ==> h.behind == Sensed(w, k))
    && (h.next ==> h.leave == Sensed(w, k) && h.occupied == Sensed(w, Next(|w.stations|, k)))
  }

  /** A station that has been ordered has told its neighbours; the word is under way until it is heard. */
  predicate WordsOf(x: Starting, k: nat)
    requires k < |x.heard| == |x.line.stations| == |x.line.forward| == |x.line.backward|
  {
    var w, i := x.line, Prev(|x.heard|, k);
    && (x.heard[k].last ==> x.heard[i].central)
    && (x.heard[i].next ==> x.heard[k].central)
    && w.forward[k] == (if x.heard[i].central && !x.heard[k].last then [Occupancy(Sensed(w, i))] else [])
    && w.backward[k] == (if x.heard[k].central && !x.heard[i].next then [Occupancy(Sensed(w, k))] else [])
  }

  ghost predicate Inv(x: Starting) {
    && Sized(x) && Parked(x.line)
    && (forall k :: 0 <= k < |x.heard| ==> HasHeard(x.line.stations[k], x.heard[k]) && HeardRight(x.line, k, x.heard[k]))
    && (forall k :: 0 <= k < |x.heard| ==> WordsOf(x, k))
  }

  lemma ResetInv(x: Starting)
    requires AllReset(x)
    ensures Inv(x)
  {}

  /** Only station k has heard something. */
  ghost predicate OnlyAt(x: Starting, r: Starting, k: nat)
    requires Sized(x) && Sized(r) && k < |x.heard|
  {
    && |r.heard| == |x.heard| && r.line.trains == x.line.trains && r.line.booked == x.line.booked
    && (forall j :: 0 <= j < |x.heard| && j != k ==> r.line.stations[j] == x.line.stations[j] && r.heard[j] == x.heard[j])
    && (forall a :: a in r.line.alarms ==> a in x.line.alarms || a == LeftOnGreenTooLong)
  }

  lemma OneStationKeeps(x: Starting, r: Starting, k: nat)
    requires Inv(x) && Sized(r) && k < |x.heard| && OnlyAt(x, r, k)
    requires HasHeard(r.line.stations[k], r.heard[k]) && HeardRight(r.line, k, r.heard[k])
    requires forall j :: 0 <= j < |r.heard| ==> WordsOf(r, j)
    ensures Inv(r)
  {
    hide WordsOf, HasHeard;
  }

  /** What the messages of a greeting come to: the words to the neighbours, and no alarm. */
  lemma OrderSends(s: Station, prox: bool, now: int)
    requires s.startup.stopped
    ensures
      var (r, e) := FromCentral(s, Start, prox, now);
      && r == Greet(s, Greeting(CentralStart, prox, now))
      && e.toNext == [Occupancy(prox)] && e.toLast == [Occupancy(prox)] && e.alarms == []
  {}

  lemma StillWaits(x: Starting, k: nat)
    requires Inv(x) && k < |x.heard| && !x.heard[k].Everybody()
    ensures Waiting(x.line.stations[k], x.heard[k]) && x.line.stations[k].startup.stopped
    ensures HeardRight(x.line, k, x.heard[k]) && WordsOf(x, k)
  {
    hide WordsOf, HeardRight;
    assert HasHeard(x.line.stations[k], x.heard[k]);
  }

  lemma OrderKeeps(x: Starting, k: nat, now: int)
    requires Inv(x) && k < |x.heard| && !x.heard[k].central
    ensures Inv(Step(x, Order(k, now)))
  {
    hide Inv, FromCentral, Greet, HasHeard, Waiting, WordsOf;
    InvSized(x);
    var w := x.line;
    StillWaits(x, k);
    OrderSends(w.stations[k], Sensed(w, k), now);
    OneMoreGreeting(w.stations[k], x.heard[k], Greeting(CentralStart, Sensed(w, k), now));
    OrderWords(x, k, now);
    OneStationKeeps(x, Step(x, Order(k, now)), k);
  }

  lemma InvSized(x: Starting)
    requires Inv(x)
    ensures Sized(x)
  {}

  lemma OrderWords(x: Starting, k: nat, now: int)
    requires Sized(x) && Inv(x) && k < |x.heard| && !x.heard[k].central && x.line.stations[k].startup.stopped
    ensures var r := Step(x, Order(k, now)); forall j :: 0 <= j < |r.heard| ==> WordsOf(r, j)
  {
    var n := |x.heard|;
    OrderSends(x.line.stations[k], Sensed(x.line, k), now);
    hide FromCentral, HasHeard, Greet, HeardRight, Parked;
    var r := Step(x, Order(k, now));
    var a := Next(n, k);
    PrevOfNext(n, k);
    assert r.heard[k].central && r.heard[k].last == x.heard[k].last && r.heard[k].next == x.heard[k].next;
    forall j | 0 <= j < n ensures WordsOf(r, j) {
      assert WordsOf(x, j);
      assert Prev(n, j) == k <==> j == a;
      assert r.line.forward[j] == if j == a then x.line.forward[j] + [Occupancy(Sensed(x.line, k))] else x.line.forward[j];
      assert r.line.backward[j] == if j == k then x.line.backward[j] + [Occupancy(Sensed(x.line, k))] else x.line.backward[j];
    }
  }

  lemma HearLastKeeps(x: Starting, k: nat, now: int)
    requires Sized(x) && Inv(x) && k < |x.heard| && x.line.forward[k] != []
    ensures Inv(Step(x, HearLast(k, now)))
  {
    hide Inv, FromLast, Greet, HasHeard, Waiting;
    var w := x.line;
    WordsAt(x, k);
    StillWaits(x, k);
    var g := Greeting(LastSays(w.forward[k][0] == HaveTrain), Sensed(w, k), now);
    OneMoreGreeting(w.stations[k], x.heard[k], g);
    LastHeard(w.stations[k], g);
    HearLastWords(x, k, now);
    OneStationKeeps(x, Step(x, HearLast(k, now)), k);
  }

  lemma WordsAt(x: Starting, k: nat)
    requires Sized(x) && Inv(x) && k < |x.heard|
    ensures WordsOf(x, k)
  {}

  lemma HearLastWords(x: Starting, k: nat, now: int)
    requires Sized(x) && Inv(x) && k < |x.heard| && x.line.forward[k] != []
    ensures var r := Step(x, HearLast(k, now)); forall j :: 0 <= j < |r.heard| ==> WordsOf(r, j)
  {
    hide FromLast, HasHeard, Greet, HeardRight, Parked;
    var r := Step(x, HearLast(k, now));
    assert WordsOf(x, k);
    forall j | 0 <= j < |x.heard| ensures WordsOf(r, j) {
      assert WordsOf(x, j);
    }
  }

  lemma LastHeard(s: Station, g: Greeting)
    requires s.startup.stopped && g.hello.LastSays?
    ensures FromLast(s, Occupancy(g.hello.occupied), g.now).0 == Greet(s, g)
    ensures FromLast(s, Occupancy(g.hello.occupied), g.now).1.alarms == []
  {}

  lemma NextHeard(s: Station, g: Greeting)
    requires s.startup.stopped && g.hello.NextSays?
    ensures FromNext(s, Occupancy(g.hello.occupied), g.prox, g.now).0 == Greet(s, g)
    ensures FromNext(s, Occupancy(g.hello.occupied), g.prox, g.now).1.alarms == []
  {}

  lemma HearNextKeeps(x: Starting, k: nat, now: int)
    requires Sized(x) && Inv(x) && k < |x.heard| && x.line.backward[k] != []
    ensures Inv(Step(x, HearNext(k, now)))
  {
    hide Inv, FromNext, Greet, HasHeard, Waiting;
    var w, i := x.line, Prev(|x.heard|, k);
    WordsAt(x, k);
    StillWaits(x, i);
    var g := Greeting(NextSays(w.backward[k][0] == HaveTrain), Sensed(w, i), now);
    OneMoreGreeting(w.stations[i], x.heard[i], g);
    NextHeard(w.stations[i], g);
    HearNextWords(x, k, now);
    OneStationKeeps(x, Step(x, HearNext(k, now)), i);
  }

  lemma HearNextWords(x: Starting, k: nat, now: int)
    requires Sized(x) && Inv(x) && k < |x.heard| && x.line.backward[k] != []
    ensures var r := Step(x, HearNext(k, now)); forall j :: 0 <= j < |r.heard| ==> WordsOf(r, j)
  {
    hide FromNext, HasHeard, Greet, HeardRight, Parked;
    var n := |x.heard|;
    var r := Step(x, HearNext(k, now));
    assert WordsOf(x, k);
    forall j | 0 <= j < n ensures WordsOf(r, j) {
      assert WordsOf(x, j);
      PrevOfNext(n, Prev(n, k));
    }
  }

  /** A turn of the polling loop of a station that waits, or has just started. */
  lemma TurnChangesNothing(s: Station, h: Heard, now: int, level: bool)
    requires HasHeard(s, h) && (h.Anybody() && !h.Everybody() ==> now - h.since <= 15)
    ensures
      var (r, e) := RunOnce(s, now, level);
      && HasHeard(r, h) && e.toNext == [] && e.toLast == []
      && forall a :: a in e.alarms ==> a == LeftOnGreenTooLong
  {}

  lemma TurnKeeps(x: Starting, k: nat, now: int)
    requires Inv(x) && k < |x.heard| && Allowed(x, Turn(k, now))
    ensures Inv(Step(x, Turn(k, now)))
  {
    var w, n := x.line, |x.heard|;
    TurnChangesNothing(w.stations[k], x.heard[k], now, LEVEL_AFTER_CROSSING);
    hide RunOnce, HasHeard;
    var r := Step(x, Turn(k, now));
    assert w.forward[Next(n, k)] + [] == w.forward[Next(n, k)] && w.backward[k] + [] == w.backward[k];
    forall j | 0 <= j < n ensures WordsOf(r, j) {
      assert WordsOf(x, j);
    }
  }

  // ---------------------------------------------------------------- every run

  lemma {:induction false} StepsKeep(x: Starting, acts: seq<Act>)
    requires AllReset(x) && AllAllowed(x, acts)
    ensures Inv(Steps(x, acts)) && |Steps(x, acts).heard| == |x.heard|
  {
    hide Allowed, Step, Waiting, Parked;
    if acts == [] {
      ResetInv(x);
    } else {
      var m := |acts| - 1;
      StepsKeep(x, acts[..m]);
      StepKeeps(Steps(x, acts[..m]), acts[m]);
    }
  }

  lemma StepKeeps(x: Starting, a: Act)
    requires Inv(x) && Allowed(x, a)
    ensures Inv(Step(x, a)) && |Step(x, a).heard| == |x.heard|
  {
    match a
    case Order(k, now) => if k < |x.heard| { OrderKeeps(x, k, now); }
    case HearLast(k, now) => if k < |x.heard| && x.line.forward[k] != [] { HearLastKeeps(x, k, now); }
    case HearNext(k, now) => if k < |x.heard| && x.line.backward[k] != [] { HearNextKeeps(x, k, now); }
    case Turn(k, now) => if k < |x.heard| { TurnKeeps(x, k, now); }
  }

  /** Once all stations have been ordered and all messages have arrived, in whatever order, the line is in the
      state that its runs start from. */
  lemma LineStarts(x: Starting, acts: seq<Act>)
    requires AllReset(x) && AllAllowed(x, acts)
    requires forall k :: 0 <= k < |x.heard| ==> Ordered(acts, k)
    requires
      var w := Steps(x, acts).line;
      forall k :: 0 <= k < |w.stations| ==> w.forward[k] == [] && w.backward[k] == []
    ensures Init(Steps(x, acts).line)
  {
    StepsKeep(x, acts);
    var r := Steps(x, acts);
    forall k | 0 <= k < |r.heard| ensures r.heard[k].central { OrderHeard(x, acts, k); }
    AllHeardIsInit(r);
  }

  predicate Ordered(acts: seq<Act>, k: nat) {
    exists i :: 0 <= i < |acts| && acts[i].Order? && acts[i].station == k
  }

  lemma {:induction false} OrderHeard(x: Starting, acts: seq<Act>, k: nat)
    requires Sized(x) && k < |x.heard|
    ensures |Steps(x, acts).heard| == |x.heard|
    ensures Ordered(acts, k) ==> Steps(x, acts).heard[k].central
  {
    hide Step, Sized;
    if acts != [] {
      var m := |acts| - 1;
      OrderHeard(x, acts[..m], k);
      StepHears(Steps(x, acts[..m]), acts[m], k);
      assert forall i :: 0 <= i < m ==> acts[..m][i] == acts[i];
    }
  }

  lemma StepHears(x: Starting, a: Act, k: nat)
    requires Sized(x) && k < |x.heard|
    ensures
      var r := Step(x, a);
      && |r.heard| == |x.heard|
      && (x.heard[k].central || (a.Order? && a.station == k) ==> r.heard[k].central)
  {
    hide DoOrder, DoDeliverForward, DoDeliverBackward, DoPoll;
  }

  lemma AllHeardIsInit(x: Starting)
    requires Inv(x) && forall k :: 0 <= k < |x.heard| ==> x.heard[k].central
    requires forall k :: 0 <= k < |x.heard| ==> x.line.forward[k] == [] && x.line.backward[k] == []
    ensures Init(x.line)
  {
    var w, n := x.line, |x.heard|;
    forall k | 0 <= k < n ensures Started(w.stations[k], k in w.booked, Next(n, k) in w.booked) {
      PrevOfNext(n, k);
      assert WordsOf(x, k) && WordsOf(x, Next(n, k));
      assert x.heard[k].Everybody();
    }
  }
}
