/** When the schedule controller stops. */
module ScheduleStops {
  // It judges the events of the track as the first safety algorithm does, and keeps the same books; both call for an
  // emergency stop at the same moment.

  import opened Ring
  import opened Schedule
  import D = DcAlg
  import E = Events

  // ---------------------------------------------------------------- refusals

  /** Which sections have an entrance, have a train, and are promised to an entry. */
  function Books(c: Controller): (r: seq<D.Section>)
    ensures |r| == |c.sections|
    ensures forall s :: 0 <= s < |r| ==>
              r[s] == D.Section(c.sections[s].hasEntry, c.sections[s].hasTrain, c.sections[s].requested)
  {
    seq(|c.sections|, s requires 0 <= s < |c.sections| =>
      D.Section(c.sections[s].hasEntry, c.sections[s].hasTrain, c.sections[s].requested))
  }

  predicate AnyoneBehind(b: seq<D.Section>, s: nat)
    requires s < |b|
  {
    b[if s == 0 then |b| - 1 else s - 1].hasTrain
  }

  /** Events that make no sense for what is booked: a crossing out of range, into a section promised to an entry or
      occupied, or with nobody behind; a request without an entrance or with a train there or behind; a cancellation
      or an entry without a request; an exit without an entrance or a train. */
  predicate Refused(b: seq<D.Section>, x: Change) {
    match x
    case On(Crossing(s)) =>
      s < 0 || s >= |b| || (b[s].hasEntry && b[s].requested) || b[s].hasTrain || !AnyoneBehind(b, s)
    case On(Request(s)) => s < |b| && (!b[s].hasEntry || b[s].hasTrain || AnyoneBehind(b, s))
    case On(Cancel(s)) => s < |b| && (!b[s].hasEntry || !b[s].requested || b[s].hasTrain)
    case On(Clocked(_, _)) => false
    case Entry(s, _) => s < |b| && (!b[s].requested || b[s].hasTrain)
    case Exit(s) => s < |b| && (!b[s].hasEntry || !b[s].hasTrain)
  }

  /** The books after an event that is not refused. */
  function After(b: seq<D.Section>, x: Change): seq<D.Section>
    requires !Refused(b, x)
  {
    match x
    case On(Crossing(s)) =>
      var p := Prev(|b|, s);
      b[s := b[s].(hasTrain := true)][p := b[p].(hasTrain := false)]
    case On(Request(s)) => if s < |b| then b[s := b[s].(requested := true)] else b
    case On(Cancel(s)) => if s < |b| then b[s := b[s].(requested := false)] else b
    case On(Clocked(_, _)) => b
    case Entry(s, _) => if s < |b| then b[s := b[s].(hasTrain := true, requested := false)] else b
    case Exit(s) => if s < |b| then b[s := b[s].(hasTrain := false, requested := false)] else b
  }

  /** A refused event calls for a stop and changes nothing else; any other calls for none. */
  lemma StopsIffRefused(tt: Timetable, c: Controller, x: Change)
    requires Known(tt, c) && InBounds(c) && Possible(c, x)
    ensures Changed(tt, c, x).estop <==> c.estop || Refused(Books(c), x)
    ensures Refused(Books(c), x) ==> Changed(tt, c, x) == c.(estop := true)
  {
    hide Arrived, Entered, Advance, MaxLate, SlipOf, SlipClock;
  }

  /** An event that is not refused is booked, and nothing else is. */
  lemma BooksAfter(tt: Timetable, c: Controller, x: Change)
    requires Known(tt, c) && InBounds(c) && Possible(c, x) && !Refused(Books(c), x)
    ensures Books(Changed(tt, c, x)) == After(Books(c), x)
  {
    hide Arrived, Entered, Advance, MaxLate, SlipOf, SlipClock;
  }

  /** The time of some train behind section u has come. */
  ghost predicate GoesGreen(c: Controller, count: nat, time: real, u: nat)
    requires count <= |c.trains| && forall t: nat :: t < |c.trains| ==> c.trains[t].section < |c.sections|
  {
    exists t: nat :: t < count && !c.trains[t].pastGreen && c.trains[t].timeAtGreen < time
                     && Next(|c.sections|, c.trains[t].section) == u
  }

  lemma OneMoreGoes(c: Controller, count: nat, time: real, u: nat)
    requires OnLine(c) && 0 < count <= |c.trains|
    ensures
      var last := c.trains[count - 1];
      GoesGreen(c, count, time, u) <==>
        || GoesGreen(c, count - 1, time, u)
        || (!last.pastGreen && last.timeAtGreen < time && Next(|c.sections|, last.section) == u)
  {}

  lemma OneMoreLight(d: Controller, i: nat, time: real, u: nat)
    requires OnLine(d) && i < |d.trains| && u < |d.green|
    ensures
      var r, t := UpdateTrain(d, i, time), d.trains[i];
      && |r.green| == |d.green|
      && (r.green[u] <==> d.green[u] || (!t.pastGreen && t.timeAtGreen < time && Next(|d.sections|, t.section) == u))
  {}

  lemma {:induction false} UpdateLights(c: Controller, count: nat, time: real, u: nat)
    requires OnLine(c) && count <= |c.trains| && u < |c.green|
    ensures |UpdateTrains(c, count, time).green| == |c.green|
    ensures UpdateTrains(c, count, time).green[u] <==> c.green[u] || GoesGreen(c, count, time, u)
  {
    if count > 0 {
      var i := count - 1;
      UpdateLights(c, i, time, u);
      UpdateTrainsRecord(c, i, time, i);
      OneMoreGoes(c, count, time, u);
      OneMoreLight(UpdateTrains(c, i, time), i, time, u);
      hide GoesGreen, UpdateTrain;
    }
  }

  lemma ClockLights(tt: Timetable, c: Controller, time: real, increment: real, u: nat)
    requires tt.cycle > 0.0 && OnLine(c) && u < |c.green|
    ensures
      var r := Update(tt, c, time, increment);
      |r.green| == |c.green| && (r.green[u] <==> c.green[u] || GoesGreen(c, |c.trains|, time, u))
  {
    hide Advance, MaxLate, SlipOf, SlipClock;
    var a := c.(clock := Advance(c.clock, tt.cycle, time, increment));
    UpdateLights(a, |a.trains|, time, u);
    assert GoesGreen(a, |a.trains|, time, u) <==> GoesGreen(c, |c.trains|, time, u);
  }

  /** Of the lights an event that is not refused changes that of its section only: off with a train or a request, on
      when a train leaves or a request is withdrawn.  The clock turns lights on, in front of trains whose time has come. */
  lemma LightsAfter(tt: Timetable, c: Controller, x: Change, u: nat)
    requires Known(tt, c) && InBounds(c) && Possible(c, x) && !Refused(Books(c), x) && u < |c.green|
    ensures
      var r := Changed(tt, c, x);
      |r.green| == |c.green| && r.green[u] == match x
        case On(Crossing(s)) => c.green[u] && u != s
        case On(Request(s)) => c.green[u] && u != s
        case On(Cancel(s)) => c.green[u] || u == s
        case On(Clocked(time, _)) => c.green[u] || GoesGreen(c, |c.trains|, time, u)
        case Entry(s, _) => c.green[u] && u != s
        case Exit(s) => c.green[u] || u == s
  {
    hide Arrived, Entered, Update;
    if x.On? && x.event.Clocked? {
      ClockLights(tt, c, x.event.time, x.event.increment, u);
    }
  }

  /** A crossing carries the number of its train on, an entry gives the next number, and no other number changes, not even
      that of a train that leaves. */
  lemma NumbersAfter(tt: Timetable, c: Controller, x: Change, u: nat)
    requires Known(tt, c) && InBounds(c) && Possible(c, x) && !Refused(Books(c), x) && u < |c.sections|
    ensures
      var r := Changed(tt, c, x);
      |r.sections| == |c.sections| && r.sections[u].number == match x
        case On(Crossing(s)) => (
          var back := Prev(|c.sections|, s);
          if u == s then c.sections[back].number else if u == back then -1 else c.sections[u].number)
        case Entry(s, _) => if u == s then |c.trains| else c.sections[u].number
        case _ => c.sections[u].number
  {
    hide Arrived, Entered, Advance, MaxLate, SlipOf, SlipClock;
  }

  ghost predicate EverRefused(tt: Timetable, c: Controller, xs: seq<Change>)
    requires Known(tt, c) && InBounds(c) && AllPossible(c, xs)
    decreases |xs|
  {
    xs != [] && (
      ChangeKeepsBounds(tt, c, xs[0]);
      Refused(Books(c), xs[0]) || EverRefused(tt, Changed(tt, c, xs[0]), xs[1..]))
  }

  /** On every run, trains that come and go included, a stop has been called for exactly if some event was refused. */
  lemma {:induction false} StoppedIffEverRefused(tt: Timetable, c: Controller, xs: seq<Change>)
    requires Known(tt, c) && InBounds(c) && AllPossible(c, xs)
    ensures Traffic(tt, c, xs).estop <==> c.estop || EverRefused(tt, c, xs)
    decreases |xs|
  {
    hide Changed, Refused;
    if xs != [] {
      ChangeKeepsBounds(tt, c, xs[0]);
      StopsIffRefused(tt, c, xs[0]);
      StoppedIffEverRefused(tt, Changed(tt, c, xs[0]), xs[1..]);
    }
  }

  lemma {:induction false} PlacedUpTo(sections: seq<Section>, trains: seq<Train>, locations: seq<int>, count: nat, k: nat)
    requires count <= |locations| <= |trains| && (forall i :: 0 <= i < |locations| ==> locations[i] >= 0)
    requires k <= |locations| && (forall i :: 0 <= i < k ==> locations[i] < |sections|)
    requires k < |locations| ==> locations[k] >= |sections|
    ensures
      var (done, placed, ok) := Place(sections, trains, locations, count);
      && |done| == |sections| && |placed| == |trains| && (ok <==> count <= k)
      && (count >= k ==> done == Place(sections, trains, locations, k).0 && placed == Place(sections, trains, locations, k).1)
      && forall s :: 0 <= s < |sections| ==>
           (done[s].hasTrain <==> sections[s].hasTrain || s in locations[..if count < k then count else k])
  {
    if count > 0 {
      PlacedUpTo(sections, trains, locations, count - 1, k);
      if count <= k {
        assert locations[..count] == locations[..count - 1] + [locations[count - 1]];
      }
    }
  }

  lemma {:induction false} RecordedUpTo(sections: seq<Section>, trains: seq<Train>, locations: seq<int>, count: nat, k: nat, i: nat)
    requires count <= |locations| <= |trains| && (forall n :: 0 <= n < |locations| ==> locations[n] >= 0)
    requires k <= |locations| && (forall n :: 0 <= n < k ==> locations[n] < |sections|)
    requires (k < |locations| ==> locations[k] >= |sections|) && i < |trains|
    ensures
      var placed := Place(sections, trains, locations, count).1;
      && |placed| == |trains|
      && placed[i] == if i < count && i < k then trains[i].(section := locations[i], expected := locations[i]) else trains[i]
  {
    if count > 0 {
      RecordedUpTo(sections, trains, locations, count - 1, k, i);
      PlacedUpTo(sections, trains, locations, count - 1, k);
    }
  }

  /** At the start it stops exactly if a location is no section: the trains listed before it are entered then, and the
      lights stay as they were.  Otherwise all lights are off. */
  lemma StopsAtStartIff(c: Controller, locations: seq<int>, k: nat)
    requires |locations| == |c.trains| && (forall i :: 0 <= i < |locations| ==> locations[i] >= 0)
    requires k <= |locations| && (forall i :: 0 <= i < k ==> locations[i] < |c.sections|)
    requires k < |locations| ==> locations[k] >= |c.sections|
    ensures
      var r := InitialState(c, locations);
      && |r.sections| == |c.sections| && (r.estop <==> c.estop || k < |locations|)
      && (forall s :: 0 <= s < |c.sections| ==> (r.sections[s].hasTrain <==> c.sections[s].hasTrain || s in locations[..k]))
      && |r.trains| == |c.trains|
      && (forall i :: 0 <= i < |c.trains| ==>
            r.trains[i] == if i < k then c.trains[i].(section := locations[i], expected := locations[i]) else c.trains[i])
      && |r.green| == |c.green|
      && (if k < |locations| then r.green == c.green else forall s :: 0 <= s < |r.green| ==> !r.green[s])
  {
    PlacedUpTo(c.sections, c.trains, locations, |locations|, k);
    forall i | 0 <= i < |c.trains|
      ensures InitialState(c, locations).trains[i] ==
              if i < k then c.trains[i].(section := locations[i], expected := locations[i]) else c.trains[i]
    {
      RecordedUpTo(c.sections, c.trains, locations, |locations|, k, i);
    }
  }

  /** A request that is cancelled leaves the books as they were. */
  lemma CancelUndoesRequest(c: Controller, s: nat)
    requires s < |c.sections| == |c.green| && Grants(c, s) && !c.sections[s].requested
    ensures
      var r := CancelEntry(RequestEntry(c, s), s);
      r.sections == c.sections && r.trains == c.trains && r.estop == c.estop && r.clock == c.clock
  {}

  // ---------------------------------------------------------------- side by side with the safety algorithm

  ghost predicate SameBooks(c: Controller, d: D.Dc) {
    D.LightsTell(d) && d.sections == Books(c)
  }

  /** What the track tells the safety algorithm of a change. */
  function Told(x: Change): E.Event
    requires !(x.On? && x.event.Clocked?)
  {
    match x
    case On(Crossing(s)) => E.Crossing(s)
    case On(Request(s)) => E.Request(s)
    case On(Cancel(s)) => E.Cancel(s)
    case Entry(s, _) => E.Entry(s)
    case Exit(s) => E.Exit(s)
  }

  /** The safety algorithm has no clock. */
  function Heard(d: D.Dc, x: Change): (r: D.Dc)
    requires D.Sized(d)
    ensures D.Sized(r) && |r.sections| == |d.sections|
  {
    if !(x.On? && x.event.Clocked?) && E.InRange(|d.sections|, Told(x)) then D.Handle(d, Told(x)) else d
  }

  /** In any state the safety algorithm refuses the same events, and books the others in the same way. */
  lemma DcHears(d: D.Dc, x: Change)
    requires D.Sized(d)
    ensures Heard(d, x).sections == if Refused(d.sections, x) then d.sections else After(d.sections, x)
    ensures Heard(d, x).estop <==> d.estop || Refused(d.sections, x)
  {}

  lemma DcStillTells(d: D.Dc, x: Change)
    requires D.LightsTell(d)
    ensures D.LightsTell(Heard(d, x))
  {
    hide D.Handle, D.LightsTell;
    if !(x.On? && x.event.Clocked?) && E.InRange(|d.sections|, Told(x)) {
      D.HandleKeeps(d, Told(x));
    }
  }

  lemma HeardAlike(tt: Timetable, c: Controller, d: D.Dc, x: Change)
    requires Known(tt, c) && InBounds(c) && Possible(c, x) && SameBooks(c, d)
    ensures SameBooks(Changed(tt, c, x), Heard(d, x))
    ensures Heard(d, x).estop <==> d.estop || Refused(Books(c), x)
  {
    hide Changed, Refused, After, Heard, Books, D.LightsTell;
    DcSized(d);
    DcHears(d, x);
    DcStillTells(d, x);
    StopsIffRefused(tt, c, x);
    if Refused(Books(c), x) {
      SameFlags(c, c.(estop := true));
    } else {
      BooksAfter(tt, c, x);
    }
  }

  lemma DcSized(d: D.Dc)
    requires D.LightsTell(d)
    ensures D.Sized(d)
  {}

  lemma SameFlags(c: Controller, r: Controller)
    requires r.sections == c.sections
    ensures Books(r) == Books(c)
  {}

  function HeardAll(d: D.Dc, xs: seq<Change>): (r: D.Dc)
    requires D.Sized(d)
    ensures D.Sized(r)
    decreases |xs|
  {
    if xs == [] then d else HeardAll(Heard(d, xs[0]), xs[1..])
  }

  /** Told the same, the two keep the same books over every run, and stop at the same moment. */
  lemma {:induction false} BooksStaySame(tt: Timetable, c: Controller, d: D.Dc, xs: seq<Change>)
    requires Known(tt, c) && InBounds(c) && AllPossible(c, xs) && SameBooks(c, d) && c.estop == d.estop
    ensures SameBooks(Traffic(tt, c, xs), HeardAll(d, xs)) && Traffic(tt, c, xs).estop == HeardAll(d, xs).estop
    decreases |xs|
  {
    hide Changed, Heard, Refused, SameBooks;
    if xs != [] {
      ChangeKeepsBounds(tt, c, xs[0]);
      SameSized(c, d);
      StopsIffRefused(tt, c, xs[0]);
      HeardAlike(tt, c, d, xs[0]);
      BooksStaySame(tt, Changed(tt, c, xs[0]), Heard(d, xs[0]), xs[1..]);
    }
  }

  lemma SameSized(c: Controller, d: D.Dc)
    requires SameBooks(c, d)
    ensures D.Sized(d)
  {}

  /** They start with the same books. */
  lemma BooksStartSame(tt: Timetable, c: Controller, d: D.Dc, locations: seq<int>)
    requires Known(tt, c) && |locations| == |c.trains| && Distinct(locations, |c.sections|)
    requires D.Blank(d) && |d.sections| == |c.sections|
    requires forall s :: 0 <= s < |c.sections| ==>
               !c.sections[s].hasTrain && !c.sections[s].requested && c.sections[s].hasEntry == d.sections[s].hasEntry
    ensures SameBooks(InitialState(c, locations), D.InitialState(d, locations))
    ensures InitialState(c, locations).estop == c.estop && !D.InitialState(d, locations).estop
  {
    PlacePuts(c.sections, c.trains, locations, |locations|);
    PlaceKeepsEntries(c.sections, c.trains, locations, |locations|);
    assert locations[..|locations|] == locations;
    DcStarts(d, locations);
    hide Place, D.InitialState, D.LightsTell, D.Blank;
  }

  lemma DcStarts(d: D.Dc, locations: seq<int>)
    requires D.Blank(d) && forall i :: 0 <= i < |locations| ==> 0 <= locations[i] < |d.sections|
    ensures
      var r := D.InitialState(d, locations);
      && D.LightsTell(r) && |r.sections| == |d.sections| && !r.estop
      && forall s :: 0 <= s < |d.sections| ==> r.sections[s] == D.Section(d.sections[s].hasEntry, s in locations, false)
  {}

  lemma {:induction false} PlaceKeepsEntries(sections: seq<Section>, trains: seq<Train>, locations: seq<int>, count: nat)
    requires count <= |locations| <= |trains| && Distinct(locations, |sections|)
    ensures var (done, placed, ok) := Place(sections, trains, locations, count);
            && |done| == |sections|
            && forall s :: 0 <= s < |sections| ==>
                 done[s].hasEntry == sections[s].hasEntry && done[s].requested == sections[s].requested
  {
    if count > 0 {
      PlaceKeepsEntries(sections, trains, locations, count - 1);
    }
  }
}
