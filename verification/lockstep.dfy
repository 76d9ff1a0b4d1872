/** The two safety algorithms side by side. */
module Lockstep {
  // How their stores stay equal, where exactly they disagree, what their joint vote says, and that the joint vote always
  // lets some train go on.

  import opened Ring
  import opened Events
  import D = DcAlg
  import J = JgAlg

  // ---------------------------------------------------------------- equal stores

  /** How many sections are busy. */
  function Count(sections: seq<J.Section>): nat {
    if sections == [] then 0
    else var m := |sections| - 1;
         Count(sections[..m]) + if sections[m].busy then 1 else 0
  }

  lemma {:induction false} CountChanges(sections: seq<J.Section>, s: nat, c: J.Section)
    requires s < |sections|
    ensures Count(sections[s := c]) + (if sections[s].busy then 1 else 0) == Count(sections) + (if c.busy then 1 else 0)
  {
    var m := |sections| - 1;
    if s < m {
      CountChanges(sections[..m], s, c);
      assert sections[s := c][..m] == sections[..m][s := c];
    } else {
      assert sections[s := c][..m] == sections[..m];
    }
  }

  lemma {:induction false} CountSays(sections: seq<J.Section>)
    ensures Count(sections) <= |sections|
    ensures Count(sections) == 0 ==> forall s :: 0 <= s < |sections| ==> !sections[s].busy
    ensures Count(sections) == |sections| ==> forall s :: 0 <= s < |sections| ==> sections[s].busy
    ensures (forall s :: 0 <= s < |sections| ==> !sections[s].busy) ==> Count(sections) == 0
    ensures (forall s :: 0 <= s < |sections| ==> sections[s].busy) ==> Count(sections) == |sections|
  {
    if sections != [] {
      var m := |sections| - 1;
      CountSays(sections[..m]);
    }
  }

  /** The store of the second algorithm is consistent in itself: trains are counted and named apart. */
  predicate StoreOk(st: J.Store) {
    && st.numberOfTrains == Count(st.sections)
    && (forall s :: 0 <= s < |st.sections| ==>
          if st.sections[s].busy then 0 <= st.sections[s].usedByTrain < st.idTrains else st.sections[s].usedByTrain == -1)
    && (forall s, u :: 0 <= s < u < |st.sections| && st.sections[s].busy && st.sections[u].busy ==>
          st.sections[s].usedByTrain != st.sections[u].usedByTrain)
  }

  /** The two machines have the same sections booked, asked for and marked as entries. */
  predicate SameBooks(d: D.Dc, j: J.Jg) {
    && D.Sized(d) && J.Sized(j) && |d.sections| == J.Size(j)
    && forall s :: 0 <= s < J.Size(j) ==>
         && j.store.sections[s].busy == d.sections[s].hasTrain
         && j.store.sections[s].isEntry == d.sections[s].hasEntry
         && j.store.sections[s].usedEntry == d.sections[s].requested
  }

  ghost predicate InStep(d: D.Dc, j: J.Jg) {
    SameBooks(d, j) && D.LightsTell(d) && StoreOk(j.store) && j.store.idTrains >= 0
  }

  /** No second request for the same section, and none when all trains are out. */
  predicate Fair(j: J.Jg, e: Event)
    requires InRange(J.Size(j), e)
  {
    e.Request? ==> !j.store.sections[e.section].usedEntry && j.store.numberOfTrains < j.store.maxTrains
  }

  lemma PutOk(st: J.Store, s: nat, c: J.Section)
    requires StoreOk(st) && s < |st.sections|
    requires c.busy == st.sections[s].busy && c.usedByTrain == st.sections[s].usedByTrain
    ensures StoreOk(J.Put(st, s, c))
  {
    CountChanges(st.sections, s, c);
  }

  /** A train of its own name may be put into a free section. */
  lemma OccupyOk(st: J.Store, s: nat, name: int)
    requires StoreOk(st) && s < |st.sections| && !st.sections[s].busy
    requires 0 <= name && forall u :: 0 <= u < |st.sections| && st.sections[u].busy ==> st.sections[u].usedByTrain != name
    ensures
      var o := J.Occupy(st, s, name);
      o.returned && StoreOk(o.store.(numberOfTrains := st.numberOfTrains + 1, idTrains := if name >= st.idTrains then name + 1 else st.idTrains))
  {
    CountChanges(st.sections, s, st.sections[s].(busy := true, usedByTrain := name));
  }

  /** A train is carried over from the section behind, under its own name. */
  lemma CarryOk(st: J.Store, s: nat, back: nat)
    requires StoreOk(st) && s < |st.sections| && back < |st.sections| && s != back
    requires !st.sections[s].busy && st.sections[back].busy
    ensures
      var o := J.Occupy(st, s, st.sections[back].usedByTrain);
      var f := J.Free(o.store, back);
      o.returned && f.returned && StoreOk(f.store)
  {
    var c := st.sections[s].(busy := true, usedByTrain := st.sections[back].usedByTrain);
    CountChanges(st.sections, s, c);
    CountChanges(st.sections[s := c], back, st.sections[back].(busy := false, usedByTrain := -1));
  }

  lemma RemoveOk(st: J.Store, s: nat)
    requires StoreOk(st) && s < |st.sections| && st.sections[s].isEntry && st.sections[s].busy
    ensures J.ExitTrain(st, s).returned && StoreOk(J.ExitTrain(st, s).store)
  {
    CountChanges(st.sections, s, st.sections[s].(busy := false, usedByTrain := -1));
  }

  lemma CrossingKeepsStep(d: D.Dc, j: J.Jg, s: int)
    requires InStep(d, j) && D.Accepts(d, Crossing(s))
    ensures InStep(D.CrossingEvent(d, s), J.CrossingEvent(j, s)) && J.CrossingEvent(j, s).halted == j.halted
  {
    D.HandleKeeps(d, Crossing(s));
    CarryOk(j.store, s, Prev(J.Size(j), s));
  }

  lemma EntryKeepsStep(d: D.Dc, j: J.Jg, s: nat)
    requires InStep(d, j) && s < |d.sections| && D.Accepts(d, Entry(s))
    ensures InStep(D.EntryEvent(d, s), J.EntryEvent(j, s)) && J.EntryEvent(j, s).halted == j.halted
  {
    var st := j.store;
    D.HandleKeeps(d, Entry(s));
    var c := st.sections[s].(usedEntry := false);
    PutOk(st, s, c);
    OccupyOk(J.Put(st, s, c), s, st.idTrains);
  }

  lemma ExitKeepsStep(d: D.Dc, j: J.Jg, s: nat)
    requires InStep(d, j) && s < |d.sections| && D.Accepts(d, Exit(s))
    ensures InStep(D.ExitEvent(d, s), J.ExitEvent(j, s)) && J.ExitEvent(j, s).halted == j.halted
  {
    D.HandleKeeps(d, Exit(s));
    RemoveOk(j.store, s);
  }

  lemma RequestKeepsStep(d: D.Dc, j: J.Jg, s: nat)
    requires InStep(d, j) && s < |d.sections| && D.Accepts(d, Request(s)) && Fair(j, Request(s))
    ensures InStep(D.RequestEntry(d, s), J.RequestEntry(j, s).0) && J.RequestEntry(j, s).0.halted == j.halted
    ensures J.RequestEntry(j, s).1
  {
    D.HandleKeeps(d, Request(s));
    PutOk(j.store, s, j.store.sections[s].(usedEntry := true));
  }

  lemma CancelKeepsStep(d: D.Dc, j: J.Jg, s: nat)
    requires InStep(d, j) && s < |d.sections| && D.Accepts(d, Cancel(s))
    ensures InStep(D.CancelEntry(d, s), J.CancelEntry(j, s)) && J.CancelEntry(j, s).halted == j.halted
  {
    D.HandleKeeps(d, Cancel(s));
    PutOk(j.store, s, j.store.sections[s].(usedEntry := false));
  }

  /** Machines in step stay in step over every event the first accepts, if it is fair; the second does
      not call for a stop, and gives the same answer to a request. */
  lemma EventKeepsStep(d: D.Dc, j: J.Jg, e: Event)
    requires InStep(d, j) && InRange(|d.sections|, e) && D.Accepts(d, e) && Fair(j, e)
    ensures InStep(D.Handle(d, e), J.Handle(j, e)) && J.Handle(j, e).halted == j.halted
    ensures e.Request? ==> J.RequestEntry(j, e.section).1
  {
    hide InStep;
    match e
    case Crossing(s) => CrossingKeepsStep(d, j, s);
    case Entry(s) => EntryKeepsStep(d, j, s);
    case Exit(s) => ExitKeepsStep(d, j, s);
    case Request(s) => RequestKeepsStep(d, j, s);
    case Cancel(s) => CancelKeepsStep(d, j, s);
  }

  // ---------------------------------------------------------------- every run

  function HandleAll(j: J.Jg, es: seq<Event>): (r: J.Jg)
    requires J.Sized(j) && forall i :: 0 <= i < |es| ==> InRange(J.Size(j), es[i])
    ensures J.Sized(r) && J.Size(r) == J.Size(j)
  {
    if es == [] then j else J.Handle(HandleAll(j, es[..|es| - 1]), es[|es| - 1])
  }

  /** Every event of the sequence is accepted by the first machine when it comes, and fair. */
  predicate GoodRun(d: D.Dc, j: J.Jg, es: seq<Event>)
    requires D.Sized(d) && J.Sized(j) && |d.sections| == J.Size(j)
    requires forall i :: 0 <= i < |es| ==> InRange(|d.sections|, es[i])
  {
    if es == [] then true
    else
      var m := |es| - 1;
      && GoodRun(d, j, es[..m])
      && D.Accepts(D.HandleAll(d, es[..m]), es[m])
      && Fair(HandleAll(j, es[..m]), es[m])
  }

  /** A store set up with its entry sections only. */
  predicate BlankStore(j: J.Jg) {
    && J.Sized(j) && !j.halted && j.store.numberOfTrains == 0 && j.store.idTrains == 0
    && forall s :: 0 <= s < J.Size(j) ==>
         && !j.store.sections[s].busy && j.store.sections[s].usedByTrain == -1
         && !j.store.sections[s].usedEntry && !j.lights[s]
  }

  predicate Distinct(locations: seq<int>) {
    forall i, k :: 0 <= i < k < |locations| ==> locations[i] != locations[k]
  }

  /** Trains put in one after the other into free sections of their own are all accepted. */
  lemma {:induction false} InsertOk(st: J.Store, locations: seq<int>)
    requires StoreOk(st) && st.idTrains >= 0 && Distinct(locations)
    requires forall i :: 0 <= i < |locations| ==> 0 <= locations[i] < |st.sections| && !st.sections[locations[i]].busy
    requires st.numberOfTrains + |locations| <= st.maxTrains
    ensures
      var o := J.Insert(st, locations);
      && o.returned && StoreOk(o.store) && o.store.idTrains >= 0 && o.store.maxTrains == st.maxTrains
      && forall s :: 0 <= s < |st.sections| ==>
           o.store.sections[s] == st.sections[s].(busy := o.store.sections[s].busy, usedByTrain := o.store.sections[s].usedByTrain)
           && (o.store.sections[s].busy <==> st.sections[s].busy || s in locations)
    decreases |locations|
  {
    if locations != [] {
      var s := locations[0];
      OccupyOk(st, s, st.idTrains);
      var o := J.InsertNewTrain(st, s);
      assert forall x :: x in locations <==> x == s || x in locations[1..];
      InsertOk(o.store, locations[1..]);
    }
  }

  lemma SecondStarts(j: J.Jg, locations: seq<int>)
    requires BlankStore(j) && Distinct(locations)
    requires forall i :: 0 <= i < |locations| ==> 0 <= locations[i] < J.Size(j)
    requires |locations| <= j.store.maxTrains
    ensures
      var r := J.InitialState(j, locations);
      && !r.halted && StoreOk(r.store) && r.store.idTrains >= 0 && LightsAtFreeFronts(r)
      && forall s :: 0 <= s < J.Size(j) ==>
           && (r.store.sections[s].busy <==> s in locations)
           && r.store.sections[s].isEntry == j.store.sections[s].isEntry && !r.store.sections[s].usedEntry
  {
    CountSays(j.store.sections);
    InsertOk(j.store, locations);
  }

  /** Told the same initial locations, the two machines start in step. */
  lemma StartInStep(d: D.Dc, j: J.Jg, locations: seq<int>)
    requires D.Blank(d) && BlankStore(j) && SameBooks(d, j) && Distinct(locations)
    requires forall i :: 0 <= i < |locations| ==> 0 <= locations[i] < |d.sections|
    requires |locations| <= j.store.maxTrains
    ensures InStep(D.InitialState(d, locations), J.InitialState(j, locations))
    ensures !J.InitialState(j, locations).halted
    ensures LightsAtFreeFronts(J.InitialState(j, locations))
  {
    hide StoreOk, J.InitialState, D.InitialState, LightsAtFreeFronts, D.LightsTell, BlankStore, D.Blank, Distinct;
    SecondStarts(j, locations);
    FirstStarts(d, locations);
  }

  lemma FirstStarts(d: D.Dc, locations: seq<int>)
    requires D.Blank(d) && forall i :: 0 <= i < |locations| ==> 0 <= locations[i] < |d.sections|
    ensures
      var r := D.InitialState(d, locations);
      && D.Sized(r) && D.LightsTell(r) && |r.sections| == |d.sections|
      && forall s :: 0 <= s < |d.sections| ==>
           && (r.sections[s].hasTrain <==> s in locations)
           && r.sections[s].hasEntry == d.sections[s].hasEntry && !r.sections[s].requested
  {}

  lemma {:induction false} ReturnedOnlyIf(st: J.Store, locations: seq<int>)
    requires StoreOk(st) && st.idTrains >= 0 && J.Insert(st, locations).returned
    ensures Distinct(locations) && (locations == [] || st.numberOfTrains + |locations| <= st.maxTrains)
    ensures forall i :: 0 <= i < |locations| ==> 0 <= locations[i] < |st.sections| && !st.sections[locations[i]].busy
    decreases |locations|
  {
    if locations != [] {
      var s, rest := locations[0], locations[1..];
      OccupyOk(st, s, st.idTrains);
      ReturnedOnlyIf(J.InsertNewTrain(st, s).store, rest);
      assert forall i :: 0 < i < |locations| ==> locations[i] == rest[i - 1] != s;
      assert forall i, k :: 0 < i < k < |locations| ==> locations[i] == rest[i - 1] != rest[k - 1] == locations[k];
    }
  }

  lemma {:induction false} NamedInTurn(st: J.Store, locations: seq<int>, s: nat)
    requires StoreOk(st) && st.idTrains >= 0 && J.Insert(st, locations).returned && s < |st.sections|
    ensures
      var name := J.Insert(st, locations).store.sections[s].usedByTrain;
      && (s !in locations ==> name == st.sections[s].usedByTrain)
      && (s in locations ==> 0 <= name - st.idTrains < |locations| && locations[name - st.idTrains] == s)
    decreases |locations|
  {
    if locations != [] {
      OccupyOk(st, locations[0], st.idTrains);
      ReturnedOnlyIf(st, locations);
      var o, rest := J.InsertNewTrain(st, locations[0]), locations[1..];
      assert s in locations <==> s == locations[0] || s in rest;
      NamedInTurn(o.store, rest, s);
    }
  }

  /** The second machine halts at the start exactly if two trains are to be in one section, a section does not exist,
      or there are too many trains; otherwise it names the trains in their order. */
  lemma HaltsAtStartIff(j: J.Jg, locations: seq<int>)
    requires BlankStore(j) && j.store.maxTrains >= 0
    ensures
      var r := J.InitialState(j, locations);
      && (r.halted <==> !(Distinct(locations) && |locations| <= j.store.maxTrains
                          && forall i :: 0 <= i < |locations| ==> 0 <= locations[i] < J.Size(j)))
      && (!r.halted ==> forall i :: 0 <= i < |locations| ==>
            0 <= locations[i] < J.Size(j) && r.store.sections[locations[i]].usedByTrain == i)
  {
    CountSays(j.store.sections);
    hide J.Insert, Count;
    if J.Insert(j.store, locations).returned {
      ReturnedOnlyIf(j.store, locations);
      forall i | 0 <= i < |locations|
        ensures 0 <= locations[i] < J.Size(j) && J.InitialState(j, locations).store.sections[locations[i]].usedByTrain == i
      {
        NamedInTurn(j.store, locations, locations[i]);
      }
    } else if Distinct(locations) && |locations| <= j.store.maxTrains
              && forall i :: 0 <= i < |locations| ==> 0 <= locations[i] < J.Size(j) {
      InsertOk(j.store, locations);
    }
  }

  lemma {:induction false} BookedUpTo(sections: seq<D.Section>, locations: seq<int>, k: nat)
    requires k < |locations| && (forall i :: 0 <= i < k ==> 0 <= locations[i] < |sections|)
    requires !(0 <= locations[k] < |sections|)
    ensures D.Book(sections, locations) == (D.Book(sections, locations[..k]).0, false)
    decreases k
  {
    if k > 0 {
      var s := locations[0];
      assert locations[..k][1..] == locations[1..][..k - 1];
      BookedUpTo(sections[s := sections[s].(hasTrain := true)], locations[1..], k - 1);
    }
  }

  /** The first machine stops at the start exactly if a section does not exist: the trains listed before it are booked
      then, and no light is lit.  That two trains are to be in one section it does not see. */
  lemma StopsAtStartIff(d: D.Dc, locations: seq<int>, k: nat)
    requires D.Sized(d) && k <= |locations| && (forall i :: 0 <= i < k ==> 0 <= locations[i] < |d.sections|)
    requires k < |locations| ==> !(0 <= locations[k] < |d.sections|)
    ensures
      var r := D.InitialState(d, locations);
      && (r.estop <==> d.estop || k < |locations|)
      && (k < |locations| ==> r.lights == d.lights)
      && forall s :: 0 <= s < |d.sections| ==> (r.sections[s].hasTrain <==> d.sections[s].hasTrain || s in locations[..k])
  {
    if k < |locations| {
      BookedUpTo(d.sections, locations, k);
    } else {
      assert locations[..k] == locations;
    }
  }

  /** Two-version lockstep: over every run of fair events that the first machine accepts, the second never
      calls for a stop and its store stays equal to the other's, with its trains counted and named apart. */
  lemma {:induction false} LockstepOnEveryRun(d: D.Dc, j: J.Jg, es: seq<Event>)
    requires D.Sized(d) && J.Sized(j) && |d.sections| == J.Size(j) && InStep(d, j)
    requires forall i :: 0 <= i < |es| ==> InRange(|d.sections|, es[i])
    requires GoodRun(d, j, es)
    ensures InStep(D.HandleAll(d, es), HandleAll(j, es)) && HandleAll(j, es).halted == j.halted
  {
    hide InStep, StoreOk, Fair;
    if es != [] {
      var m := |es| - 1;
      LockstepOnEveryRun(d, j, es[..m]);
      EventKeepsStep(D.HandleAll(d, es[..m]), HandleAll(j, es[..m]), es[m]);
    }
  }

  // ---------------------------------------------------------------- the names of trains

  /** A crossing carries the name of its train on, an entry gives a name that is new, an exit ends one; nothing else
      names a train or takes its name. */
  lemma NamesAreCarried(d: D.Dc, j: J.Jg, e: Event, u: nat)
    requires InStep(d, j) && InRange(|d.sections|, e) && D.Accepts(d, e) && Fair(j, e) && u < J.Size(j)
    ensures
      var st, r := j.store, J.Handle(j, e).store;
      r.sections[u].usedByTrain == match e
        case Crossing(s) => (
          var back := Prev(J.Size(j), s);
          if u == s then st.sections[back].usedByTrain else if u == back then -1 else st.sections[u].usedByTrain)
        case Entry(s) => if u == s then st.idTrains else st.sections[u].usedByTrain
        case Exit(s) => if u == s then -1 else st.sections[u].usedByTrain
        case _ => st.sections[u].usedByTrain
  {
    hide Count;
  }

  /** Only an entry uses up a name. */
  lemma NamesAreCounted(d: D.Dc, j: J.Jg, e: Event)
    requires InStep(d, j) && InRange(|d.sections|, e) && D.Accepts(d, e) && Fair(j, e)
    ensures
      var r := J.Handle(j, e).store;
      r.maxTrains == j.store.maxTrains && r.idTrains == j.store.idTrains + (if e.Entry? then 1 else 0)
  {
    hide Count;
  }

  /** The train of this name is in some section. */
  ghost predicate IsNamed(j: J.Jg, name: int) {
    exists u :: 0 <= u < J.Size(j) && j.store.sections[u].usedByTrain == name
  }

  /** On every such run a train that has gone never comes back under its name: one seen afterwards under a name given
      before has been there all along. */
  lemma {:induction false} NamesAreNotReused(d: D.Dc, j: J.Jg, es: seq<Event>, name: nat)
    requires D.Sized(d) && J.Sized(j) && |d.sections| == J.Size(j) && InStep(d, j)
    requires forall i :: 0 <= i < |es| ==> InRange(|d.sections|, es[i])
    requires GoodRun(d, j, es) && name < j.store.idTrains
    ensures HandleAll(j, es).store.idTrains >= j.store.idTrains
    ensures IsNamed(HandleAll(j, es), name) ==> IsNamed(j, name)
  {
    hide InStep, StoreOk, Fair, J.Handle, D.Handle, D.Accepts;
    if es != [] {
      var m := |es| - 1;
      var q, r := HandleAll(j, es[..m]), HandleAll(j, es);
      NamesAreNotReused(d, j, es[..m], name);
      LockstepOnEveryRun(d, j, es[..m]);
      NamesAreCounted(D.HandleAll(d, es[..m]), q, es[m]);
      if IsNamed(r, name) {
        var u :| 0 <= u < J.Size(r) && r.store.sections[u].usedByTrain == name;
        NamesAreCarried(D.HandleAll(d, es[..m]), q, es[m], u);
        var from := if es[m] == Crossing(u) then Prev(J.Size(j), u) else u;
        assert q.store.sections[from].usedByTrain == name;
      }
    }
  }

  // ---------------------------------------------------------------- where the two disagree

  /** The second machine takes the event: no stop, and yes to a request. */
  predicate Takes(j: J.Jg, e: Event)
    requires J.Sized(j) && InRange(J.Size(j), e)
  {
    J.Handle(j, e).halted == j.halted && (e.Request? ==> J.RequestEntry(j, e.section).1)
  }

  /** Only the first looks at a pending entry when a train crosses; of a request the first looks at the section
      behind, the second at the number of trains and at whether the entry is in use. */
  predicate Divergent(j: J.Jg, e: Event)
    requires J.Sized(j) && InRange(J.Size(j), e)
  {
    var n := J.Size(j);
    match e
    case Crossing(s) =>
      0 <= s < n && j.store.sections[s].usedEntry && !J.Busy(j, s) && J.Busy(j, Prev(n, s))
    case Request(s) =>
      && j.store.sections[s].isEntry && !J.Busy(j, s)
      && (!J.Busy(j, Prev(n, s)) != (!j.store.sections[s].usedEntry && j.store.numberOfTrains < j.store.maxTrains))
    case _ => false
  }

  /** Machines in step, not yet stopped, judge an event alike exactly if it is not divergent. */
  lemma AgreeUnlessDivergent(d: D.Dc, j: J.Jg, e: Event)
    requires InStep(d, j) && !j.halted && InRange(|d.sections|, e)
    ensures (D.Accepts(d, e) <==> Takes(j, e)) <==> !Divergent(j, e)
  {
    match e
    case Crossing(s) =>
      if 0 <= s < J.Size(j) && !J.Busy(j, s) && J.Busy(j, Prev(J.Size(j), s)) {
        CarryOk(j.store, s, Prev(J.Size(j), s));
      }
    case Entry(s) =>
    case Exit(s) =>
    case Request(s) =>
    case Cancel(s) =>
  }

  /** In any state of its store, consistent or not, the second machine halts exactly at these: a crossing out of range,
      into a section that is busy or named, or with nobody behind; an entry without a reservation or into such a section;
      an exit without an entrance or a train; a request for a free section without an entrance or at the train cap; and a
      cancellation without a reservation. */
  lemma HaltsIff(j: J.Jg, e: Event)
    requires J.Sized(j) && InRange(J.Size(j), e) && !j.halted
    ensures J.Handle(j, e).halted <==> match e
              case Crossing(s) =>
                s < 0 || s >= J.Size(j) || Used(j, s) || !j.store.sections[if s == 0 then J.Size(j) - 1 else s - 1].busy
              case Entry(s) => !Reserved(j, s) || Used(j, s)
              case Exit(s) => !j.store.sections[s].isEntry || !j.store.sections[s].busy
              case Request(s) =>
                !j.store.sections[s].busy && (j.store.numberOfTrains >= j.store.maxTrains || !j.store.sections[s].isEntry)
              case Cancel(s) => !Reserved(j, s)
  {}

  predicate Used(j: J.Jg, s: nat)
    requires s < J.Size(j)
  {
    j.store.sections[s].busy || j.store.sections[s].usedByTrain != -1
  }

  predicate Reserved(j: J.Jg, s: nat)
    requires s < J.Size(j)
  {
    j.store.sections[s].isEntry && j.store.sections[s].usedEntry
  }

  /** A request for section s is refused without further ado. */
  predicate QuietNo(j: J.Jg, s: nat)
    requires s < J.Size(j)
  {
    J.Busy(j, s) || (j.store.sections[s].usedEntry && j.store.numberOfTrains < j.store.maxTrains)
  }

  /** What the second machine does not take leaves its store alone.  It halts, unless it is a request that finds the
      section occupied or its entry in use; and a crossing into a free section with nobody behind still costs the light. */
  lemma RefusalsLeave(d: D.Dc, j: J.Jg, e: Event)
    requires InStep(d, j) && !j.halted && InRange(|d.sections|, e) && !Takes(j, e)
    ensures
      var r := J.Handle(j, e);
      && r.store == j.store
      && (r.halted <==> !(e.Request? && QuietNo(j, e.section)))
      && (e.Request? ==> !J.RequestEntry(j, e.section).1)
      && r.lights == if e.Crossing? && 0 <= e.section < J.Size(j) && !J.Busy(j, e.section)
                     then j.lights[e.section := false] else j.lights
  {
    hide Count;
    match e
    case Crossing(s) =>
      if 0 <= s < J.Size(j) && !J.Busy(j, s) && J.Busy(j, Prev(J.Size(j), s)) {
        CarryOk(j.store, s, Prev(J.Size(j), s));
      }
    case Entry(s) =>
    case Exit(s) =>
    case Request(s) =>
    case Cancel(s) =>
  }

  // ---------------------------------------------------------------- the lights of the second machine

  /** Green exactly at the free sections that have a train right behind them. */
  predicate LightsAtFreeFronts(j: J.Jg)
    requires J.Sized(j)
  {
    forall s :: 0 <= s < J.Size(j) ==> j.lights[s] == (J.Busy(j, Prev(J.Size(j), s)) && !J.Busy(j, s))
  }

  /** Green at the free sections with a train right behind them, and nowhere without one behind. */
  predicate LightsCoverFronts(j: J.Jg)
    requires J.Sized(j)
  {
    forall s :: 0 <= s < J.Size(j) ==>
      && (j.lights[s] ==> J.Busy(j, Prev(J.Size(j), s)))
      && (J.Busy(j, Prev(J.Size(j), s)) && !J.Busy(j, s) ==> j.lights[s])
  }

  /** What a crossing taken in step does to the second machine. */
  lemma CrossingShows(d: D.Dc, j: J.Jg, s: int)
    requires InStep(d, j) && D.Accepts(d, Crossing(s))
    ensures
      var n, r := J.Size(j), J.CrossingEvent(j, s);
      var back, next := Prev(n, s), Next(n, s);
      && s != back
      && (forall u :: 0 <= u < n ==> J.Busy(r, u) == (u == s || (u != back && J.Busy(j, u))))
      && (forall u :: 0 <= u < n ==>
            r.lights[u] == ((u == next && !J.Busy(r, next)) || (u == back && J.Busy(r, Prev(n, back))) || (u != s && j.lights[u])))
  {
    CarryOk(j.store, s, Prev(J.Size(j), s));
  }

  lemma CrossingKeepsLights(d: D.Dc, j: J.Jg, s: int)
    requires InStep(d, j) && D.Accepts(d, Crossing(s))
    ensures LightsCoverFronts(j) ==> LightsCoverFronts(J.CrossingEvent(j, s))
    ensures LightsAtFreeFronts(j) ==> LightsAtFreeFronts(J.CrossingEvent(j, s))
  {
    CrossingShows(d, j, s);
    hide J.CrossingEvent, InStep;
    var n, r := J.Size(j), J.CrossingEvent(j, s);
    forall u | 0 <= u < n ensures Prev(n, u) == s <==> u == Next(n, s) { PrevOfNext(n, s); }
  }

  /** What an entry taken in step does: nothing to the light of its own section. */
  lemma EntryShows(d: D.Dc, j: J.Jg, s: nat)
    requires InStep(d, j) && s < |d.sections| && D.Accepts(d, Entry(s))
    ensures
      var n, r := J.Size(j), J.EntryEvent(j, s);
      && !J.Busy(j, s)
      && (forall u :: 0 <= u < n ==> J.Busy(r, u) == (u == s || J.Busy(j, u)))
      && (forall u :: 0 <= u < n ==> r.lights[u] == ((u == Next(n, s) && !J.Busy(r, Next(n, s))) || j.lights[u]))
  {
    var c := j.store.sections[s].(usedEntry := false);
    PutOk(j.store, s, c);
    OccupyOk(J.Put(j.store, s, c), s, j.store.idTrains);
  }

  /** An entry keeps the strict rule exactly if no train has come up right behind the section meanwhile. */
  lemma EntryKeepsLights(d: D.Dc, j: J.Jg, s: nat)
    requires InStep(d, j) && s < |d.sections| && D.Accepts(d, Entry(s))
    ensures LightsCoverFronts(j) ==> LightsCoverFronts(J.EntryEvent(j, s))
    ensures LightsAtFreeFronts(j) ==>
              (LightsAtFreeFronts(J.EntryEvent(j, s)) <==> !J.Busy(j, Prev(J.Size(j), s)))
  {
    EntryShows(d, j, s);
    hide J.EntryEvent, InStep;
    var n, r := J.Size(j), J.EntryEvent(j, s);
    forall u | 0 <= u < n ensures Prev(n, u) == s <==> u == Next(n, s) { PrevOfNext(n, s); }
  }

  lemma ExitKeepsLights(d: D.Dc, j: J.Jg, s: nat)
    requires InStep(d, j) && s < |d.sections| && D.Accepts(d, Exit(s))
    ensures LightsCoverFronts(j) ==> LightsCoverFronts(J.ExitEvent(j, s))
    ensures LightsAtFreeFronts(j) ==> LightsAtFreeFronts(J.ExitEvent(j, s))
  {
    var n, r := J.Size(j), J.ExitEvent(j, s);
    forall u | 0 <= u < n ensures Prev(n, u) == s <==> u == Next(n, s) { PrevOfNext(n, s); }
    assert forall u :: 0 <= u < n ==> J.Busy(r, u) == (u != s && J.Busy(j, u));
  }

  lemma RequestKeepsLights(d: D.Dc, j: J.Jg, s: nat)
    requires InStep(d, j) && s < |d.sections| && D.Accepts(d, Request(s)) && Fair(j, Request(s))
    ensures LightsCoverFronts(j) ==> LightsCoverFronts(J.RequestEntry(j, s).0)
    ensures LightsAtFreeFronts(j) ==> LightsAtFreeFronts(J.RequestEntry(j, s).0)
  {}

  lemma CancelKeepsLights(d: D.Dc, j: J.Jg, s: nat)
    requires InStep(d, j) && s < |d.sections| && D.Accepts(d, Cancel(s))
    ensures LightsCoverFronts(j) ==> LightsCoverFronts(J.CancelEntry(j, s))
    ensures LightsAtFreeFronts(j) ==> LightsAtFreeFronts(J.CancelEntry(j, s))
  {}

  /** The weaker rule holds after every event taken in step; the strict one is broken by nothing but an entry
      into a section that a train has come up behind while the entry was pending. */
  lemma EventKeepsLights(d: D.Dc, j: J.Jg, e: Event)
    requires InStep(d, j) && InRange(|d.sections|, e) && D.Accepts(d, e) && Fair(j, e)
    ensures LightsCoverFronts(j) ==> LightsCoverFronts(J.Handle(j, e))
    ensures LightsAtFreeFronts(j) ==>
              (LightsAtFreeFronts(J.Handle(j, e)) <==> !(e.Entry? && J.Busy(j, Prev(J.Size(j), e.section))))
  {
    hide InStep, LightsCoverFronts, LightsAtFreeFronts;
    match e
    case Crossing(s) => CrossingKeepsLights(d, j, s);
    case Entry(s) => EntryKeepsLights(d, j, s);
    case Exit(s) => ExitKeepsLights(d, j, s);
    case Request(s) => RequestKeepsLights(d, j, s);
    case Cancel(s) => CancelKeepsLights(d, j, s);
  }

  lemma {:induction false} CoverOnEveryRun(d: D.Dc, j: J.Jg, es: seq<Event>)
    requires D.Sized(d) && J.Sized(j) && |d.sections| == J.Size(j) && InStep(d, j)
    requires forall i :: 0 <= i < |es| ==> InRange(|d.sections|, es[i])
    requires GoodRun(d, j, es) && LightsCoverFronts(j)
    ensures LightsCoverFronts(HandleAll(j, es))
  {
    hide InStep, StoreOk, Fair, LightsCoverFronts, LightsAtFreeFronts;
    if es != [] {
      var m := |es| - 1;
      CoverOnEveryRun(d, j, es[..m]);
      LockstepOnEveryRun(d, j, es[..m]);
      EventKeepsLights(D.HandleAll(d, es[..m]), HandleAll(j, es[..m]), es[m]);
    }
  }

  /** The strict rule holds at the start and after every event of the run. */
  predicate AlwaysStrict(j: J.Jg, es: seq<Event>)
    requires J.Sized(j) && forall i :: 0 <= i < |es| ==> InRange(J.Size(j), es[i])
  {
    LightsAtFreeFronts(HandleAll(j, es)) && (es == [] || AlwaysStrict(j, es[..|es| - 1]))
  }

  /** Whenever a train of the run enters a section, the section behind that is free. */
  predicate EntriesFindFree(j: J.Jg, es: seq<Event>)
    requires J.Sized(j) && forall i :: 0 <= i < |es| ==> InRange(J.Size(j), es[i])
  {
    es == [] || (
      var m := |es| - 1;
      assert InRange(J.Size(j), es[m]);
      && EntriesFindFree(j, es[..m])
      && (es[m].Entry? ==> !J.Busy(HandleAll(j, es[..m]), Prev(J.Size(j), es[m].section))))
  }

  /** On a run of fair, accepted events the second machine's light is green exactly at the free sections with
      a train right behind, all along, exactly if no train enters with another one right behind it. */
  lemma {:induction false} StrictIffFreeEntries(d: D.Dc, j: J.Jg, es: seq<Event>)
    requires D.Sized(d) && J.Sized(j) && |d.sections| == J.Size(j) && InStep(d, j)
    requires forall i :: 0 <= i < |es| ==> InRange(|d.sections|, es[i])
    requires GoodRun(d, j, es) && LightsAtFreeFronts(j)
    ensures AlwaysStrict(j, es) <==> EntriesFindFree(j, es)
  {
    hide InStep, StoreOk, Fair, LightsCoverFronts, LightsAtFreeFronts;
    if es != [] {
      var m := |es| - 1;
      StrictIffFreeEntries(d, j, es[..m]);
      LockstepOnEveryRun(d, j, es[..m]);
      EventKeepsLights(D.HandleAll(d, es[..m]), HandleAll(j, es[..m]), es[m]);
    }
  }

  /** Such a run there is, from the start of both machines: on a line of three sections an entry into 1 is
      asked for, the train of section 2 crosses into 0, right behind it, and then the entry comes. */
  lemma StrictFails() returns (d: D.Dc, j: J.Jg, locations: seq<int>, es: seq<Event>)
    ensures D.Blank(d) && BlankStore(j) && SameBooks(d, j) && Distinct(locations) && |locations| <= j.store.maxTrains
    ensures forall i :: 0 <= i < |locations| ==> 0 <= locations[i] < |d.sections|
    ensures forall i :: 0 <= i < |es| ==> InRange(|d.sections|, es[i])
    ensures GoodRun(D.InitialState(d, locations), J.InitialState(j, locations), es)
    ensures !AlwaysStrict(J.InitialState(j, locations), es)
  {
    var no := [false, false, false];
    d := D.Dc([D.Section(false, false, false), D.Section(true, false, false), D.Section(false, false, false)], no, false);
    j := J.Jg(J.Store([J.Section(-1, false, false, false), J.Section(-1, false, true, false), J.Section(-1, false, false, false)],
                      0, 0, 2), no, false);
    locations := [2];
    StartInStep(d, j, locations);
    es := EntryBehindClosed(D.InitialState(d, locations), J.InitialState(j, locations));
  }

  lemma EntryBehindClosed(d: D.Dc, j: J.Jg) returns (es: seq<Event>)
    requires InStep(d, j) && |d.sections| == 3 && LightsAtFreeFronts(j) && j.store.numberOfTrains < j.store.maxTrains
    requires forall s :: 0 <= s < 3 ==> d.sections[s] == D.Section(s == 1, s == 2, false)
    ensures forall i :: 0 <= i < |es| ==> InRange(3, es[i])
    ensures GoodRun(d, j, es) && !AlwaysStrict(j, es)
  {
    hide J.Handle, LightsAtFreeFronts, StoreOk;
    es := [];
    es := OneMoreEvent(d, j, es, Request(1));
    es := OneMoreEvent(d, j, es, Crossing(0));
    es := OneMoreEvent(d, j, es, Entry(1));
    StrictIffFreeEntries(d, j, es);
  }

  lemma OneMoreEvent(d: D.Dc, j: J.Jg, es: seq<Event>, e: Event) returns (more: seq<Event>)
    requires D.Sized(d) && J.Sized(j) && |d.sections| == J.Size(j) && InStep(d, j) && InRange(|d.sections|, e)
    requires forall i :: 0 <= i < |es| ==> InRange(|d.sections|, es[i])
    requires GoodRun(d, j, es) && D.Accepts(D.HandleAll(d, es), e) && Fair(HandleAll(j, es), e)
    ensures forall i :: 0 <= i < |more| ==> InRange(|d.sections|, more[i])
    ensures GoodRun(d, j, more) && D.HandleAll(d, more) == D.Handle(D.HandleAll(d, es), e)
    ensures InStep(D.HandleAll(d, more), HandleAll(j, more))
    ensures HandleAll(j, more) == J.Handle(HandleAll(j, es), e)
    ensures e.Entry? && J.Busy(HandleAll(j, es), Prev(J.Size(j), e.section)) ==> !EntriesFindFree(j, more)
  {
    hide InStep, StoreOk, J.Handle, D.Handle, D.Accepts, Fair;
    more := es + [e];
    assert more[..|more| - 1] == es;
    LockstepOnEveryRun(d, j, more);
  }

  // ---------------------------------------------------------------- the joint vote

  /** On every run of fair, accepted events, entries included, the joint vote of the two machines is green
      exactly at the sections that are free, not asked for, and have a train right behind them. */
  lemma JointVote(d: D.Dc, j: J.Jg, locations: seq<int>, es: seq<Event>, s: nat)
    requires D.Blank(d) && BlankStore(j) && SameBooks(d, j) && Distinct(locations)
    requires forall i :: 0 <= i < |locations| ==> 0 <= locations[i] < |d.sections|
    requires |locations| <= j.store.maxTrains
    requires forall i :: 0 <= i < |es| ==> InRange(|d.sections|, es[i])
    requires GoodRun(D.InitialState(d, locations), J.InitialState(j, locations), es) && s < |d.sections|
    ensures
      var d', j' := D.HandleAll(D.InitialState(d, locations), es), HandleAll(J.InitialState(j, locations), es);
      d'.lights[s] && j'.lights[s] <==>
        !d'.sections[s].hasTrain && !d'.sections[s].requested && d'.sections[Prev(|d.sections|, s)].hasTrain
  {
    hide InStep, StoreOk, LightsCoverFronts, LightsAtFreeFronts, GoodRun, Distinct, D.InitialState, J.InitialState,
         D.HandleAll, HandleAll;
    StartInStep(d, j, locations);
    var d0, j0 := D.InitialState(d, locations), J.InitialState(j, locations);
    StrictCovers(j0);
    InStepSizes(d0, j0);
    LockstepOnEveryRun(d0, j0, es);
    CoverOnEveryRun(d0, j0, es);
    VoteInStep(D.HandleAll(d0, es), HandleAll(j0, es), s);
  }

  lemma StrictCovers(j: J.Jg)
    requires J.Sized(j) && LightsAtFreeFronts(j)
    ensures LightsCoverFronts(j)
  {}

  lemma InStepSizes(d: D.Dc, j: J.Jg)
    requires InStep(d, j)
    ensures D.Sized(d) && J.Sized(j) && |d.sections| == J.Size(j)
  {
    hide StoreOk;
  }

  /** Machines in step, with green lights of the second at all free fronts, vote green at exactly those not asked for. */
  lemma VoteInStep(d: D.Dc, j: J.Jg, s: nat)
    requires InStep(d, j) && LightsCoverFronts(j) && s < |d.sections|
    ensures s < |d.lights| && s < |j.lights|
    ensures d.lights[s] && j.lights[s] <==>
              !d.sections[s].hasTrain && !d.sections[s].requested && d.sections[Prev(|d.sections|, s)].hasTrain
  {
    hide StoreOk;
  }

  /** The interlock does not block itself: as long as there are trains but not in all sections, and nobody
      is waiting to enter, some section is green under both votes, with a train right behind it. */
  lemma SomebodyMayGo(d: D.Dc, j: J.Jg) returns (s: nat)
    requires InStep(d, j) && LightsCoverFronts(j)
    requires 0 < j.store.numberOfTrains < J.Size(j)
    requires forall u :: 0 <= u < J.Size(j) ==> !d.sections[u].requested
    ensures s < J.Size(j) && d.lights[s] && j.lights[s] && d.sections[Prev(J.Size(j), s)].hasTrain
  {
    var n := J.Size(j);
    CountSays(j.store.sections);
    var b := seq(n, i requires 0 <= i < n => J.Busy(j, i));
    var busy :| 0 <= busy < n && j.store.sections[busy].busy;
    var free :| 0 <= free < n && !j.store.sections[free].busy;
    assert b[busy] && !b[free];
    var k := SomewhereToGo(b);
    s := Next(n, k);
    PrevOfNext(n, k);
  }

  /** An entry pending while a train comes up behind: the second machine alone would then show green into the
      section just entered; the first does not. */
  lemma StaleGreenIsMasked(d: D.Dc, j: J.Jg, s: nat)
    requires InStep(d, j) && LightsAtFreeFronts(j) && s < |d.sections|
    requires D.Accepts(d, Entry(s)) && J.Busy(j, Prev(J.Size(j), s))
    ensures J.EntryEvent(j, s).lights[s] && J.Busy(J.EntryEvent(j, s), s) && !D.EntryEvent(d, s).lights[s]
  {
    EntryShows(d, j, s);
  }
}
