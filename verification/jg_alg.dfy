/** The second safety algorithm, written independently of the first (classic_tcontrol/jg_alg.cpp), on top of its own store
    of sections.  The store throws on anything unexpected, sometimes after it has been changed; the algorithm catches
    what is thrown and calls for an emergency stop. */
module JgAlg {
  import opened Ring
  import opened Events

  datatype Section = Section(usedByTrain: int, busy: bool, isEntry: bool, usedEntry: bool)

  datatype Store = Store(sections: seq<Section>, numberOfTrains: int, idTrains: int, maxTrains: int)

  /** The store after a call, and whether the call returned or threw. */
  datatype Outcome = Outcome(store: Store, returned: bool)

  // ---------------------------------------------------------------- the store as functions

  function Put(st: Store, s: nat, c: Section): Store
    requires s < |st.sections|
  {
    st.(sections := st.sections[s := c])
  }

  predicate Valid(st: Store, s: int) {
    0 <= s < |st.sections|
  }

  function Occupy(st: Store, s: int, train: int): (r: Outcome)
    ensures |r.store.sections| == |st.sections|
  {
    if !Valid(st, s) || st.sections[s].busy || st.sections[s].usedByTrain != -1 then Outcome(st, false)
    else Outcome(Put(st, s, st.sections[s].(busy := true, usedByTrain := train)), true)
  }

  function Free(st: Store, s: int): (r: Outcome)
    ensures |r.store.sections| == |st.sections|
  {
    if !Valid(st, s) || !st.sections[s].busy then Outcome(st, false)
    else Outcome(Put(st, s, st.sections[s].(busy := false, usedByTrain := -1)), true)
  }

  function InsertNewTrain(st: Store, s: int): (r: Outcome)
    ensures |r.store.sections| == |st.sections|
  {
    if !Valid(st, s) || st.numberOfTrains >= st.maxTrains then Outcome(st, false)
    else Occupy(st.(numberOfTrains := st.numberOfTrains + 1, idTrains := st.idTrains + 1), s, st.idTrains)
  }

  function GetEntry(st: Store, s: int): (r: (Outcome, bool))
    ensures |r.0.store.sections| == |st.sections|
  {
    if !Valid(st, s) || st.numberOfTrains >= st.maxTrains || !st.sections[s].isEntry then (Outcome(st, false), false)
    else if st.sections[s].usedEntry then (Outcome(st, true), false)
    else (Outcome(Put(st, s, st.sections[s].(usedEntry := true)), true), true)
  }

  function FreeEntry(st: Store, s: int): (r: Outcome)
    ensures |r.store.sections| == |st.sections|
  {
    if !Valid(st, s) || !st.sections[s].isEntry || !st.sections[s].usedEntry then Outcome(st, false)
    else
      var c := Put(st, s, st.sections[s].(usedEntry := false));
      Occupy(c.(numberOfTrains := st.numberOfTrains + 1, idTrains := st.idTrains + 1), s, st.idTrains)
  }

  function CancelStoredEntry(st: Store, s: int): (r: Outcome)
    ensures |r.store.sections| == |st.sections|
  {
    if !Valid(st, s) || !st.sections[s].isEntry || !st.sections[s].usedEntry then Outcome(st, false)
    else Outcome(Put(st, s, st.sections[s].(usedEntry := false)), true)
  }

  function ExitTrain(st: Store, s: int): (r: Outcome)
    ensures |r.store.sections| == |st.sections|
  {
    if !Valid(st, s) || !st.sections[s].isEntry || !st.sections[s].busy then Outcome(st, false)
    else Outcome(Put(st, s, st.sections[s].(busy := false, usedByTrain := -1)).(numberOfTrains := st.numberOfTrains - 1), true)
  }

  // ---------------------------------------------------------------- the algorithm as functions

  /** The store, the votes for the stop lights, and whether an emergency stop has been called. */
  datatype Jg = Jg(store: Store, lights: seq<bool>, halted: bool)

  predicate Sized(j: Jg) {
    |j.lights| == |j.store.sections|
  }

  function Size(j: Jg): nat {
    |j.store.sections|
  }

  function Busy(j: Jg, s: nat): bool
    requires s < Size(j)
  {
    j.store.sections[s].busy
  }

  function Halt(j: Jg): Jg {
    j.(halted := true)
  }

  function AllowIf(j: Jg, s: nat, condition: bool): (r: Jg)
    requires Sized(j) && s < Size(j)
    ensures Sized(r) && r.store == j.store && r.halted == j.halted
  {
    if condition then j.(lights := j.lights[s := true]) else j
  }

  function Deny(j: Jg, s: nat): (r: Jg)
    requires Sized(j) && s < Size(j)
    ensures Sized(r) && r.store == j.store && r.halted == j.halted
  {
    j.(lights := j.lights[s := false])
  }

  function CrossingEvent(j: Jg, s: int): (r: Jg)
    requires Sized(j)
    ensures Sized(r) && Size(r) == Size(j)
  {
    if !Valid(j.store, s) || Busy(j, s) then Halt(j)
    else
      var n := Size(j);
      var back, next := Prev(n, s), Next(n, s);
      var d := Deny(j, s);
      if !Busy(d, back) then Halt(d)
      else
        var o := Occupy(d.store, s, d.store.sections[back].usedByTrain);
        if !o.returned then Halt(d.(store := o.store))
        else
          var f := Free(o.store, back);
          var k := d.(store := f.store);
          if !f.returned then Halt(k)
          else AllowIf(AllowIf(k, back, Busy(k, Prev(n, back))), next, !Busy(k, next))
  }

  function EntryEvent(j: Jg, s: nat): (r: Jg)
    requires Sized(j) && s < Size(j)
    ensures Sized(r) && Size(r) == Size(j)
  {
    var f := FreeEntry(j.store, s);
    var k := j.(store := f.store);
    var next := Next(Size(j), s);
    if !f.returned then Halt(k) else AllowIf(k, next, !Busy(k, next))
  }

  function ExitEvent(j: Jg, s: nat): (r: Jg)
    requires Sized(j) && s < Size(j)
    ensures Sized(r) && Size(r) == Size(j)
  {
    var f := ExitTrain(j.store, s);
    var k := j.(store := f.store);
    var n := Size(j);
    if !f.returned then Halt(k) else Deny(AllowIf(k, s, Busy(k, Prev(n, s))), Next(n, s))
  }

  /** The new state and the answer. */
  function RequestEntry(j: Jg, s: nat): (r: (Jg, bool))
    requires Sized(j) && s < Size(j)
    ensures Sized(r.0) && Size(r.0) == Size(j)
  {
    if Busy(j, s) then (j, false)
    else
      var (o, permission) := GetEntry(j.store, s);
      var k := j.(store := o.store);
      if !o.returned then (Halt(k), false)
      else if permission then (Deny(k, s), true)
      else (k, false)
  }

  function CancelEntry(j: Jg, s: nat): (r: Jg)
    requires Sized(j) && s < Size(j)
    ensures Sized(r) && Size(r) == Size(j)
  {
    var c := CancelStoredEntry(j.store, s);
    var k := j.(store := c.store);
    if !c.returned then Halt(k) else k
  }

  function Handle(j: Jg, e: Event): (r: Jg)
    requires Sized(j) && InRange(Size(j), e)
    ensures Sized(r) && Size(r) == Size(j)
  {
    match e
    case Crossing(s) => CrossingEvent(j, s)
    case Entry(s) => EntryEvent(j, s)
    case Exit(s) => ExitEvent(j, s)
    case Request(s) => RequestEntry(j, s).0
    case Cancel(s) => CancelEntry(j, s)
  }

  function Insert(st: Store, locations: seq<int>): (r: Outcome)
    ensures |r.store.sections| == |st.sections|
    decreases |locations|
  {
    if locations == [] then Outcome(st, true)
    else
      var o := InsertNewTrain(st, locations[0]);
      if !o.returned then o else Insert(o.store, locations[1..])
  }

  /** Green for every free section right in front of a busy one among sections 1.. up to `count` places on. */
  function LightsFrom(j: Jg, count: nat): (r: Jg)
    requires Sized(j) && count <= Size(j)
    ensures Sized(r) && r.store == j.store && r.halted == j.halted
    ensures forall i :: 0 <= i < Size(j) ==>
      (r.lights[i] <==> j.lights[i] || (Prev(Size(j), i) < count && Busy(j, Prev(Size(j), i)) && !Busy(j, i)))
  {
    if count == 0 then j
    else
      var i := count - 1;
      var next := Next(Size(j), i);
      PrevOfNext(Size(j), i);
      var k := LightsFrom(j, i);
      AllowIf(k, next, Busy(j, i) && !Busy(j, next))
  }

  function InitialState(j: Jg, locations: seq<int>): (r: Jg)
    requires Sized(j)
    ensures Sized(r) && Size(r) == Size(j)
  {
    var o := Insert(j.store, locations);
    var k := j.(store := o.store);
    if !o.returned then Halt(k) else LightsFrom(k, Size(k))
  }

  // ---------------------------------------------------------------- the store

  class SecCollection {
    var sections: seq<Section>
    var numberOfTrains: int
    var idTrains: int
    const maxTrains: int

    ghost function State(): Store
      reads this
    {
      Store(sections, numberOfTrains, idTrains, maxTrains)
    }

    constructor (maxTrains: int, size: nat)
      ensures this.maxTrains == maxTrains && |sections| == size && numberOfTrains == 0 && idTrains == 0
      ensures forall s :: 0 <= s < size ==> sections[s] == Section(-1, false, false, false)
    {
      this.maxTrains := maxTrains;
      numberOfTrains := 0;
      idTrains := 0;
      sections := seq(size, s => Section(-1, false, false, false));
    }

    method Take(s: int, train: int) returns (ok: bool)
      modifies this
      ensures Outcome(State(), ok) == Occupy(old(State()), s, train)
    {
      if s >= |sections| || s < 0 {
        return false;
      }
      if sections[s].busy || sections[s].usedByTrain != -1 {
        return false;
      }
      sections := sections[s := sections[s].(busy := true, usedByTrain := train)];
      return true;
    }

    method GiveUp(s: int) returns (ok: bool)
      modifies this
      ensures Outcome(State(), ok) == Free(old(State()), s)
    {
      if s >= |sections| || s < 0 {
        return false;
      }
      if !sections[s].busy {
        return false;
      }
      sections := sections[s := sections[s].(busy := false, usedByTrain := -1)];
      return true;
    }

    method NewTrain(s: int) returns (ok: bool)
      modifies this
      ensures Outcome(State(), ok) == InsertNewTrain(old(State()), s)
    {
      if s >= |sections| || s < 0 {
        return false;
      }
      if numberOfTrains >= maxTrains {
        return false;
      }
      numberOfTrains := numberOfTrains + 1;
      idTrains := idTrains + 1;
      ok := Take(s, idTrains - 1);
    }

    method ReserveEntry(s: int) returns (ok: bool, permission: bool)
      modifies this
      ensures (Outcome(State(), ok), permission) == GetEntry(old(State()), s)
    {
      if s >= |sections| || s < 0 {
        return false, false;
      }
      if numberOfTrains >= maxTrains {
        return false, false;
      }
      if !sections[s].isEntry {
        return false, false;
      }
      if sections[s].usedEntry {
        return true, false;
      }
      sections := sections[s := sections[s].(usedEntry := true)];
      return true, true;
    }

    method EnterTrain(s: int) returns (ok: bool)
      modifies this
      ensures Outcome(State(), ok) == FreeEntry(old(State()), s)
    {
      if s >= |sections| || s < 0 {
        return false;
      }
      if !sections[s].isEntry {
        return false;
      }
      if !sections[s].usedEntry {
        return false;
      }
      sections := sections[s := sections[s].(usedEntry := false)];
      numberOfTrains := numberOfTrains + 1;
      idTrains := idTrains + 1;
      ok := Take(s, idTrains - 1);
    }

    method DropEntry(s: int) returns (ok: bool)
      modifies this
      ensures Outcome(State(), ok) == CancelStoredEntry(old(State()), s)
    {
      if s >= |sections| || s < 0 {
        return false;
      }
      if !sections[s].isEntry {
        return false;
      }
      if !sections[s].usedEntry {
        return false;
      }
      sections := sections[s := sections[s].(usedEntry := false)];
      return true;
    }

    method TakeOut(s: int) returns (ok: bool)
      modifies this
      ensures Outcome(State(), ok) == ExitTrain(old(State()), s)
    {
      if s >= |sections| || s < 0 {
        return false;
      }
      if !sections[s].isEntry {
        return false;
      }
      if !sections[s].busy {
        return false;
      }
      sections := sections[s := sections[s].(busy := false, usedByTrain := -1)];
      numberOfTrains := numberOfTrains - 1;
      return true;
    }
  }

  // ---------------------------------------------------------------- the algorithm

  class JlAlgorithm {
    const secs: SecCollection
    var lights: seq<bool>
    var halted: bool

    ghost function State(): Jg
      reads this, secs
    {
      Jg(secs.State(), lights, halted)
    }

    constructor (secs: SecCollection)
      ensures this.secs == secs && !halted
      ensures lights == seq(|secs.sections|, s => false)
    {
      this.secs := secs;
      lights := seq(|secs.sections|, s => false);
      halted := false;
    }

    method Start(locations: seq<int>)
      requires Sized(State())
      modifies this, secs
      ensures State() == InitialState(old(State()), locations)
    {
      ghost var before := State();
      var i := 0;
      while i < |locations|
        invariant 0 <= i <= |locations|
        invariant Insert(secs.State(), locations[i..]) == Insert(before.store, locations)
        invariant lights == before.lights && halted == before.halted
        invariant Sized(State())
      {
        var ok := secs.NewTrain(locations[i]);
        assert locations[i..][1..] == locations[i + 1..];
        if !ok {
          halted := true;
          return;
        }
        i := i + 1;
      }
      ghost var placed := State();
      i := 0;
      while i < |secs.sections|
        invariant 0 <= i <= |secs.sections|
        invariant Sized(placed) && placed.store == secs.State() && State() == LightsFrom(placed, i)
      {
        var next := Next(|secs.sections|, i);
        if secs.sections[i].busy && !secs.sections[next].busy {
          lights := lights[next := true];
        }
        i := i + 1;
      }
    }

    method ProcessCrossing(section: int)
      requires Sized(State())
      modifies this, secs
      ensures State() == CrossingEvent(old(State()), section)
    {
      var n := |secs.sections|;
      if section < 0 || section >= n {
        halted := true;
        return;
      }
      var back, next := Prev(n, section), Next(n, section);
      if secs.sections[section].busy {
        halted := true;
        return;
      }
      lights := lights[section := false];
      if !secs.sections[back].busy {
        halted := true;
        return;
      }
      var ok := secs.Take(section, secs.sections[back].usedByTrain);
      if !ok {
        halted := true;
        return;
      }
      ok := secs.GiveUp(back);
      if !ok {
        halted := true;
        return;
      }
      var pback := Prev(n, back);
      if secs.sections[pback].busy {
        lights := lights[back := true];
      }
      if !secs.sections[next].busy {
        lights := lights[next := true];
      }
    }

    method ProcessEntry(section: nat)
      requires Sized(State()) && section < |secs.sections|
      modifies this, secs
      ensures State() == EntryEvent(old(State()), section)
    {
      var next := Next(|secs.sections|, section);
      var ok := secs.EnterTrain(section);
      if !ok {
        halted := true;
        return;
      }
      if !secs.sections[next].busy {
        lights := lights[next := true];
      }
    }

    method ProcessExit(section: nat)
      requires Sized(State()) && section < |secs.sections|
      modifies this, secs
      ensures State() == ExitEvent(old(State()), section)
    {
      var n := |secs.sections|;
      var ok := secs.TakeOut(section);
      if !ok {
        halted := true;
        return;
      }
      if secs.sections[Prev(n, section)].busy {
        lights := lights[section := true];
      }
      lights := lights[Next(n, section) := false];
    }

    method ProcessRequest(section: nat) returns (answer: bool)
      requires Sized(State()) && section < |secs.sections|
      modifies this, secs
      ensures (State(), answer) == RequestEntry(old(State()), section)
    {
      if !secs.sections[section].busy {
        var ok, permission := secs.ReserveEntry(section);
        if !ok {
          halted := true;
          return false;
        }
        if permission {
          lights := lights[section := false];
          return true;
        }
      }
      return false;
    }

    method ProcessCancel(section: nat)
      requires Sized(State()) && section < |secs.sections|
      modifies this, secs
      ensures State() == CancelEntry(old(State()), section)
    {
      var ok := secs.DropEntry(section);
      if !ok {
        halted := true;
      }
    }
  }
}
