/** The first of the independently written safety algorithms (classic_tcontrol/dc_alg.cpp): it books trains by section
    and shows a green light into every section that is free. */
module DcAlg {
  import opened Ring
  import opened Events

  datatype Section = Section(hasEntry: bool, hasTrain: bool, requested: bool)

  /** Its sections, its votes for the stop lights, and whether it has called for an emergency stop. */
  datatype Dc = Dc(sections: seq<Section>, lights: seq<bool>, estop: bool)

  predicate Sized(d: Dc) {
    |d.lights| == |d.sections|
  }

  // ---------------------------------------------------------------- the events as functions

  function WithTrain(d: Dc, s: nat, present: bool, green: bool): Dc
    requires Sized(d) && s < |d.sections|
  {
    d.(sections := d.sections[s := d.sections[s].(hasTrain := present)], lights := d.lights[s := green])
  }

  function CrossingEvent(d: Dc, s: int): (r: Dc)
    requires Sized(d)
    ensures Sized(r) && |r.sections| == |d.sections|
  {
    if s < 0 || s >= |d.sections| then d.(estop := true)
    else
      var last := Prev(|d.sections|, s);
      if (d.sections[s].hasEntry && d.sections[s].requested) || d.sections[s].hasTrain || !d.sections[last].hasTrain
      then d.(estop := true)
      else WithTrain(WithTrain(d, s, true, false), last, false, true)
  }

  function EntryEvent(d: Dc, s: nat): (r: Dc)
    requires Sized(d) && s < |d.sections|
    ensures Sized(r) && |r.sections| == |d.sections|
  {
    if !d.sections[s].requested || d.sections[s].hasTrain then d.(estop := true)
    else d.(sections := d.sections[s := d.sections[s].(requested := false, hasTrain := true)],
            lights := d.lights[s := false])
  }

  function ExitEvent(d: Dc, s: nat): (r: Dc)
    requires Sized(d) && s < |d.sections|
    ensures Sized(r) && |r.sections| == |d.sections|
  {
    if !d.sections[s].hasEntry || !d.sections[s].hasTrain then d.(estop := true)
    else d.(sections := d.sections[s := d.sections[s].(hasTrain := false, requested := false)],
            lights := d.lights[s := true])
  }

  /** The guard of request_entry. */
  predicate Grants(d: Dc, s: nat)
    requires s < |d.sections|
  {
    d.sections[s].hasEntry && !d.sections[s].hasTrain && !d.sections[Prev(|d.sections|, s)].hasTrain
  }

  function RequestEntry(d: Dc, s: nat): (r: Dc)
    requires Sized(d) && s < |d.sections|
    ensures Sized(r) && |r.sections| == |d.sections|
  {
    if !Grants(d, s) then d.(estop := true)
    else d.(sections := d.sections[s := d.sections[s].(requested := true)], lights := d.lights[s := false])
  }

  function CancelEntry(d: Dc, s: nat): (r: Dc)
    requires Sized(d) && s < |d.sections|
    ensures Sized(r) && |r.sections| == |d.sections|
  {
    if !d.sections[s].hasEntry || !d.sections[s].requested || d.sections[s].hasTrain then d.(estop := true)
    else d.(sections := d.sections[s := d.sections[s].(requested := false)], lights := d.lights[s := true])
  }

  function Handle(d: Dc, e: Event): (r: Dc)
    requires Sized(d) && InRange(|d.sections|, e)
    ensures Sized(r) && |r.sections| == |d.sections|
  {
    match e
    case Crossing(s) => CrossingEvent(d, s)
    case Entry(s) => EntryEvent(d, s)
    case Exit(s) => ExitEvent(d, s)
    case Request(s) => RequestEntry(d, s)
    case Cancel(s) => CancelEntry(d, s)
  }

  /** Book the given trains; false if some location is no section, where the booking stops. */
  function Book(sections: seq<Section>, locations: seq<int>): (r: (seq<Section>, bool))
    ensures |r.0| == |sections|
    ensures forall s :: 0 <= s < |sections| ==>
      r.0[s].hasEntry == sections[s].hasEntry && r.0[s].requested == sections[s].requested
    ensures r.1 <==> forall i :: 0 <= i < |locations| ==> 0 <= locations[i] < |sections|
    ensures r.1 ==> forall s :: 0 <= s < |sections| ==> (r.0[s].hasTrain <==> sections[s].hasTrain || s in locations)
    decreases |locations|
  {
    if locations == [] then (sections, true)
    else if locations[0] < 0 || locations[0] >= |sections| then (sections, false)
    else
      var s := locations[0];
      assert forall x :: x in locations <==> x == s || x in locations[1..];
      Book(sections[s := sections[s].(hasTrain := true)], locations[1..])
  }

  /** Green for every section without a train, the others as they were. */
  function Permitted(sections: seq<Section>, lights: seq<bool>): (r: seq<bool>)
    requires |lights| == |sections|
    ensures |r| == |lights|
    ensures forall s :: 0 <= s < |r| ==> r[s] == (lights[s] || !sections[s].hasTrain)
  {
    seq(|lights|, s requires 0 <= s < |lights| => lights[s] || !sections[s].hasTrain)
  }

  function InitialState(d: Dc, locations: seq<int>): (r: Dc)
    requires Sized(d)
    ensures Sized(r) && |r.sections| == |d.sections|
  {
    var (b, ok) := Book(d.sections, locations);
    if !ok then Dc(b, d.lights, true)
    else Dc(b, Permitted(b, d.lights), d.estop)
  }

  // ---------------------------------------------------------------- what the lights mean

  /** A light is green exactly when the section is free and nobody has asked to enter it from outside. */
  predicate LightsTell(d: Dc) {
    && Sized(d)
    && forall s :: 0 <= s < |d.sections| ==>
         && d.lights[s] == (!d.sections[s].hasTrain && !d.sections[s].requested)
         && (d.sections[s].requested ==> d.sections[s].hasEntry && !d.sections[s].hasTrain)
  }

  /** A machine set up with its entry sections only. */
  predicate Blank(d: Dc) {
    && Sized(d) && !d.estop
    && forall s :: 0 <= s < |d.sections| ==>
         !d.sections[s].hasTrain && !d.sections[s].requested && !d.lights[s]
  }

  /** Exactly the events that make sense for what is booked are accepted. */
  predicate Accepts(d: Dc, e: Event)
    requires Sized(d) && InRange(|d.sections|, e)
  {
    match e
    case Crossing(s) =>
      && 0 <= s < |d.sections| && !d.sections[s].requested && !d.sections[s].hasTrain
      && d.sections[Prev(|d.sections|, s)].hasTrain
    case Entry(s) => d.sections[s].requested
    case Exit(s) => d.sections[s].hasEntry && d.sections[s].hasTrain
    case Request(s) => Grants(d, s)
    case Cancel(s) => d.sections[s].requested
  }

  lemma HandleKeeps(d: Dc, e: Event)
    requires LightsTell(d) && InRange(|d.sections|, e)
    ensures LightsTell(Handle(d, e))
    ensures Accepts(d, e) ==> Handle(d, e).estop == d.estop
    ensures !Accepts(d, e) ==> Handle(d, e) == d.(estop := true)
  {}

  function HandleAll(d: Dc, es: seq<Event>): (r: Dc)
    requires Sized(d) && forall i :: 0 <= i < |es| ==> InRange(|d.sections|, es[i])
    ensures Sized(r) && |r.sections| == |d.sections|
  {
    if es == [] then d else Handle(HandleAll(d, es[..|es| - 1]), es[|es| - 1])
  }

  /** From any start, over every sequence of events, right or wrong, the lights tell exactly which sections may be entered. */
  lemma {:induction false} LightsTellOnEveryRun(d: Dc, locations: seq<int>, es: seq<Event>)
    requires Blank(d) && forall i :: 0 <= i < |es| ==> InRange(|d.sections|, es[i])
    requires forall i :: 0 <= i < |locations| ==> 0 <= locations[i] < |d.sections|
    ensures LightsTell(HandleAll(InitialState(d, locations), es))
  {
    if es != [] {
      LightsTellOnEveryRun(d, locations, es[..|es| - 1]);
      HandleKeeps(HandleAll(InitialState(d, locations), es[..|es| - 1]), es[|es| - 1]);
    }
  }

  // ---------------------------------------------------------------- the algorithm

  class DcAlgorithm {
    var sections: seq<Section>
    var lights: seq<bool>
    var estopActive: bool

    ghost function State(): Dc
      reads this
    {
      Dc(sections, lights, estopActive)
    }

    constructor (n: nat, entries: set<int>)
      ensures Blank(State()) && |sections| == n
      ensures forall s :: 0 <= s < n ==> (sections[s].hasEntry <==> s in entries)
    {
      sections := seq(n, s => Section(s in entries, false, false));
      lights := seq(n, s => false);
      estopActive := false;
    }

    method Start(locations: seq<int>)
      requires Sized(State())
      modifies this
      ensures State() == InitialState(old(State()), locations)
    {
      var i := 0;
      while i < |locations|
        invariant 0 <= i <= |locations|
        invariant |sections| == |lights|
        invariant Book(sections, locations[i..]) == Book(old(sections), locations)
        invariant lights == old(lights) && estopActive == old(estopActive)
      {
        var n := locations[i];
        if n >= |sections| || n < 0 {
          estopActive := true;
          return;
        }
        assert locations[i..][1..] == locations[i + 1..];
        sections := sections[n := sections[n].(hasTrain := true)];
        i := i + 1;
      }
      PermitFree();
    }

    method PermitFree()
      requires Sized(State())
      modifies this`lights
      ensures lights == Permitted(sections, old(lights))
    {
      var i := 0;
      while i < |sections|
        invariant 0 <= i <= |sections| && |lights| == |sections|
        invariant forall s :: 0 <= s < i ==> lights[s] == (old(lights)[s] || !sections[s].hasTrain)
        invariant forall s :: i <= s < |sections| ==> lights[s] == old(lights)[s]
      {
        if !sections[i].hasTrain {
          lights := lights[i := true];
        }
        i := i + 1;
      }
    }

    method ProcessCrossing(section: int)
      requires Sized(State())
      modifies this
      ensures State() == CrossingEvent(old(State()), section)
    {
      if section >= |sections| || section < 0 {
        estopActive := true;
        return;
      }
      var last := Prev(|sections|, section);
      if sections[section].hasEntry && sections[section].requested {
        estopActive := true;
        return;
      }
      if sections[section].hasTrain {
        estopActive := true;
        return;
      }
      if !sections[last].hasTrain {
        estopActive := true;
        return;
      }
      sections := sections[section := sections[section].(hasTrain := true)];
      sections := sections[last := sections[last].(hasTrain := false)];
      lights := lights[section := false];
      lights := lights[last := true];
    }

    method ProcessEntry(section: nat)
      requires Sized(State()) && section < |sections|
      modifies this
      ensures State() == EntryEvent(old(State()), section)
    {
      if !sections[section].requested {
        estopActive := true;
        return;
      }
      if sections[section].hasTrain {
        estopActive := true;
        return;
      }
      sections := sections[section := sections[section].(requested := false, hasTrain := true)];
      lights := lights[section := false];
    }

    method ProcessExit(section: nat)
      requires Sized(State()) && section < |sections|
      modifies this
      ensures State() == ExitEvent(old(State()), section)
    {
      if !sections[section].hasEntry {
        estopActive := true;
        return;
      }
      if !sections[section].hasTrain {
        estopActive := true;
        return;
      }
      sections := sections[section := sections[section].(hasTrain := false)];
      lights := lights[section := true];
      sections := sections[section := sections[section].(requested := false)];
    }

    method ProcessRequest(section: nat) returns (ok: bool)
      requires Sized(State()) && section < |sections|
      modifies this
      ensures State() == RequestEntry(old(State()), section)
      ensures ok == Grants(old(State()), section)
    {
      if !sections[section].hasEntry {
        estopActive := true;
        return false;
      }
      if sections[section].hasTrain {
        estopActive := true;
        return false;
      }
      var last := Prev(|sections|, section);
      if sections[last].hasTrain {
        estopActive := true;
        return false;
      }
      lights := lights[section := false];
      sections := sections[section := sections[section].(requested := true)];
      return true;
    }

    method ProcessCancel(section: nat)
      requires Sized(State()) && section < |sections|
      modifies this
      ensures State() == CancelEntry(old(State()), section)
    {
      if !sections[section].hasEntry {
        estopActive := true;
        return;
      }
      if !sections[section].requested {
        estopActive := true;
        return;
      }
      if sections[section].hasTrain {
        estopActive := true;
        return;
      }
      lights := lights[section := true];
      sections := sections[section := sections[section].(requested := false)];
    }
  }
}
