/** The plant and the voter for zones. */
module ZonePlant {
  // The option -sa of classic_tcontrol/sim.cpp puts the voter for electrical zones among the voters.
  // That voter is the one that may take a green light back from a train which has passed it already.

  import opened Ring
  import opened DcAlg
  import opened Sim
  import opened SimSafety
  import SimTraffic
  import Z = StartupAlg

  /** The plant, the voter, and the lights as last looked at. */
  datatype World = World(plant: Plant, voter: Z.Voter, last: seq<bool>)

  ghost predicate Whole(l: Line, w: World) {
    && Fits(l, w.plant) && Z.Valid(w.voter)
    && |w.voter.zoneOf| == l.Size() && |w.last| == l.Size()
  }

  // ---------------------------------------------------------------- one tick

  /** This voter refuses every entry. */
  function Refused(key: Key): Key {
    if key.InsertKey? then InsertKey(false) else key
  }

  /** The plant with the key pressed. */
  function Pressed(l: Line, p: Plant, now: real, x: Input): (r: Plant)
    requires Fits(l, p)
    ensures Fits(l, r) && |r.trains| == |p.trains|
  {
    PressKey(l, p, now, Refused(x.key))
  }

  /** And with all trains updated. */
  function Moved(l: Line, p: Plant, now: real, x: Input): (r: Plant)
    requires Fits(l, p) && Plausible(l, |p.trains|, x)
    ensures Fits(l, r) && |r.trains| == |p.trains|
  {
    UpdateTrains(l, Pressed(l, p, now, x), |p.trains|, now, x.driveTimes)
  }

  /** The sections whose detectors the first `count` trains cross, in the order of the trains. */
  function Crossed(l: Line, p: Plant, now: real, count: nat): (r: seq<nat>)
    requires Fits(l, p) && count <= |p.trains|
    ensures forall i :: 0 <= i < |r| ==> r[i] < l.Size()
  {
    if count == 0 then []
    else Crossed(l, p, now, count - 1) + if Crosses(l, p, now, count - 1) then [p.trains[count - 1].section] else []
  }

  /** The voter when the lights are evaluated: it has been told of the crossings and of the time. */
  function Informed(l: Line, w: World, before: real, now: real, x: Input): (r: Z.Voter)
    requires Whole(l, w)
    ensures Z.Valid(r) && r.zoneOf == w.voter.zoneOf && |r.zones| == |w.voter.zones| && |r.votes| == |r.zoneOf|
  {
    var p := Pressed(l, w.plant, now, x);
    Z.Update(Z.Crossings(w.voter, Crossed(l, p, now, |p.trains|), before), now)
  }

  /** What the dc machine and the remaining voters agree on. */
  function Agreed(l: Line, w: World, now: real, x: Input): (r: seq<bool>)
    requires Whole(l, w) && Plausible(l, |w.plant.trains|, x)
    ensures |r| == l.Size()
  {
    Vote(Moved(l, w.plant, now, x).dc.lights, x.others)
  }

  /** One turn of the main loop; `x.others` says what the voters say that are neither the dc machine nor the voter for zones. */
  function Step(l: Line, w: World, before: real, now: real, x: Input): (r: World)
    requires Whole(l, w) && Plausible(l, |w.plant.trains|, x)
    ensures Whole(l, r) && |r.plant.trains| == |w.plant.trains| && |r.voter.votes| == l.Size()
  {
    var (v, la) := Z.Eval(Informed(l, w, before, now, x), Z.Lamps(w.plant.actual, w.last), Agreed(l, w, now, x), now);
    World(Moved(l, w.plant, now, x).(actual := la.actual), v, la.last)
  }

  /** The input of the plant alone, with the voter's final votes among those of the others. */
  function WithVotes(x: Input, votes: seq<bool>): Input
    requires |votes| == |x.others|
  {
    Input(Refused(x.key), x.driveTimes, Vote(votes, x.others))
  }

  ghost predicate Good(l: Line, w: World) {
    Whole(l, w) && Z.VotesByZone(w.voter) && w.last == w.plant.actual && Z.OnePerZone(w.voter.zoneOf, w.last)
  }

  /** To the plant the tick is one of its own. */
  lemma StepIsTick(l: Line, w: World, before: real, now: real, x: Input)
    requires Good(l, w) && Plausible(l, |w.plant.trains|, x)
    ensures
      var r := Step(l, w, before, now, x);
      Good(l, r) && r.plant == Tick(l, w.plant, now, WithVotes(x, r.voter.votes))
  {
    hide Crossed, UpdateTrains, PressKey, Z.Crossings, Z.Update, Z.Valid, Z.Eval, Z.OnePerZone, Z.VotesByZone;
    InformedGood(l, w, before, now, x);
    var v, la, others := Informed(l, w, before, now, x), Z.Lamps(w.plant.actual, w.last), Agreed(l, w, now, x);
    EvalShows(v, la, others, now);
    var r := Step(l, w, before, now, x);
    assert r.plant.actual == Vote(Moved(l, w.plant, now, x).dc.lights, Vote(r.voter.votes, x.others));
  }

  lemma InformedGood(l: Line, w: World, before: real, now: real, x: Input)
    requires Good(l, w)
    ensures Z.VotesByZone(Informed(l, w, before, now, x))
  {
    hide Z.VotesByZone, Z.Valid;
    var p := Pressed(l, w.plant, now, x);
    var crossed := Crossed(l, p, now, |p.trains|);
    Z.CrossingsKeep(w.voter, crossed, before);
    var c := Z.Crossings(w.voter, crossed, before);
    Z.UpdateKeeps(c, |c.zones|, now);
  }

  /** What an evaluation of a good voter comes to. */
  lemma EvalShows(v: Z.Voter, la: Z.Lamps, others: seq<bool>, t: real)
    requires Z.Valid(v) && Z.Fits(v, la, others) && Z.VotesByZone(v) && Z.OnePerZone(v.zoneOf, la.last)
    ensures
      var (u, q) := Z.Eval(v, la, others, t);
      && Z.VotesByZone(u) && q.last == q.actual && Z.OnePerZone(u.zoneOf, q.actual)
      && forall s :: 0 <= s < |others| ==> q.actual[s] == (u.votes[s] && others[s])
  {
    hide Z.VotesByZone, Z.OnePerZone, Z.Valid;
    Z.EvalLeavesOne(v, la, others, t);
    Z.SecondPassSettles(v, la, others, t);
  }

  // ---------------------------------------------------------------- runs

  predicate AllPlausible(l: Line, trains: nat, xs: seq<Input>) {
    forall i :: 0 <= i < |xs| ==> Plausible(l, trains, xs[i])
  }

  /** The time of the tick before the m-th. */
  function Before(m: nat): real {
    if m == 0 then 0.0 else (m - 1) as real
  }

  function Steps(l: Line, w: World, xs: seq<Input>): (r: World)
    requires Whole(l, w) && AllPlausible(l, |w.plant.trains|, xs)
    ensures Whole(l, r) && |r.plant.trains| == |w.plant.trains| && (xs != [] ==> |r.voter.votes| == l.Size())
  {
    if xs == [] then w
    else var m := |xs| - 1;
         Step(l, Steps(l, w, xs[..m]), Before(m), m as real, xs[m])
  }

  /** The inputs of the run of the plant alone. */
  function Inputs(l: Line, w: World, xs: seq<Input>): (r: seq<Input>)
    requires Whole(l, w) && AllPlausible(l, |w.plant.trains|, xs)
    ensures |r| == |xs| && AllPlausible(l, |w.plant.trains|, r)
  {
    hide Fits, Z.Valid, Step, Steps, Vote;
    if xs == [] then []
    else Inputs(l, w, xs[..|xs| - 1]) + [WithVotes(xs[|xs| - 1], Steps(l, w, xs).voter.votes)]
  }

  /** To the plant the run is one of its own. */
  lemma {:induction false} StepsAreRun(l: Line, w: World, xs: seq<Input>)
    requires Good(l, w) && AllPlausible(l, |w.plant.trains|, xs)
    ensures Good(l, Steps(l, w, xs)) && Steps(l, w, xs).plant == Run(l, w.plant, Inputs(l, w, xs))
  {
    hide Whole, Step, Tick, Z.VotesByZone, Z.OnePerZone;
    if xs != [] {
      var m := |xs| - 1;
      StepsAreRun(l, w, xs[..m]);
      StepIsTick(l, Steps(l, w, xs[..m]), Before(m), m as real, xs[m]);
      assert Inputs(l, w, xs)[..m] == Inputs(l, w, xs[..m]);
    }
  }

  /** The start: as for the plant alone, with a voter whose votes are right for its zones. */
  ghost predicate Start(l: Line, w: World, d: Dc, k: nat) {
    && Init(l, w.plant, d, k) && !w.plant.crossedRed
    && Whole(l, w) && Z.VotesByZone(w.voter) && w.last == w.plant.actual
  }

  lemma StartGood(l: Line, w: World, d: Dc, k: nat)
    requires Start(l, w, d, k)
    ensures Good(l, w)
  {}

  /** On every run no two trains are in one section, and no two lights of a zone are green. */
  lemma ApartInBothWays(l: Line, w: World, d: Dc, k: nat, xs: seq<Input>)
    requires Start(l, w, d, k) && AllPlausible(l, |w.plant.trains|, xs)
    ensures
      var r := Steps(l, w, xs);
      |r.plant.actual| == |r.voter.zoneOf| && Safe(r.plant) && Z.OnePerZone(r.voter.zoneOf, r.plant.actual)
  {
    hide Steps, Init, Z.Valid;
    StartGood(l, w, d, k);
    StepsAreRun(l, w, xs);
    CollisionFree(l, w.plant, d, k, Inputs(l, w, xs));
  }

  lemma {:induction false} InputsRefuse(l: Line, w: World, xs: seq<Input>, j: nat)
    requires Whole(l, w) && AllPlausible(l, |w.plant.trains|, xs) && j < |xs|
    ensures Inputs(l, w, xs)[j].key == Refused(xs[j].key)
  {
    hide Whole, Step, Steps, Vote;
    var m := |xs| - 1;
    if j < m { InputsRefuse(l, w, xs[..m], j); }
  }

  /** The voter for zones refuses every entry, so on every run a train that is out stays out. */
  lemma NobodyEnters(l: Line, w: World, d: Dc, k: nat, xs: seq<Input>, i: nat)
    requires Start(l, w, d, k) && AllPlausible(l, |w.plant.trains|, xs)
    requires i < |w.plant.trains| && !w.plant.trains[i].active
    ensures !Steps(l, w, xs).plant.trains[i].active
  {
    hide Steps, Init, Z.Valid, Inputs;
    StartGood(l, w, d, k);
    StepsAreRun(l, w, xs);
    var ys := Inputs(l, w, xs);
    forall j | 0 <= j < |ys| ensures ys[j].key != InsertKey(true) {
      InputsRefuse(l, w, xs, j);
    }
    SimTraffic.NobodyComesUngranted(l, w.plant, ys, i);
  }

  // ---------------------------------------------------------------- when a green light is taken back

  /** In the tick, a remaining voter says no to section s, or another section of its zone gets in first. */
  ghost predicate TakenBack(l: Line, w: World, before: real, now: real, x: Input, s: nat)
    requires Whole(l, w) && Plausible(l, |w.plant.trains|, x) && s < l.Size()
  {
    || !x.others[s]
    || Z.Overtaken(Informed(l, w, before, now, x), Z.Lamps(w.plant.actual, w.last), Agreed(l, w, now, x), s)
  }

  /** At some crossing of the run, the green light had been taken back in the last tick before it. */
  ghost predicate EverTakenBack(l: Line, w: World, xs: seq<Input>)
    requires Whole(l, w) && AllPlausible(l, |w.plant.trains|, xs)
  {
    if |xs| < 2 then false
    else
      var m := |xs| - 1;
      EverTakenBack(l, w, xs[..m]) || SomeTakenBack(l, Steps(l, w, xs[..m - 1]), m - 1, xs[m - 1])
  }

  /** Some train is seen by its detector in the tick after the m-th, its light taken back in the m-th. */
  ghost predicate SomeTakenBack(l: Line, w: World, m: nat, x: Input)
    requires Whole(l, w) && Plausible(l, |w.plant.trains|, x)
  {
    var p := Step(l, w, Before(m), m as real, x).plant;
    exists i :: 0 <= i < |p.trains| && Crosses(l, p, m as real + 1.0, i)
                && TakenBack(l, w, Before(m), m as real, x, p.trains[i].section)
  }

  /** A train past its lamp loses the green light in a tick exactly if it is taken back in this sense. */
  lemma LosesIffTakenBack(l: Line, w: World, before: real, now: real, x: Input, i: nat)
    requires Good(l, w) && Between(l, w.plant, now - 1.0) && Plausible(l, |w.plant.trains|, x)
    requires i < |w.plant.trains|
    requires var tr := Step(l, w, before, now, x).plant.trains[i]; tr.active && !tr.pastDetector
    ensures
      var r := Step(l, w, before, now, x);
      var s := r.plant.trains[i].section;
      && (r.plant.actual[s] <==> !TakenBack(l, w, before, now, x, s))
      && (WithVotes(x, r.voter.votes).others[s] <==> !TakenBack(l, w, before, now, x, s))
  {
    hide Z.Eval, Z.Valid, Z.VotesByZone, Between, Tick, Moved, Informed, Z.Overtaken, Z.OnePerZone;
    var r := Step(l, w, before, now, x);
    var s := r.plant.trains[i].section;
    StepIsTick(l, w, before, now, x);
    RedIsWithdrawn(l, w.plant, now, WithVotes(x, r.voter.votes), i);
    if x.others[s] {
      InformedGood(l, w, before, now, x);
      Z.NoIffOvertaken(Informed(l, w, before, now, x), Z.Lamps(w.plant.actual, w.last), Agreed(l, w, now, x), now, s);
    }
  }

  /** On every run a crossing is reported at red exactly if, in the last tick before some crossing, a remaining
      voter said no to the section, its zone was blocked for another one, or was open and taken by another one. */
  lemma RedIffTakenBack(l: Line, w: World, d: Dc, k: nat, xs: seq<Input>)
    requires Start(l, w, d, k) && AllPlausible(l, |w.plant.trains|, xs)
    ensures Steps(l, w, xs).plant.crossedRed <==> EverTakenBack(l, w, xs)
  {
    hide Steps, Inputs, Init, EverTakenBack, EverWithdrawn;
    StartGood(l, w, d, k);
    StepsAreRun(l, w, xs);
    InitBetween(l, w.plant, d, k);
    RedIffWithdrawn(l, w.plant, d, k, Inputs(l, w, xs));
    WithdrawnIffTakenBack(l, w, xs);
  }

  lemma {:induction false} WithdrawnIffTakenBack(l: Line, w: World, xs: seq<Input>)
    requires Good(l, w) && Between(l, w.plant, -1.0) && AllPlausible(l, |w.plant.trains|, xs)
    ensures EverWithdrawn(l, w.plant, Inputs(l, w, xs)) <==> EverTakenBack(l, w, xs)
  {
    hide Between, Step, Run, TakenBack, Crosses, Vote, WithVotes, Z.VotesByZone, Z.OnePerZone, Z.Valid;
    if |xs| >= 2 {
      var m := |xs| - 1;
      WithdrawnIffTakenBack(l, w, xs[..m]);
      var ys := Inputs(l, w, xs);
      assert ys[..m] == Inputs(l, w, xs[..m]);
      StepsAreRun(l, w, xs[..m]);
      assert xs[..m][..m - 1] == xs[..m - 1];
      StepsAreRun(l, w, xs[..m - 1]);
      RunKeeps(l, w.plant, Inputs(l, w, xs[..m - 1]));
      var o, x := Steps(l, w, xs[..m - 1]), xs[m - 1];
      var r := Step(l, o, Before(m - 1), (m - 1) as real, x);
      assert Steps(l, w, xs[..m]) == r;
      assert ys[m - 1] == Inputs(l, w, xs[..m])[m - 1] == WithVotes(x, r.voter.votes);
      SameTaken(l, o, m - 1, x);
    }
  }

  lemma SameTaken(l: Line, w: World, m: nat, x: Input)
    requires Good(l, w) && Between(l, w.plant, m as real - 1.0) && Plausible(l, |w.plant.trains|, x)
    ensures
      var r := Step(l, w, Before(m), m as real, x);
      WithdrawnFrom(l, r.plant, m as real + 1.0, WithVotes(x, r.voter.votes).others) <==> SomeTakenBack(l, w, m, x)
  {
    hide Between, Step, TakenBack, Z.VotesByZone, Z.OnePerZone, Z.Valid;
    var r := Step(l, w, Before(m), m as real, x);
    forall i | 0 <= i < |r.plant.trains| && Crosses(l, r.plant, m as real + 1.0, i)
      ensures !WithVotes(x, r.voter.votes).others[r.plant.trains[i].section]
              <==> TakenBack(l, w, Before(m), m as real, x, r.plant.trains[i].section)
    {
      LosesIffTakenBack(l, w, Before(m), m as real, x, i);
    }
  }

  // ---------------------------------------------------------------- a run in which it happens

  /** Three sections of 40 seconds each, 1 and 2 in one zone, with the program's own times to the detector and at a
      station. */
  const LINE := Line([false, false, false], [0.0, 0.0, 0.0], [40.0, 40.0, 40.0], TIME_TO_DETECTOR, DWELL_TIME)

  const TIME_TO_DETECTOR := 10.0
  const DWELL_TIME := 20.0

  /** The driver takes 99 hundredths of the time of the section, less the time at the station. */
  const DRIVE := 40.0 * 0.99 - DWELL_TIME

  const TRAIN := Train(true, false, 0, -DRIVE, true, true, true, DRIVE)
  const ZONE_OF: seq<nat> := [1, 0, 0]
  const BLANK: Dc := Dc([NO_TRAIN.(hasEntry := true), NO_TRAIN, NO_TRAIN], [false, false, false], false)
  const NO_TRAIN: Section := Section(false, false, false)
  const OPEN := Z.Zone(false, -1, 0.0, [1, 2])
  const OTHER := Z.Zone(false, -1, 0.0, [0])

  /** No key, and the remaining voters say what the dc machine says. */
  const SAME: Input := Input(NoKey, [DRIVE], FREE)
  const LAST: Input := Input(NoKey, [DRIVE], [true, false, true])

  const AT_START := World(
    Plant([TRAIN], Dc([Section(true, true, false), NO_TRAIN, NO_TRAIN], [false, true, true], false), [false, false, false], false),
    Z.Voter(ZONE_OF, [OPEN, OTHER], [true, true, true]), [false, false, false])

  /** Light 1 has risen at time 0 and blocked the zone for itself. */
  const WAITING := World(
    AT_START.plant.(actual := [false, true, false]),
    Z.Voter(ZONE_OF, [Z.Taken(OPEN, 1, 0.0), OTHER], [true, true, false]), [false, true, false])

  /** The train has left at time 21. */
  const LEFT := WAITING.(plant := WAITING.plant.(trains := [Train(true, false, 1, 21.0, false, false, false, DRIVE)]))

  const SHOWN := Z.Lamps([false, true, false], [false, true, false])
  const FREE := [false, true, true]

  lemma StartIsStart()
    ensures Start(LINE, AT_START, BLANK, 1)
  {
    var at: seq<int> := seq(1, i requires 0 <= i < 1 => [TRAIN][i].section);
    assert at == [0];
    BlankBooks();
    hide Book, Permitted, InitialState;
  }

  lemma BlankBooks()
    ensures InitialState(BLANK, [0]) == AT_START.plant.dc
  {
    assert Book(BLANK.sections, [0]).0 == BLANK.sections[0 := Section(true, true, false)];
    assert InitialState(BLANK, [0]).lights == [false, true, true];
  }

  lemma WorldsWhole(w: World)
    requires w == AT_START || w == WAITING || w == LEFT
    ensures Whole(LINE, w)
  {}

  /** Nobody crosses a detector until time 31, and no zone opens until time 30. */
  lemma NobodyCrosses(w: World, now: real)
    requires w == AT_START || w == WAITING || w == LEFT
    requires 0.0 <= now <= 31.0
    ensures Fits(LINE, w.plant) && Crossed(LINE, Pressed(LINE, w.plant, now, SAME), now, 1) == []
  {
    var p := Pressed(LINE, w.plant, now, SAME);
    assert Crossed(LINE, p, now, 0) == [];
  }

  lemma NothingOpens(v: Z.Voter, now: real)
    requires v == AT_START.voter || v == WAITING.voter
    requires 0.0 <= now <= 30.0
    ensures Z.Valid(v) && Z.Update(v, now) == v
  {
    assert Z.UpdateZones(v, 0, now) == v;
    assert Z.UpdateZones(v, 1, now) == v;
  }

  lemma NoNews(w: World, before: real, now: real)
    requires w == AT_START || w == WAITING || w == LEFT
    requires 0.0 <= now <= 30.0
    ensures Whole(LINE, w) && Informed(LINE, w, before, now, SAME) == w.voter
  {
    hide Z.Update, Whole, Crossed, Pressed, Fits;
    WorldsWhole(w);
    NobodyCrosses(w, now);
    NothingOpens(w.voter, now);
  }

  /** The train waits at its station until time 20, and then goes on green. */
  lemma TrainMoves(p: Plant, now: real)
    requires p == AT_START.plant || p == WAITING.plant || p == LEFT.plant
    requires if p == LEFT.plant then 21.0 < now <= 31.0 else 0.0 <= now <= 20.0 || (now == 21.0 && p == WAITING.plant)
    ensures Fits(LINE, p) && Moved(LINE, p, now, SAME) == if now == 21.0 then LEFT.plant else p
  {
    assert UpdateTrains(LINE, p, 0, now, [DRIVE]) == p;
  }

  lemma AgreedIs(w: World, now: real)
    requires w == AT_START || w == WAITING || w == LEFT
    requires Whole(LINE, w) && Moved(LINE, w.plant, now, SAME).dc == w.plant.dc
    ensures Agreed(LINE, w, now, SAME) == FREE
  {
    hide Moved, Whole;
  }

  lemma FirstTick()
    ensures Whole(LINE, AT_START) && Step(LINE, AT_START, 0.0, 0.0, SAME) == WAITING
  {
    hide Moved, Informed, Agreed, Z.Eval, Whole;
    NoNews(AT_START, 0.0, 0.0);
    TrainMoves(AT_START.plant, 0.0);
    AgreedIs(AT_START, 0.0);
    LightOneRises();
  }

  lemma LightOneRises()
    ensures Z.Valid(AT_START.voter) && Z.Fits(AT_START.voter, Z.Lamps([false, false, false], [false, false, false]), FREE)
    ensures Z.Eval(AT_START.voter, Z.Lamps([false, false, false], [false, false, false]), FREE, 0.0) == (WAITING.voter, SHOWN)
  {
    var v, la := AT_START.voter, Z.Lamps([false, false, false], [false, false, false]);
    Z.EvalTakes(v, la, FREE, 0.0, 0);
    Z.EvalTakes(v, la, FREE, 0.0, 1);
    var (u, q) := Z.Eval(v, la, FREE, 0.0);
    assert Z.Competes(v, la, FREE, 0, 1);
    assert Z.FirstRiser(v, la, FREE, 0, 3) == 1;
    assert Z.FirstRiser(v, la, FREE, 1, 3) == 3;
    assert u.zones == WAITING.voter.zones;
    assert u.votes == WAITING.voter.votes;
    assert q.actual == SHOWN.actual && q.last == SHOWN.last;
  }

  lemma NobodyRises(t: real)
    ensures Z.Valid(WAITING.voter) && Z.Fits(WAITING.voter, SHOWN, FREE)
    ensures Z.Eval(WAITING.voter, SHOWN, FREE, t) == (WAITING.voter, SHOWN)
  {
    Z.QuietEval(WAITING.voter, SHOWN, FREE, t);
  }

  lemma IdleTick(w: World, before: real, now: real)
    requires (w == WAITING && 0.0 <= now <= 20.0) || (w == LEFT && 21.0 < now <= 30.0)
    ensures Whole(LINE, w) && Step(LINE, w, before, now, SAME) == w
  {
    hide Moved, Informed, Agreed, Z.Eval, Whole;
    NoNews(w, before, now);
    TrainMoves(w.plant, now);
    AgreedIs(w, now);
    NobodyRises(now);
  }

  lemma LeavingTick(before: real)
    ensures Whole(LINE, WAITING) && Step(LINE, WAITING, before, 21.0, SAME) == LEFT
  {
    hide Moved, Informed, Agreed, Z.Eval, Whole;
    NoNews(WAITING, before, 21.0);
    TrainMoves(WAITING.plant, 21.0);
    AgreedIs(WAITING, 21.0);
    NobodyRises(21.0);
  }

  lemma ZoneOpens()
    ensures Whole(LINE, LEFT) && !Informed(LINE, LEFT, 30.0, 31.0, SAME).zones[0].blocked
  {
    hide Whole, Crossed, Pressed, Fits;
    WorldsWhole(LEFT);
    NobodyCrosses(LEFT, 31.0);
    NothingOpens(LEFT.voter, 0.0);
    Z.UpdateOpens(LEFT.voter, 2, 31.0, 0);
  }

  /** At time 31 the zone opens, and light 2 takes it although light 1 has been passed ten seconds ago. */
  lemma TakenTick()
    ensures Whole(LINE, LEFT) && SomeTakenBack(LINE, LEFT, 31, SAME)
    ensures
      var p := Step(LINE, LEFT, 30.0, 31.0, SAME).plant;
      p.trains == LEFT.plant.trains && p.dc == LEFT.plant.dc
  {
    hide Moved, Informed, Agreed, Z.Eval, Whole;
    ZoneOpens();
    TrainMoves(LEFT.plant, 31.0);
    AgreedIs(LEFT, 31.0);
    var r := Step(LINE, LEFT, 30.0, 31.0, SAME);
    assert r.plant.trains == LEFT.plant.trains && Crosses(LINE, r.plant, 31.0 + 1.0, 0);
    assert 2 != 1 && ZONE_OF[2] == 0 && FREE[2] && !SHOWN.last[2] && SHOWN.last[1];
    assert TakenBack(LINE, LEFT, 30.0, 31.0, SAME, 1);
  }

  /** At time 32 the detector is crossed, and the dc machine books the train in section 1. */
  lemma DetectedTick(p: Plant)
    requires p.trains == LEFT.plant.trains && p.dc == LEFT.plant.dc && |p.actual| == 3
    ensures Fits(LINE, p) && Moved(LINE, p, 32.0, LAST).dc.lights == LAST.others
  {
    assert UpdateTrains(LINE, p, 0, 32.0, [DRIVE]) == p;
  }

  function Same(m: nat): (xs: seq<Input>)
    ensures |xs| == m && AllPlausible(LINE, 1, xs)
  {
    seq(m, i => SAME)
  }

  lemma {:induction false} UntilTwenty(m: nat)
    requires 0 < m <= 21
    ensures Whole(LINE, AT_START) && Steps(LINE, AT_START, Same(m)) == WAITING
  {
    hide Step;
    FirstTick();
    assert Same(m)[..m - 1] == Same(m - 1);
    if m == 1 {
      assert Steps(LINE, AT_START, []) == AT_START;
    } else {
      UntilTwenty(m - 1);
      IdleTick(WAITING, Before(m - 1), (m - 1) as real);
    }
  }

  lemma {:induction false} UntilThirty(m: nat)
    requires 21 < m <= 31
    ensures Whole(LINE, AT_START) && Steps(LINE, AT_START, Same(m)) == LEFT
  {
    hide Step;
    assert Same(m)[..m - 1] == Same(m - 1);
    if m == 22 {
      UntilTwenty(21);
      LeavingTick(Before(21));
    } else {
      UntilThirty(m - 1);
      IdleTick(LEFT, Before(m - 1), (m - 1) as real);
    }
  }

  /** The dc machine votes as the remaining voters do. */
  lemma VotesAre(m: nat)
    requires 0 < m <= 32
    ensures Whole(LINE, AT_START) && Steps(LINE, AT_START, Same(m)).plant.dc.lights == FREE
  {
    hide Step, Steps, Whole;
    WorldsWhole(AT_START);
    if m <= 21 {
      UntilTwenty(m);
    } else if m <= 31 {
      UntilThirty(m);
    } else {
      VotesAtLast();
    }
  }

  lemma VotesAtLast()
    ensures Whole(LINE, AT_START)
    ensures
      var w := Steps(LINE, AT_START, Same(32));
      w.plant.trains == LEFT.plant.trains && w.plant.dc == LEFT.plant.dc
  {
    hide Step, Whole;
    UntilThirty(31);
    TakenTick();
    assert Same(32)[..31] == Same(31);
  }

  lemma LastVotes(w: World)
    requires Whole(LINE, w) && w.plant.trains == LEFT.plant.trains && w.plant.dc == LEFT.plant.dc
    ensures Step(LINE, w, 31.0, 32.0, LAST).plant.dc.lights == LAST.others
  {
    hide Moved, Z.Eval, Informed, Agreed, Z.Valid;
    DetectedTick(w.plant);
    assert Pressed(LINE, w.plant, 32.0, LAST) == w.plant;
  }

  const INPUTS := Same(32) + [LAST]

  /** All along the remaining voters say what the dc machine says. */
  lemma VotesMatch()
    ensures Whole(LINE, AT_START) && |AT_START.plant.trains| == 1 && AllPlausible(LINE, 1, INPUTS)
    ensures forall i :: 0 <= i < |INPUTS| ==> INPUTS[i].others == Steps(LINE, AT_START, INPUTS[..i + 1]).plant.dc.lights
  {
    hide Step, Steps, Whole;
    WorldsWhole(AT_START);
    forall i | 0 <= i < |INPUTS| ensures INPUTS[i].others == Steps(LINE, AT_START, INPUTS[..i + 1]).plant.dc.lights {
      if i < 32 {
        assert INPUTS[..i + 1] == Same(i + 1);
        VotesAre(i + 1);
      } else {
        assert INPUTS[..i + 1] == INPUTS;
        VotesAtEnd();
      }
    }
  }

  lemma VotesAtEnd()
    ensures Whole(LINE, AT_START) && |AT_START.plant.trains| == 1 && AllPlausible(LINE, 1, INPUTS)
    ensures Steps(LINE, AT_START, INPUTS).plant.dc.lights == LAST.others
  {
    hide Step, Whole;
    VotesAtLast();
    assert INPUTS[..32] == Same(32);
    LastVotes(Steps(LINE, AT_START, Same(32)));
  }

  /** A crossing at red on a run from the start, with the times of the program, without a key pressed, and with all the
      remaining voters saying what the dc machine says: the light that the train has passed is taken back ten seconds
      later, and it is seen by the detector the second after. */
  lemma CrossingAtRedHappens() returns (l: Line, w: World, d: Dc, xs: seq<Input>)
    ensures l.timeToDetector == 10.0 && l.dwellTime == 20.0
    ensures Start(l, w, d, 1) && AllPlausible(l, |w.plant.trains|, xs)
    ensures forall i :: 0 <= i < |xs| ==> xs[i].key == NoKey && xs[i].others == Steps(l, w, xs[..i + 1]).plant.dc.lights
    ensures Steps(l, w, xs).plant.crossedRed
  {
    hide Step, Start, SomeTakenBack;
    l, w, d, xs := LINE, AT_START, BLANK, INPUTS;
    StartIsStart();
    VotesMatch();
    UntilThirty(31);
    TakenTick();
    assert xs[..32][..31] == Same(31) && xs[..31] == Same(31);
    RedIffTakenBack(l, w, d, 1, xs);
    assert SomeTakenBack(l, Steps(l, w, xs[..31]), 31, xs[31]);
  }
}
