/** The voter for electrical zones (classic_tcontrol/startup_alg.cpp). */
module StartupAlg {
  // It keeps trains of one zone from starting together.  In the evaluation of the stop lights, a light that turns green
  // makes this voter change its votes for other lights while the evaluation is still going on.

  /** `timeFree` is the time after which a blocked zone may be opened again. */
  datatype Zone = Zone(blocked: bool, blockedFor: int, timeFree: real, stations: seq<nat>)

  /** The voter: the zone of every section, the zones, and its votes. */
  datatype Voter = Voter(zoneOf: seq<nat>, zones: seq<Zone>, votes: seq<bool>)

  /** The lights as shown now and as shown when last looked at. */
  datatype Lamps = Lamps(actual: seq<bool>, last: seq<bool>)

  /** Every section is listed once in its zone, and a blocked zone is blocked for one of its sections. */
  ghost predicate Valid(v: Voter) {
    && |v.votes| == |v.zoneOf|
    && (forall s :: 0 <= s < |v.zoneOf| ==> v.zoneOf[s] < |v.zones|)
    && (forall z :: 0 <= z < |v.zones| ==> Lists(v.zones[z].stations, v.zoneOf, z))
  }

  /** `stations` are exactly the sections of zone z. */
  ghost predicate Lists(stations: seq<nat>, zoneOf: seq<nat>, z: nat) {
    && (forall s :: s in stations ==> s < |zoneOf| && zoneOf[s] == z)
    && (forall s :: 0 <= s < |zoneOf| && zoneOf[s] == z ==> s in stations)
  }

  predicate Fits(v: Voter, la: Lamps, others: seq<bool>) {
    |la.actual| == |la.last| == |others| == |v.zoneOf| == |v.votes|
  }

  // ---------------------------------------------------------------- the voter as functions

  /** The votes after one value has been written for all `stations` except one. */
  function WriteVotes(votes: seq<bool>, stations: seq<nat>, except: int, vote: bool): (r: seq<bool>)
    requires forall s :: s in stations ==> s < |votes|
    ensures |r| == |votes|
    ensures forall s :: 0 <= s < |votes| ==> r[s] == if s in stations && s != except then vote else votes[s]
  {
    seq(|votes|, s requires 0 <= s < |votes| => if s in stations && s != except then vote else votes[s])
  }

  function LightToGreen(v: Voter, section: nat, t: real): (r: Voter)
    requires Valid(v) && section < |v.zoneOf|
    ensures Valid(r) && r.zoneOf == v.zoneOf && |r.zones| == |v.zones|
  {
    var z := v.zoneOf[section];
    Voter(v.zoneOf, v.zones[z := v.zones[z].(blocked := true, blockedFor := section, timeFree := t + 30.0)],
          WriteVotes(v.votes, v.zones[z].stations, section, false))
  }

  function CrossingEvent(v: Voter, section: nat, currentTime: real): (r: Voter)
    requires Valid(v) && section < |v.zoneOf|
    ensures Valid(r) && r.zoneOf == v.zoneOf && |r.zones| == |v.zones|
  {
    var z := v.zoneOf[section];
    if v.zones[z].blocked && v.zones[z].blockedFor == section
    then v.(zones := v.zones[z := v.zones[z].(timeFree := currentTime + 10.0)])
    else v
  }

  /** Open zone z again if its time is up. */
  function Release(v: Voter, z: nat, t: real): (r: Voter)
    requires Valid(v) && z < |v.zones|
    ensures Valid(r) && r.zoneOf == v.zoneOf && |r.zones| == |v.zones|
  {
    var zone := v.zones[z];
    if zone.blocked && t > zone.timeFree
    then Voter(v.zoneOf, v.zones[z := Zone(false, -1, -1.0, zone.stations)],
               WriteVotes(v.votes, zone.stations, zone.blockedFor, true))
    else v
  }

  function UpdateZones(v: Voter, count: nat, t: real): (r: Voter)
    requires Valid(v) && count <= |v.zones|
    ensures Valid(r) && r.zoneOf == v.zoneOf && |r.zones| == |v.zones|
  {
    if count == 0 then v else Release(UpdateZones(v, count - 1, t), count - 1, t)
  }

  function Update(v: Voter, t: real): (r: Voter)
    requires Valid(v)
    ensures Valid(r) && r.zoneOf == v.zoneOf && |r.zones| == |v.zones|
  {
    UpdateZones(v, |v.zones|, t)
  }

  // ---------------------------------------------------------------- the evaluation as functions

  /** Evaluate light i; `others` says where all the other voters agree to green. */
  function EvalOne(v: Voter, la: Lamps, others: seq<bool>, i: nat, t: real): (r: (Voter, Lamps))
    requires Valid(v) && Fits(v, la, others) && i < |others|
    ensures Valid(r.0) && Fits(r.0, r.1, others) && r.0.zoneOf == v.zoneOf && |r.0.zones| == |v.zones|
  {
    var isOn := v.votes[i] && others[i];
    (if isOn && !la.last[i] then LightToGreen(v, i, t) else v,
     Lamps(la.actual[i := isOn], la.last[i := isOn]))
  }

  /** Evaluate the first `count` lights in order. */
  function EvalPass(v: Voter, la: Lamps, others: seq<bool>, count: nat, t: real): (r: (Voter, Lamps))
    requires Valid(v) && Fits(v, la, others) && count <= |others|
    ensures Valid(r.0) && Fits(r.0, r.1, others) && r.0.zoneOf == v.zoneOf && |r.0.zones| == |v.zones|
  {
    if count == 0 then (v, la)
    else
      var (u, q) := EvalPass(v, la, others, count - 1, t);
      EvalOne(u, q, others, count - 1, t)
  }

  function EvalPasses(v: Voter, la: Lamps, others: seq<bool>, passes: nat, t: real): (r: (Voter, Lamps))
    requires Valid(v) && Fits(v, la, others)
    ensures Valid(r.0) && Fits(r.0, r.1, others) && r.0.zoneOf == v.zoneOf && |r.0.zones| == |v.zones|
  {
    if passes == 0 then (v, la)
    else
      var (u, q) := EvalPasses(v, la, others, passes - 1, t);
      EvalPass(u, q, others, |others|, t)
  }

  /** The evaluation makes three passes. */
  function Eval(v: Voter, la: Lamps, others: seq<bool>, t: real): (r: (Voter, Lamps))
    requires Valid(v) && Fits(v, la, others)
    ensures Valid(r.0) && Fits(r.0, r.1, others) && r.0.zoneOf == v.zoneOf && |r.0.zones| == |v.zones|
  {
    EvalPasses(v, la, others, 3, t)
  }

  // ---------------------------------------------------------------- what the votes are

  /** The voter says no to a section exactly if its zone is blocked for another one. */
  predicate VotesByZone(v: Voter)
    requires |v.votes| == |v.zoneOf| && forall s :: 0 <= s < |v.zoneOf| ==> v.zoneOf[s] < |v.zones|
  {
    forall s :: 0 <= s < |v.zoneOf| ==>
      var zone := v.zones[v.zoneOf[s]];
      v.votes[s] == (zone.blocked ==> zone.blockedFor == s)
  }

  lemma LightToGreenKeeps(v: Voter, section: nat, t: real)
    requires Valid(v) && section < |v.zoneOf| && VotesByZone(v) && v.votes[section]
    ensures VotesByZone(LightToGreen(v, section, t))
    ensures forall s :: 0 <= s < |v.zoneOf| && LightToGreen(v, section, t).votes[s] ==> v.votes[s]
  {}

  lemma ReleaseKeeps(v: Voter, z: nat, t: real)
    requires Valid(v) && z < |v.zones| && VotesByZone(v)
    ensures VotesByZone(Release(v, z, t))
  {}

  lemma {:induction false} UpdateKeeps(v: Voter, count: nat, t: real)
    requires Valid(v) && count <= |v.zones| && VotesByZone(v)
    ensures VotesByZone(UpdateZones(v, count, t))
  {
    hide Valid, VotesByZone, Release;
    if count > 0 {
      UpdateKeeps(v, count - 1, t);
      ReleaseKeeps(UpdateZones(v, count - 1, t), count - 1, t);
    }
  }

  /** An update opens exactly the zones whose time is up. */
  lemma {:induction false} UpdateOpens(v: Voter, count: nat, t: real, z: nat)
    requires Valid(v) && count <= |v.zones| && z < |v.zones|
    ensures
      var zone, r := v.zones[z], UpdateZones(v, count, t).zones[z];
      if z < count && zone.blocked && t > zone.timeFree then !r.blocked else r == zone
  {
    if count > 0 { UpdateOpens(v, count - 1, t, z); }
  }

  // ---------------------------------------------------------------- one pass

  /** At most one light of a zone is green. */
  predicate OnePerZone(zoneOf: seq<nat>, lights: seq<bool>)
    requires |lights| == |zoneOf|
  {
    forall s, u :: 0 <= s < u < |lights| && lights[s] && lights[u] ==> zoneOf[s] != zoneOf[u]
  }

  /** What the first `count` evaluations of a pass have done: votes were only withdrawn, a light is on only
      if it was voted for, and a zone in which some light was turned on is blocked. */
  ghost predicate PassSoFar(v: Voter, la: Lamps, others: seq<bool>, count: nat, u: Voter, q: Lamps)
    requires Valid(v) && Fits(v, la, others) && count <= |others|
    requires Valid(u) && Fits(u, q, others) && u.zoneOf == v.zoneOf && |u.zones| == |v.zones|
  {
    && VotesByZone(u)
    && (forall s :: 0 <= s < |others| && u.votes[s] ==> v.votes[s])
    && (forall s :: count <= s < |others| ==> q.actual[s] == la.actual[s] && q.last[s] == la.last[s])
    && (forall s :: 0 <= s < count ==>
          && q.last[s] == q.actual[s]
          && (q.actual[s] ==> others[s])
          && (u.votes[s] && others[s] ==> q.actual[s])
          && (q.actual[s] ==> la.last[s] || u.zones[u.zoneOf[s]].blocked))
  }

  lemma {:induction false} PassDoes(v: Voter, la: Lamps, others: seq<bool>, count: nat, t: real)
    requires Valid(v) && Fits(v, la, others) && count <= |others| && VotesByZone(v)
    ensures
      var (u, q) := EvalPass(v, la, others, count, t);
      PassSoFar(v, la, others, count, u, q)
  {
    hide Valid, VotesByZone, EvalOne;
    if count > 0 {
      PassDoes(v, la, others, count - 1, t);
      var (u, q) := EvalPass(v, la, others, count - 1, t);
      OneMoreDoes(v, la, others, count - 1, u, q, t);
    }
  }

  lemma OneMoreDoes(v: Voter, la: Lamps, others: seq<bool>, i: nat, u: Voter, q: Lamps, t: real)
    requires Valid(v) && Fits(v, la, others) && i < |others|
    requires Valid(u) && Fits(u, q, others) && u.zoneOf == v.zoneOf && |u.zones| == |v.zones|
    requires PassSoFar(v, la, others, i, u, q)
    ensures PassSoFar(v, la, others, i + 1, EvalOne(u, q, others, i, t).0, EvalOne(u, q, others, i, t).1)
  {
    if u.votes[i] && others[i] && !q.last[i] {
      LightToGreenKeeps(u, i, t);
    }
    hide Valid, VotesByZone;
  }

  /** A pass over lights in which nothing that is voted for is off turns no light on, and shows the vote. */
  lemma {:induction false} QuietPass(v: Voter, la: Lamps, others: seq<bool>, count: nat, t: real)
    requires Valid(v) && Fits(v, la, others) && count <= |others|
    requires forall s :: 0 <= s < |others| && v.votes[s] && others[s] ==> la.last[s]
    ensures
      var (u, q) := EvalPass(v, la, others, count, t);
      && u == v
      && (forall s :: 0 <= s < count ==> q.actual[s] == q.last[s] == (v.votes[s] && others[s]))
      && (forall s :: count <= s < |others| ==> q.actual[s] == la.actual[s] && q.last[s] == la.last[s])
  {
    hide Valid;
    if count > 0 { QuietPass(v, la, others, count - 1, t); }
  }

  // ---------------------------------------------------------------- the three passes

  /** The second pass reaches a fixpoint: lights show exactly what is voted, the voter is as the first
      pass left it, and the third pass changes nothing. */
  lemma SecondPassSettles(v: Voter, la: Lamps, others: seq<bool>, t: real)
    requires Valid(v) && Fits(v, la, others) && VotesByZone(v)
    ensures
      var (u1, q1) := EvalPasses(v, la, others, 1, t);
      var (u2, q2) := EvalPasses(v, la, others, 2, t);
      && u2 == u1
      && (forall s :: 0 <= s < |others| ==> q2.actual[s] == q2.last[s] == (u2.votes[s] && others[s]))
      && EvalPasses(v, la, others, 3, t) == EvalPasses(v, la, others, 2, t)
  {
    hide Valid, VotesByZone;
    var n := |others|;
    var (u1, q1) := EvalPasses(v, la, others, 1, t);
    assert EvalPasses(v, la, others, 0, t) == (v, la);
    PassDoes(v, la, others, n, t);
    QuietPass(u1, q1, others, n, t);
    var (u2, q2) := EvalPasses(v, la, others, 2, t);
    QuietPass(u2, q2, others, n, t);
    var (u3, q3) := EvalPasses(v, la, others, 3, t);
    assert q3.actual == q2.actual && q3.last == q2.last;
  }

  /** After an evaluation at most one light of each zone is green, and the invariants hold for the next. */
  lemma EvalLeavesOne(v: Voter, la: Lamps, others: seq<bool>, t: real)
    requires Valid(v) && Fits(v, la, others) && VotesByZone(v)
    requires OnePerZone(v.zoneOf, la.last)
    ensures
      var (u, q) := Eval(v, la, others, t);
      VotesByZone(u) && q.last == q.actual && OnePerZone(u.zoneOf, q.actual)
  {
    var n := |others|;
    SecondPassSettles(v, la, others, t);
    PassDoes(v, la, others, n, t);
    assert EvalPasses(v, la, others, 0, t) == (v, la);
    var (u1, q1) := EvalPasses(v, la, others, 1, t);
    var (u, q) := Eval(v, la, others, t);
    forall s, x | 0 <= s < x < n && q.actual[s] && q.actual[x]
      ensures u.zoneOf[s] != u.zoneOf[x]
    {
      assert q1.actual[s] && q1.actual[x];
    }
  }

  // ---------------------------------------------------------------- who takes a zone

  /** Light c of zone z rises if the voter lets it: all the others agree, and it was off. */
  predicate Competes(v: Voter, la: Lamps, others: seq<bool>, z: nat, c: nat)
    requires Fits(v, la, others) && c < |others|
  {
    v.zoneOf[c] == z && v.votes[c] && others[c] && !la.last[c]
  }

  /** The first of the first `count` lights that competes for zone z; `count` if there is none. */
  function FirstRiser(v: Voter, la: Lamps, others: seq<bool>, z: nat, count: nat): (c: nat)
    requires Fits(v, la, others) && count <= |others|
    ensures c <= count
    ensures c < count ==> Competes(v, la, others, z, c)
    ensures forall k :: 0 <= k < c ==> !Competes(v, la, others, z, k)
  {
    if count == 0 then 0
    else
      var c := FirstRiser(v, la, others, z, count - 1);
      if c < count - 1 || Competes(v, la, others, z, count - 1) then c else count
  }

  function Taken(zone: Zone, c: nat, t: real): Zone {
    zone.(blocked := true, blockedFor := c, timeFree := t + 30.0)
  }

  /** The first light that competes for a zone takes it in the pass; the zone is left alone if there is none. */
  lemma {:induction false} PassTakes(v: Voter, la: Lamps, others: seq<bool>, count: nat, t: real, z: nat)
    requires Valid(v) && Fits(v, la, others) && count <= |others| && VotesByZone(v) && z < |v.zones|
    ensures
      var c := FirstRiser(v, la, others, z, count);
      EvalPass(v, la, others, count, t).0.zones[z] == if c < count then Taken(v.zones[z], c, t) else v.zones[z]
  {
    hide FirstRiser, Valid, EvalOne;
    if count > 0 {
      var i := count - 1;
      PassTakes(v, la, others, i, t, z);
      PassDoes(v, la, others, i, t);
      var (u, q) := EvalPass(v, la, others, i, t);
      NextRiser(v, la, others, z, count);
      OneTakes(u, q, others, i, t, z);
      assert v.zoneOf[i] < |v.zones| by { ZonesInside(v, i); }
    }
  }

  lemma ZonesInside(v: Voter, i: nat)
    requires Valid(v) && i < |v.zoneOf|
    ensures v.zoneOf[i] < |v.zones|
  {}

  lemma NextRiser(v: Voter, la: Lamps, others: seq<bool>, z: nat, count: nat)
    requires Fits(v, la, others) && 0 < count <= |others|
    ensures
      var c := FirstRiser(v, la, others, z, count - 1);
      FirstRiser(v, la, others, z, count)
      == if c < count - 1 || Competes(v, la, others, z, count - 1) then c else count
  {}

  lemma OneTakes(u: Voter, q: Lamps, others: seq<bool>, i: nat, t: real, z: nat)
    requires Valid(u) && Fits(u, q, others) && i < |others| && z < |u.zones|
    ensures EvalOne(u, q, others, i, t).0.zones[z] ==
            if Competes(u, q, others, z, i) then Taken(u.zones[z], i, t) else u.zones[z]
  {}

  /** What an evaluation leaves: each zone as the first competing light, if any, has taken it, and lights that
      show the votes. */
  lemma EvalTakes(v: Voter, la: Lamps, others: seq<bool>, t: real, z: nat)
    requires Valid(v) && Fits(v, la, others) && VotesByZone(v) && z < |v.zones|
    ensures
      var (u, q) := Eval(v, la, others, t);
      var c := FirstRiser(v, la, others, z, |others|);
      && VotesByZone(u)
      && u.zones[z] == (if c < |others| then Taken(v.zones[z], c, t) else v.zones[z])
      && forall s :: 0 <= s < |others| ==> q.actual[s] == q.last[s] == (u.votes[s] && others[s])
  {
    hide Valid, VotesByZone, FirstRiser, EvalPass;
    SecondPassSettles(v, la, others, t);
    assert EvalPasses(v, la, others, 0, t) == (v, la);
    PassTakes(v, la, others, |others|, t, z);
    PassDoes(v, la, others, |others|, t);
  }

  /** An evaluation in which nothing that is voted for is off leaves the voter and the lights alone. */
  lemma QuietEval(v: Voter, la: Lamps, others: seq<bool>, t: real)
    requires Valid(v) && Fits(v, la, others) && VotesByZone(v)
    requires forall s :: 0 <= s < |others| ==> la.actual[s] == la.last[s] == (v.votes[s] && others[s])
    ensures Eval(v, la, others, t) == (v, la)
  {
    hide Valid, VotesByZone;
    var (u, q) := Eval(v, la, others, t);
    SecondPassSettles(v, la, others, t);
    assert EvalPasses(v, la, others, 0, t) == (v, la);
    QuietPass(v, la, others, |others|, t);
    assert q.actual == la.actual && q.last == la.last;
  }

  /** The zone of section s is blocked for another section, or it is open and another of its lights rises before
      that of s can, or although that of s is on. */
  ghost predicate Overtaken(v: Voter, la: Lamps, others: seq<bool>, s: nat)
    requires Fits(v, la, others) && s < |others| && v.zoneOf[s] < |v.zones|
  {
    var z := v.zoneOf[s];
    if v.zones[z].blocked then v.zones[z].blockedFor != s
    else exists c :: 0 <= c < |others| && c != s && v.zoneOf[c] == z && others[c] && !la.last[c] && (la.last[s] || c < s)
  }

  /** Exactly then the evaluation ends with this voter's no to a section to which all the others say yes. */
  lemma NoIffOvertaken(v: Voter, la: Lamps, others: seq<bool>, t: real, s: nat)
    requires Valid(v) && Fits(v, la, others) && VotesByZone(v) && s < |others| && others[s]
    ensures v.zoneOf[s] < |v.zones|
    ensures Eval(v, la, others, t).0.votes[s] <==> !Overtaken(v, la, others, s)
  {
    ZonesInside(v, s);
    var z := v.zoneOf[s];
    EvalTakes(v, la, others, t, z);
    hide Valid, FirstRiser, Eval;
    var c := FirstRiser(v, la, others, z, |others|);
    assert v.votes[s] == (v.zones[z].blocked ==> v.zones[z].blockedFor == s);
    if !v.zones[z].blocked {
      if c < |others| && c != s {
        assert Competes(v, la, others, z, c);
        assert !la.last[s] ==> Competes(v, la, others, z, s);
      }
      if Overtaken(v, la, others, s) {
        var k :| 0 <= k < |others| && k != s && v.zoneOf[k] == z && others[k] && !la.last[k] && (la.last[s] || k < s);
        assert Competes(v, la, others, z, k);
      }
    }
  }

  /** Two passes are needed: with sections 0 and 1 in one zone, 0 green and its block run out, light 1
      turns green after light 0 has been looked at, so that after the first pass both are shown. */
  lemma OnePassIsNotEnough(t: real) returns (v: Voter, la: Lamps, others: seq<bool>)
    ensures Valid(v) && Fits(v, la, others) && VotesByZone(v) && OnePerZone(v.zoneOf, la.last)
    ensures
      var q := EvalPasses(v, la, others, 1, t).1;
      !OnePerZone(v.zoneOf, q.actual)
  {
    v := Voter([0, 0], [Zone(false, -1, -1.0, [0, 1])], [true, true]);
    la := Lamps([true, false], [true, false]);
    others := [true, true];
    var (v1, la1) := EvalPass(v, la, others, 1, t);
    assert EvalPass(v, la, others, 0, t) == (v, la);
    assert (v1, la1) == EvalOne(v, la, others, 0, t);
    assert v1 == v && la1.last[1] == false;
    assert EvalPasses(v, la, others, 0, t) == (v, la);
    var q := EvalPasses(v, la, others, 1, t).1;
    assert EvalPass(v, la, others, 2, t) == EvalOne(v1, la1, others, 1, t);
    assert q.actual[0] && q.actual[1];
  }

  // ---------------------------------------------------------------- every run

  /** One tick: crossings reported by the trains, then the time, then the evaluation. */
  datatype Input = Input(crossings: seq<nat>, time: real, others: seq<bool>)

  function Crossings(v: Voter, sections: seq<nat>, currentTime: real): (r: Voter)
    requires Valid(v) && forall i :: 0 <= i < |sections| ==> sections[i] < |v.zoneOf|
    ensures Valid(r) && r.zoneOf == v.zoneOf && |r.zones| == |v.zones|
  {
    if sections == [] then v
    else var m := |sections| - 1;
         CrossingEvent(Crossings(v, sections[..m], currentTime), sections[m], currentTime)
  }

  predicate Proper(n: nat, x: Input) {
    |x.others| == n && forall i :: 0 <= i < |x.crossings| ==> x.crossings[i] < n
  }

  function Tick(v: Voter, la: Lamps, before: real, x: Input): (r: (Voter, Lamps))
    requires Valid(v) && Proper(|v.zoneOf|, x) && Fits(v, la, x.others)
    ensures Valid(r.0) && Fits(r.0, r.1, x.others) && r.0.zoneOf == v.zoneOf && |r.0.zones| == |v.zones|
  {
    Eval(Update(Crossings(v, x.crossings, before), x.time), la, x.others, x.time)
  }

  /** The time of the tick before the m-th. */
  function Before(xs: seq<Input>, m: nat): real
    requires m < |xs|
  {
    if m == 0 then 0.0 else xs[m - 1].time
  }

  /** The state after the ticks of `xs`. */
  function Run(v: Voter, la: Lamps, xs: seq<Input>): (r: (Voter, Lamps))
    requires Valid(v) && Fits(v, la, v.votes) && forall i :: 0 <= i < |xs| ==> Proper(|v.zoneOf|, xs[i])
    ensures Valid(r.0) && Fits(r.0, r.1, r.0.votes) && r.0.zoneOf == v.zoneOf && |r.0.zones| == |v.zones|
  {
    if xs == [] then (v, la)
    else
      var m := |xs| - 1;
      var (u, q) := Run(v, la, xs[..m]);
      Tick(u, q, Before(xs, m), xs[m])
  }

  lemma {:induction false} CrossingsKeep(v: Voter, sections: seq<nat>, currentTime: real)
    requires Valid(v) && VotesByZone(v) && forall i :: 0 <= i < |sections| ==> sections[i] < |v.zoneOf|
    ensures VotesByZone(Crossings(v, sections, currentTime))
  {
    if sections != [] {
      CrossingsKeep(v, sections[..|sections| - 1], currentTime);
    }
  }

  /** On every run, after every evaluation, at most one light in each electrical zone is green, and the voter
      says no to a section exactly if its zone is blocked for another one. */
  lemma {:induction false} OneGreenPerZone(v: Voter, la: Lamps, xs: seq<Input>)
    requires Valid(v) && Fits(v, la, v.votes) && forall i :: 0 <= i < |xs| ==> Proper(|v.zoneOf|, xs[i])
    requires VotesByZone(v) && la.last == la.actual && OnePerZone(v.zoneOf, la.actual)
    ensures
      var (u, q) := Run(v, la, xs);
      VotesByZone(u) && q.last == q.actual && OnePerZone(u.zoneOf, q.actual)
  {
    hide Valid, VotesByZone, OnePerZone, Eval, Update;
    if xs != [] {
      var m := |xs| - 1;
      OneGreenPerZone(v, la, xs[..m]);
      var (u, q) := Run(v, la, xs[..m]);
      TickKeeps(u, q, Before(xs, m), xs[m]);
    }
  }

  lemma TickKeeps(v: Voter, la: Lamps, before: real, x: Input)
    requires Valid(v) && Proper(|v.zoneOf|, x) && Fits(v, la, x.others)
    requires VotesByZone(v) && la.last == la.actual && OnePerZone(v.zoneOf, la.actual)
    ensures
      var (u, q) := Tick(v, la, before, x);
      VotesByZone(u) && q.last == q.actual && OnePerZone(u.zoneOf, q.actual)
  {
    hide VotesByZone, OnePerZone;
    CrossingsKeep(v, x.crossings, before);
    var c := Crossings(v, x.crossings, before);
    UpdateKeeps(c, |c.zones|, x.time);
    EvalLeavesOne(Update(c, x.time), la, x.others, x.time);
  }

  // ---------------------------------------------------------------- separation in time

  /** The block of a zone for one of its sections: when it ends, whether the light of the section is on, and
      whether the block has come to its end. */
  datatype Block = Block(free: real, lit: bool, over: bool)

  /** What the ticks of `xs` make of a block for section s: crossing its sensor sets the end to ten seconds after
      the last tick, and its light, should it go off and rise again, to thirty seconds later. */
  function BlockAfter(b: Block, s: nat, xs: seq<Input>): Block
    requires forall i :: 0 <= i < |xs| ==> s < |xs[i].others|
  {
    if xs == [] then b
    else
      var m := |xs| - 1;
      var p, x := BlockAfter(b, s, xs[..m]), xs[m];
      var free := if s in x.crossings then Before(xs, m) + 10.0 else p.free;
      if p.over || x.time > free then p.(over := true)
      else Block(if x.others[s] && !p.lit then x.time + 30.0 else free, x.others[s], false)
  }

  /** The zone of s is blocked for s, until `free`, and of its lights at most that of s is on. */
  predicate BlockedFor(v: Voter, la: Lamps, s: nat, free: real)
    requires |la.actual| == |v.zoneOf| && s < |v.zoneOf| && v.zoneOf[s] < |v.zones|
  {
    && v.zones[v.zoneOf[s]].blocked && v.zones[v.zoneOf[s]].blockedFor == s && v.zones[v.zoneOf[s]].timeFree == free
    && forall c :: 0 <= c < |v.zoneOf| && c != s && v.zoneOf[c] == v.zoneOf[s] ==> !la.actual[c]
  }

  lemma {:induction false} CrossingsSet(v: Voter, sections: seq<nat>, currentTime: real, s: nat)
    requires Valid(v) && s < |v.zoneOf| && v.zoneOf[s] < |v.zones|
    requires forall i :: 0 <= i < |sections| ==> sections[i] < |v.zoneOf|
    ensures
      var z := v.zoneOf[s];
      var zone := v.zones[z];
      zone.blocked && zone.blockedFor == s ==>
        Crossings(v, sections, currentTime).zones[z]
        == if s in sections then zone.(timeFree := currentTime + 10.0) else zone
  {
    hide Valid;
    if sections != [] {
      CrossingsSet(v, sections[..|sections| - 1], currentTime, s);
    }
  }

  /** One tick within the block leaves it to its section. */
  lemma BlockedTick(v: Voter, la: Lamps, before: real, x: Input, s: nat, free: real)
    requires Valid(v) && Proper(|v.zoneOf|, x) && Fits(v, la, x.others) && VotesByZone(v) && la.last == la.actual
    requires s < |v.zoneOf| && v.zoneOf[s] < |v.zones| && BlockedFor(v, la, s, free)
    requires x.time <= if s in x.crossings then before + 10.0 else free
    ensures
      var (u, q) := Tick(v, la, before, x);
      var now := if s in x.crossings then before + 10.0 else free;
      && BlockedFor(u, q, s, if x.others[s] && !la.actual[s] then x.time + 30.0 else now)
      && q.actual[s] == x.others[s]
  {
    var z := v.zoneOf[s];
    CrossingsKeep(v, x.crossings, before);
    CrossingsSet(v, x.crossings, before, s);
    var c := Crossings(v, x.crossings, before);
    UpdateKeeps(c, |c.zones|, x.time);
    UpdateOpens(c, |c.zones|, x.time, z);
    var w := Update(c, x.time);
    hide Valid, Crossings, Update, Eval;
    EvalTakes(w, la, x.others, x.time, z);
    hide FirstRiser;
    var r := FirstRiser(w, la, x.others, z, |x.others|);
    assert w.votes[s];
    if r < |x.others| {
      assert Competes(w, la, x.others, z, r);
      assert w.votes[r] == (w.zones[z].blocked ==> w.zones[z].blockedFor == r);
    } else {
      assert !Competes(w, la, x.others, z, s);
    }
  }

  /** Trains of a zone start one after the other: over every run from a state in which the zone of s is blocked for
      s, as long as the block lasts no other light of the zone turns green. */
  lemma {:induction false} NoSecondStart(v: Voter, la: Lamps, xs: seq<Input>, s: nat, free: real)
    requires Valid(v) && Fits(v, la, v.votes) && forall i :: 0 <= i < |xs| ==> Proper(|v.zoneOf|, xs[i])
    requires VotesByZone(v) && la.last == la.actual && OnePerZone(v.zoneOf, la.actual)
    requires s < |v.zoneOf| && v.zoneOf[s] < |v.zones| && BlockedFor(v, la, s, free)
    ensures
      var (u, q) := Run(v, la, xs);
      var b := BlockAfter(Block(free, la.actual[s], false), s, xs);
      !b.over ==> BlockedFor(u, q, s, b.free) && q.actual[s] == b.lit
  {
    hide Valid, VotesByZone, OnePerZone, BlockedFor, Tick;
    if xs != [] {
      var m := |xs| - 1;
      NoSecondStart(v, la, xs[..m], s, free);
      OneGreenPerZone(v, la, xs[..m]);
      var (u, q) := Run(v, la, xs[..m]);
      var b := BlockAfter(Block(free, la.actual[s], false), s, xs[..m]);
      var x := xs[m];
      if !b.over && x.time <= (if s in x.crossings then Before(xs, m) + 10.0 else b.free) {
        BlockedTick(u, q, Before(xs, m), x, s, b.free);
      }
    }
  }

  /** The comment beside the block promises 30 seconds or ten after the sensor, whichever comes first; the code
      takes the latter whenever the sensor is crossed.  The two agree exactly if it is crossed within 20 seconds. */
  lemma BlockEndsAsPromised(v: Voter, section: nat, green: real, crossed: real)
    requires Valid(v) && section < |v.zoneOf|
    ensures
      var free := CrossingEvent(LightToGreen(v, section, green), section, crossed).zones[v.zoneOf[section]].timeFree;
      var promised := if crossed + 10.0 < green + 30.0 then crossed + 10.0 else green + 30.0;
      free == promised <==> crossed <= green + 20.0
  {}

  // ---------------------------------------------------------------- the voter

  /** Zones that the voter has room for. */
  const MAX_ZONES := 20

  class StartupAlgorithm {
    var zoneOf: seq<nat>
    var zones: seq<Zone>
    var currentTime: real
    /** The votes of all voters, one row a section, one column a voter; column 0 is this voter's. */
    const board: array2<bool>

    ghost function Column(): (r: seq<bool>)
      requires board.Length1 > 0
      reads board
      ensures |r| == board.Length0 && forall s :: 0 <= s < |r| ==> r[s] == board[s, 0]
    {
      seq(board.Length0, s requires 0 <= s < board.Length0 reads board => board[s, 0])
    }

    ghost function State(): Voter
      requires board.Length1 > 0
      reads this, board
    {
      Voter(zoneOf, zones, Column())
    }

    ghost predicate Ready()
      reads this, board
    {
      board.Length1 > 0 && Valid(State())
    }

    /** The votes of the other voters stay as they are. */
    twostate predicate OthersKept()
      reads board
    {
      forall s, j :: 0 <= s < board.Length0 && 0 < j < board.Length1 ==> board[s, j] == old(board[s, j])
    }

    constructor (board: array2<bool>)
      ensures this.board == board
    {
      this.board := board;
      zoneOf, zones, currentTime := [], [], 0.0;
    }

    method InitialState()
      requires board.Length1 > 0
      modifies board
      ensures forall s :: 0 <= s < board.Length0 ==> board[s, 0]
      ensures OthersKept()
    {
      var i := 0;
      while i < board.Length0
        invariant 0 <= i <= board.Length0
        invariant forall s :: 0 <= s < i ==> board[s, 0]
        invariant OthersKept()
      {
        board[i, 0] := true;
        i := i + 1;
      }
    }

    method SetStationZones(zmap: seq<nat>)
      requires |zmap| == board.Length0 && board.Length1 > 0
      requires forall i :: 0 <= i < |zmap| ==> zmap[i] < MAX_ZONES
      modifies this
      ensures Ready() && zoneOf == zmap
      ensures forall z :: 0 <= z < |zones| ==> !zones[z].blocked
      ensures (forall s :: 0 <= s < board.Length0 ==> board[s, 0]) ==> VotesByZone(State())
    {
      zones := seq(MAX_ZONES, z => Zone(false, -1, 0.0, []));
      zoneOf := [];
      var zmax := 0;
      var i := 0;
      while i < |zmap|
        invariant 0 <= i <= |zmap| && zoneOf == zmap[..i]
        invariant |zones| == MAX_ZONES && 0 <= zmax < MAX_ZONES
        invariant forall s :: 0 <= s < i ==> zoneOf[s] <= zmax
        invariant forall z :: 0 <= z < |zones| ==> !zones[z].blocked && Lists(zones[z].stations, zoneOf, z)
      {
        var z := zmap[i];
        ghost var before := zones;
        zoneOf := zoneOf + [z];
        zones := zones[z := zones[z].(stations := zones[z].stations + [i])];
        forall y | 0 <= y < |zones| ensures Lists(zones[y].stations, zoneOf, y) {
          assert Lists(before[y].stations, zmap[..i], y);
        }
        if z > zmax {
          zmax := z;
        }
        i := i + 1;
      }
      assert zmap[..i] == zmap;
      zones := zones[..zmax + 1];
    }

    method Block(section: nat, t: real)
      requires Ready() && section < |zoneOf|
      modifies this, board
      ensures Ready() && State() == LightToGreen(old(State()), section, t)
      ensures OthersKept() && currentTime == old(currentTime)
    {
      var zn := zoneOf[section];
      var zone := zones[zn];
      zones := zones[zn := zone.(blocked := true, blockedFor := section, timeFree := t + 30.0)];
      Write(zone.stations, section, false);
    }

    /** Vote the same for all given sections except one. */
    method Write(stations: seq<nat>, except: int, vote: bool)
      requires board.Length1 > 0 && forall s :: s in stations ==> s < board.Length0
      modifies board
      ensures Column() == WriteVotes(old(Column()), stations, except, vote)
      ensures OthersKept()
    {
      var i := 0;
      while i < |stations|
        invariant 0 <= i <= |stations|
        invariant forall s :: 0 <= s < board.Length0 ==>
          board[s, 0] == if s in stations[..i] && s != except then vote else old(board[s, 0])
        invariant OthersKept()
      {
        var s := stations[i];
        assert s in stations;
        if s != except {
          board[s, 0] := vote;
        }
        i := i + 1;
      }
      assert stations[..i] == stations;
    }

    method ProcessCrossing(section: nat)
      requires Ready() && section < |zoneOf|
      modifies this
      ensures Ready() && State() == CrossingEvent(old(State()), section, old(currentTime))
    {
      var zn := zoneOf[section];
      if zones[zn].blocked && zones[zn].blockedFor == section {
        zones := zones[zn := zones[zn].(timeFree := currentTime + 10.0)];
      }
    }

    method UpdateTime(t: real)
      requires Ready()
      modifies this, board
      ensures Ready() && State() == Update(old(State()), t)
      ensures currentTime == t && OthersKept()
    {
      currentTime := t;
      ghost var before := State();
      var i := 0;
      while i < |zones|
        invariant 0 <= i <= |zones| == |before.zones|
        invariant Valid(State()) && State() == UpdateZones(before, i, t)
        invariant currentTime == t && OthersKept()
      {
        ReleaseZone(i, t);
        i := i + 1;
      }
    }

    method ReleaseZone(i: nat, t: real)
      requires Ready() && i < |zones|
      modifies this, board
      ensures Ready() && State() == Release(old(State()), i, t)
      ensures currentTime == old(currentTime) && OthersKept()
    {
      var zone := zones[i];
      if zone.blocked && t > zone.timeFree {
        Write(zone.stations, zone.blockedFor, true);
        zones := zones[i := Zone(false, -1, -1.0, zone.stations)];
      }
    }
  }

  // ---------------------------------------------------------------- the evaluation

  class StopLights {
    const startup: StartupAlgorithm
    const actual: array<bool>
    const last: array<bool>

    ghost predicate Ready()
      reads this, startup, startup.board
    {
      && startup.Ready()
      && actual != last
      && actual.Length == last.Length == startup.board.Length0 == |startup.zoneOf|
    }

    /** Where all voters but the first agree to green. */
    ghost function Others(): (r: seq<bool>)
      reads startup.board
      ensures |r| == startup.board.Length0
      ensures forall s :: 0 <= s < |r| ==>
        (r[s] <==> forall j :: 0 < j < startup.board.Length1 ==> startup.board[s, j])
    {
      seq(startup.board.Length0, s requires 0 <= s < startup.board.Length0 reads startup.board =>
        forall j :: 0 < j < startup.board.Length1 ==> startup.board[s, j])
    }

    ghost function Shown(): Lamps
      reads actual, last
    {
      Lamps(actual[..], last[..])
    }

    constructor (startup: StartupAlgorithm, n: nat)
      ensures this.startup == startup && fresh(actual) && fresh(last) && actual != last
      ensures Shown() == Lamps(seq(n, i => false), seq(n, i => false))
    {
      this.startup := startup;
      actual := new bool[n](i => false);
      last := new bool[n](i => false);
    }

    method EvalLight(i: nat, t: real)
      requires Ready() && i < actual.Length
      modifies startup, startup.board, actual, last
      ensures Ready() && Others() == old(Others())
      ensures (startup.State(), Shown()) == EvalOne(old(startup.State()), old(Shown()), old(Others()), i, t)
    {
      ghost var others := Others();
      var isOn := true;
      var j := 0;
      while j < startup.board.Length1
        invariant 0 <= j <= startup.board.Length1
        invariant isOn <==> forall k :: 0 <= k < j ==> startup.board[i, k]
      {
        if !startup.board[i, j] {
          isOn := false;
        }
        j := j + 1;
      }
      assert isOn <==> startup.Column()[i] && others[i];
      actual[i] := isOn;
      if last[i] != isOn {
        if isOn {
          startup.Block(i, t);
        }
      }
      last[i] := isOn;
      assert Others() == others;
    }

    method EvalOnce(t: real)
      requires Ready()
      modifies startup, startup.board, actual, last
      ensures Ready() && Others() == old(Others())
      ensures (startup.State(), Shown()) == EvalPass(old(startup.State()), old(Shown()), old(Others()), actual.Length, t)
    {
      ghost var v, la, others := startup.State(), Shown(), Others();
      var i := 0;
      while i < actual.Length
        invariant 0 <= i <= actual.Length
        invariant Ready() && Others() == others
        invariant (startup.State(), Shown()) == EvalPass(v, la, others, i, t)
      {
        EvalLight(i, t);
        i := i + 1;
      }
    }

    method EvalStopLights(t: real)
      requires Ready()
      modifies startup, startup.board, actual, last
      ensures Ready() && Others() == old(Others())
      ensures (startup.State(), Shown()) == Eval(old(startup.State()), old(Shown()), old(Others()), t)
    {
      ghost var v, la, others := startup.State(), Shown(), Others();
      var n := 0;
      while n < 3
        invariant 0 <= n <= 3
        invariant Ready() && Others() == others
        invariant (startup.State(), Shown()) == EvalPasses(v, la, others, n, t)
      {
        EvalOnce(t);
        n := n + 1;
      }
    }
  }
}
