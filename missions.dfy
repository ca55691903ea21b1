/**
 * The mission ledger shared by both enhanced round controllers: the Growth
 * template, `updateMission` and the all-completed test.
 */
module Missions {

  import opened BoardRules

  datatype Mission = Mission(id: string, target: int, current: int, completed: bool)

  /** Growth mode's three missions: plant 10, water 8, fertilize 5. */
  function GrowthMissions(): (ms: seq<Mission>)
    ensures forall i :: 0 <= i < |ms| ==> MissionValid(ms[i]) && ms[i].current == 0
    ensures forall i, j :: 0 <= i < j < |ms| ==> ms[i].id != ms[j].id
  {
    [Mission("1", 10, 0, false), Mission("2", 8, 0, false), Mission("3", 5, 0, false)]
  }

  /** Only Growth has missions; the endless modes start with none. */
  function MissionsFor(mode: Mode): (ms: seq<Mission>)
    ensures IsEndless(mode) <==> ms == []
  {
    if mode == Growth then GrowthMissions() else []
  }

  /** Progress lies between 0 and the positive target, and `completed` means the target is reached. */
  predicate MissionValid(m: Mission)
  {
    0 < m.target && 0 <= m.current <= m.target && m.completed == (m.current >= m.target)
  }

  /** One mission's step of `updateMission`. */
  function Advance(m: Mission, id: string, inc: nat): (r: Mission)
    ensures r.id == m.id && r.target == m.target
    ensures m.completed || m.id != id ==> r == m
    ensures MissionValid(m) ==> MissionValid(r) && m.current <= r.current
    ensures MissionValid(m) && m.id == id && !m.completed ==>
              r.current == Min(m.current + inc, m.target) && (r.completed <==> m.current + inc >= m.target)
  {
    if m.id == id && !m.completed then
      var c := Min(m.current + inc, m.target);
      m.(current := c, completed := c >= m.target)
    else m
  }

  /** `updateMission(id, inc)`: every mission is offered the increment, only the matching open one takes it. */
  function UpdateMission(ms: seq<Mission>, id: string, inc: nat): (r: seq<Mission>)
    ensures |r| == |ms|
    ensures forall i :: 0 <= i < |ms| ==> r[i] == Advance(ms[i], id, inc)
  {
    if ms == [] then [] else [Advance(ms[0], id, inc)] + UpdateMission(ms[1..], id, inc)
  }

  /** `missions.every(m => m.completed)`: vacuously true of an empty list. */
  predicate AllCompleted(ms: seq<Mission>)
    ensures ms == [] ==> AllCompleted(ms)
    ensures AllCompleted(ms) && (forall i :: 0 <= i < |ms| ==> MissionValid(ms[i])) ==>
              forall i :: 0 <= i < |ms| ==> ms[i].current == ms[i].target
  {
    forall i :: 0 <= i < |ms| ==> ms[i].completed
  }

  /** The ledger keeps the template's ids and targets, and each entry stays valid. */
  predicate MissionsFollow(ms: seq<Mission>, template: seq<Mission>)
  {
    && |ms| == |template|
    && forall i :: 0 <= i < |ms| ==>
         ms[i].id == template[i].id && ms[i].target == template[i].target && MissionValid(ms[i])
  }

  lemma TemplateFollows(mode: Mode)
    ensures MissionsFollow(MissionsFor(mode), MissionsFor(mode))
    ensures !AllCompleted(GrowthMissions())
  {
    assert !GrowthMissions()[0].completed;
  }

  lemma {:induction false} UpdateMissionFollows(ms: seq<Mission>, template: seq<Mission>, id: string, inc: nat)
    requires MissionsFollow(ms, template)
    ensures MissionsFollow(UpdateMission(ms, id, inc), template)
  {
    var r := UpdateMission(ms, id, inc);
    forall i | 0 <= i < |r|
      ensures r[i].id == template[i].id && r[i].target == template[i].target && MissionValid(r[i])
    {
      assert r[i] == Advance(ms[i], id, inc);
    }
  }

  /**
   * Progress never goes down, completed missions are frozen, and a mission
   * whose id differs is untouched.
   */
  lemma {:induction false} UpdateMissionMonotone(ms: seq<Mission>, id: string, inc: nat, i: nat)
    requires i < |ms| && MissionValid(ms[i])
    ensures |UpdateMission(ms, id, inc)| == |ms|
    ensures ms[i].current <= UpdateMission(ms, id, inc)[i].current <= ms[i].target
    ensures ms[i].completed ==> UpdateMission(ms, id, inc)[i] == ms[i]
    ensures ms[i].id != id ==> UpdateMission(ms, id, inc)[i] == ms[i]
  {
    assert UpdateMission(ms, id, inc)[i] == Advance(ms[i], id, inc);
  }

  /** An id that names no mission leaves the whole ledger unchanged. */
  lemma {:induction false} UpdateUnknownIsNoop(ms: seq<Mission>, id: string, inc: nat)
    requires forall i :: 0 <= i < |ms| ==> ms[i].id != id
    ensures UpdateMission(ms, id, inc) == ms
  {
    var r := UpdateMission(ms, id, inc);
    assert forall i :: 0 <= i < |ms| ==> r[i] == ms[i];
  }

  /** Completion never goes back: an all-completed ledger stays all-completed. */
  lemma {:induction false} UpdateKeepsAllCompleted(ms: seq<Mission>, id: string, inc: nat)
    requires AllCompleted(ms)
    ensures UpdateMission(ms, id, inc) == ms
  {
    var r := UpdateMission(ms, id, inc);
    assert forall i :: 0 <= i < |ms| ==> r[i] == ms[i];
  }

  /** `updateMission(id, 1)` called k times in a row. */
  function Repeat(ms: seq<Mission>, id: string, k: nat): (r: seq<Mission>)
    ensures |r| == |ms|
  {
    if k == 0 then ms else UpdateMission(Repeat(ms, id, k - 1), id, 1)
  }

  /**
   * After k unit increments the matching mission holds min(current + k, target),
   * so it completes exactly when k reaches what was left; other missions keep
   * their progress.
   */
  lemma {:induction false} RepeatProgress(ms: seq<Mission>, id: string, k: nat, i: nat)
    requires i < |ms| && MissionValid(ms[i])
    ensures MissionValid(Repeat(ms, id, k)[i])
    ensures Repeat(ms, id, k)[i].id == ms[i].id && Repeat(ms, id, k)[i].target == ms[i].target
    ensures ms[i].id == id ==> Repeat(ms, id, k)[i].current == Min(ms[i].current + k, ms[i].target)
    ensures ms[i].id != id ==> Repeat(ms, id, k)[i] == ms[i]
  {
    if k > 0 {
      RepeatProgress(ms, id, k - 1, i);
      var prev := Repeat(ms, id, k - 1);
      assert Repeat(ms, id, k)[i] == Advance(prev[i], id, 1);
    }
  }

  /**
   * k unit increments on id keep every mission valid, keep completed missions
   * completed, and complete every matching mission that had at most k to go.
   */
  lemma RepeatCompletes(ms: seq<Mission>, id: string, k: nat)
    requires forall i :: 0 <= i < |ms| ==> MissionValid(ms[i])
    ensures forall i :: 0 <= i < |ms| ==> MissionValid(Repeat(ms, id, k)[i])
    ensures forall i :: 0 <= i < |ms| && ms[i].completed ==> Repeat(ms, id, k)[i].completed
    ensures forall i :: 0 <= i < |ms| && ms[i].id == id && ms[i].current + k >= ms[i].target ==>
              Repeat(ms, id, k)[i].completed
  {
    forall i | 0 <= i < |ms|
      ensures MissionValid(Repeat(ms, id, k)[i])
      ensures ms[i].completed ==> Repeat(ms, id, k)[i].completed
      ensures ms[i].id == id && ms[i].current + k >= ms[i].target ==> Repeat(ms, id, k)[i].completed
    {
      RepeatProgress(ms, id, k, i);
    }
  }

  /**
   * `updateMission(id, inc)` calls on different ids commute: clicks of
   * different kinds may come in either order.
   */
  lemma UpdateMissionCommutes(ms: seq<Mission>, a: string, p: nat, b: string, q: nat)
    requires a != b
    ensures UpdateMission(UpdateMission(ms, a, p), b, q) == UpdateMission(UpdateMission(ms, b, q), a, p)
  {
  }

  /** The `updateMission(id, 1)` calls of a session, one per click, in the order they came. */
  function Replay(ms: seq<Mission>, clicks: seq<string>): (r: seq<Mission>)
    ensures |r| == |ms|
    decreases |clicks|
  {
    if clicks == [] then ms else Replay(UpdateMission(ms, clicks[0], 1), clicks[1..])
  }

  /**
   * Whatever the order of the clicks, a mission ends at min(current + n, target)
   * where n is the number of clicks naming it.
   */
  lemma {:induction false} ReplayProgress(ms: seq<Mission>, clicks: seq<string>, i: nat)
    requires i < |ms| && MissionValid(ms[i])
    ensures MissionValid(Replay(ms, clicks)[i])
    ensures Replay(ms, clicks)[i].id == ms[i].id && Replay(ms, clicks)[i].target == ms[i].target
    ensures Replay(ms, clicks)[i].current == Min(ms[i].current + multiset(clicks)[ms[i].id], ms[i].target)
    decreases |clicks|
  {
    if clicks != [] {
      var next := UpdateMission(ms, clicks[0], 1);
      assert next[i] == Advance(ms[i], clicks[0], 1);
      ReplayProgress(next, clicks[1..], i);
      assert clicks == [clicks[0]] + clicks[1..];
      assert multiset(clicks)[ms[i].id] == multiset(clicks[1..])[ms[i].id] + (if clicks[0] == ms[i].id then 1 else 0);
    }
  }

  /** Two sessions with the same clicks in any order leave a valid ledger in the same state. */
  lemma ReplayOrderFree(ms: seq<Mission>, clicks: seq<string>, reordered: seq<string>)
    requires forall i :: 0 <= i < |ms| ==> MissionValid(ms[i])
    requires multiset(clicks) == multiset(reordered)
    ensures Replay(ms, clicks) == Replay(ms, reordered)
  {
    forall i | 0 <= i < |ms|
      ensures Replay(ms, clicks)[i] == Replay(ms, reordered)[i]
    {
      ReplayProgress(ms, clicks, i);
      ReplayProgress(ms, reordered, i);
    }
  }

  /** Growth's mission i is completed by any session with enough clicks of its kind. */
  lemma GrowthMissionCompletes(clicks: seq<string>, i: nat)
    requires multiset(clicks)["1"] >= 10 && multiset(clicks)["2"] >= 8 && multiset(clicks)["3"] >= 5
    requires i < 3
    ensures Replay(GrowthMissions(), clicks)[i].completed
  {
    ReplayProgress(GrowthMissions(), clicks, i);
  }

  /**
   * Growth's missions are all completed by any mix of at least 10 plants,
   * 8 waterings and 5 fertilizings, in any order and whatever the trees involved.
   */
  lemma GrowthScenarioCompletes(clicks: seq<string>)
    requires multiset(clicks)["1"] >= 10 && multiset(clicks)["2"] >= 8 && multiset(clicks)["3"] >= 5
    ensures AllCompleted(Replay(GrowthMissions(), clicks))
  {
    forall i | 0 <= i < 3
      ensures Replay(GrowthMissions(), clicks)[i].completed
    {
      GrowthMissionCompletes(clicks, i);
    }
  }
}
