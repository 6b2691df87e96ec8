/** One expensive route search per tick for the whole fleet, handed out round robin. */
module NpcScheduler {

  /** An NPC as the scheduler sees it: identifiers start at 1. */
  datatype LaneNpc = LaneNpc(
    entityId: nat, searchRequested: bool, changingLane: bool, bypassing: bool, allowsDriving: bool)

  predicate Eligible(npc: LaneNpc) {
    npc.searchRequested && !npc.changingLane && !npc.bypassing && npc.allowsDriving
  }

  predicate EligibleId(npcs: seq<LaneNpc>, id: nat) {
    exists i :: 0 <= i < |npcs| && Eligible(npcs[i]) && npcs[i].entityId == id
  }

  ghost predicate ValidFleet(npcs: seq<LaneNpc>) {
    forall i :: 0 <= i < |npcs| ==> npcs[i].entityId > 0
  }

  /** The least eligible identifier above `after`, or else the least of all; zero when nobody is eligible. */
  ghost predicate IsNext(npcs: seq<LaneNpc>, after: nat, selected: nat) {
    if selected == 0 then forall id :: !EligibleId(npcs, id)
    else
      && EligibleId(npcs, selected)
      && (if selected > after then forall id: nat :: EligibleId(npcs, id) && id > after ==> selected <= id
          else forall id: nat :: EligibleId(npcs, id) ==> id <= after && selected <= id)
  }

  /** Exactly one identifier is next. */
  lemma {:induction false} NextIsUnique(npcs: seq<LaneNpc>, after: nat, first: nat, second: nat)
    requires ValidFleet(npcs) && IsNext(npcs, after, first) && IsNext(npcs, after, second)
    ensures first == second
  {
    hide EligibleId;
    if first != 0 {
      SomebodyIsNext(npcs, after, second, first);
    }
    if second != 0 {
      SomebodyIsNext(npcs, after, first, second);
    }
  }

  class SearchScheduler {
    var searchEntityId: nat
    var searchAfterEntityId: nat

    constructor ()
      ensures searchEntityId == 0 && searchAfterEntityId == 0
    {
      searchEntityId, searchAfterEntityId := 0, 0;
    }

    /** Selects this tick's searcher; without motion authority nobody searches and the turn stays where it is. */
    method SelectSearch(enabled: bool, npcs: seq<LaneNpc>)
      requires ValidFleet(npcs)
      modifies this
      ensures !enabled ==> searchEntityId == 0
      ensures enabled ==> IsNext(npcs, old(searchAfterEntityId), searchEntityId)
      ensures searchAfterEntityId == if searchEntityId == 0 then old(searchAfterEntityId) else searchEntityId
    {
      searchEntityId := 0;
      var firstRequested: nat := 0;
      if enabled {
        for i := 0 to |npcs|
          invariant searchAfterEntityId == old(searchAfterEntityId)
          invariant firstRequested == 0 ==> forall id :: !EligibleId(npcs[..i], id)
          invariant firstRequested != 0 ==>
            EligibleId(npcs[..i], firstRequested) && forall id: nat :: EligibleId(npcs[..i], id) ==>
              firstRequested <= id
          invariant searchEntityId == 0 ==> forall id: nat :: EligibleId(npcs[..i], id) ==> id <= searchAfterEntityId
          invariant searchEntityId != 0 ==>
            && EligibleId(npcs[..i], searchEntityId) && searchEntityId > searchAfterEntityId
            && forall id: nat :: EligibleId(npcs[..i], id) && id > searchAfterEntityId ==> searchEntityId <= id
        {
          var npc := npcs[i];
          OneMore(npcs[..i], npc, npcs[..i + 1]);
          if !Eligible(npc) {
            continue;
          }
          if firstRequested == 0 || npc.entityId < firstRequested {
            firstRequested := npc.entityId;
          }
          if npc.entityId > searchAfterEntityId && (searchEntityId == 0 || npc.entityId < searchEntityId) {
            searchEntityId := npc.entityId;
          }
        }
        assert npcs[..|npcs|] == npcs;
      }
      if searchEntityId == 0 {
        searchEntityId := firstRequested;
      }
      if searchEntityId != 0 {
        searchAfterEntityId := searchEntityId;
      }
    }
  }

  lemma {:induction false} OneMore(less: seq<LaneNpc>, npc: LaneNpc, more: seq<LaneNpc>)
    requires more == less + [npc]
    ensures forall id :: EligibleId(more, id) <==> EligibleId(less, id) || (Eligible(npc) && npc.entityId == id)
  {
    hide Eligible;
    assert more[|less|] == npc;
    forall id
      ensures EligibleId(more, id) <==> EligibleId(less, id) || (Eligible(npc) && npc.entityId == id)
    {
      if EligibleId(more, id) {
        var k :| 0 <= k < |more| && Eligible(more[k]) && more[k].entityId == id;
        assert k < |less| ==> less[k] == more[k];
      }
      if EligibleId(less, id) {
        var k :| 0 <= k < |less| && Eligible(less[k]) && less[k].entityId == id;
        assert more[k] == less[k];
      }
    }
  }

  /** Somebody eligible means that somebody is selected. */
  lemma {:induction false} SomebodyIsNext(npcs: seq<LaneNpc>, after: nat, selected: nat, id: nat)
    requires IsNext(npcs, after, selected) && EligibleId(npcs, id)
    ensures selected != 0
  {
    hide EligibleId;
  }

  // ---- Bounded waiting ----

  /** The round-robin turns of a run of committed ticks; `turns[k]` is the identifier selected at tick `k`. */
  ghost predicate RoundRobin(ticks: seq<seq<LaneNpc>>, after: nat, turns: seq<nat>) {
    && |turns| == |ticks|
    && forall k :: 0 <= k < |ticks| ==> ValidFleet(ticks[k]) && IsNext(ticks[k], TurnBefore(after, turns, k), turns[k])
  }

  /** The last identifier selected before tick `k`, which the next selection continues after. */
  function TurnBefore(after: nat, turns: seq<nat>, k: nat): nat
    requires k <= |turns|
  {
    if k == 0 then after else if turns[k - 1] != 0 then turns[k - 1] else TurnBefore(after, turns, k - 1)
  }

  /** Going up from `after` and wrapping around, `id` comes before `waiting`. */
  predicate ComesBefore(after: nat, id: nat, waiting: nat) {
    if after < waiting then after < id < waiting else id > after || id < waiting
  }

  /** The fleet members whose turn comes before the waiting one. */
  function Ahead(fleet: set<nat>, after: nat, waiting: nat): set<nat> {
    set id | id in fleet && id != waiting && ComesBefore(after, id, waiting)
  }

  /** Every turn given to somebody else shortens the line. */
  lemma {:induction false} LineShortens(npcs: seq<LaneNpc>, fleet: set<nat>, after: nat, waiting: nat, selected: nat)
    requires ValidFleet(npcs) && IsNext(npcs, after, selected) && EligibleId(npcs, waiting)
    requires forall id :: EligibleId(npcs, id) ==> id in fleet
    ensures selected != 0
    ensures selected != waiting ==> |Ahead(fleet, selected, waiting)| < |Ahead(fleet, after, waiting)|
  {
    hide EligibleId;
    SomebodyIsNext(npcs, after, selected, waiting);
    if selected != waiting {
      assert selected in Ahead(fleet, after, waiting);
      assert selected !in Ahead(fleet, selected, waiting);
      assert Ahead(fleet, selected, waiting) <= Ahead(fleet, after, waiting) - {selected};
      SubsetIsSmaller(Ahead(fleet, selected, waiting), Ahead(fleet, after, waiting) - {selected});
    }
  }

  lemma {:induction false} SubsetIsSmaller(a: set<nat>, b: set<nat>)
    requires a <= b
    ensures |a| <= |b|
  {
    assert b == a + (b - a);
  }

  lemma {:induction false} LineAfter(
    ticks: seq<seq<LaneNpc>>, fleet: set<nat>, after: nat, turns: seq<nat>, waiting: nat, k: nat)
    requires RoundRobin(ticks, after, turns) && k <= |ticks|
    requires forall j, id :: 0 <= j < k && EligibleId(ticks[j], id) ==> id in fleet
    requires forall j :: 0 <= j < k ==> EligibleId(ticks[j], waiting) && turns[j] != waiting
    ensures |Ahead(fleet, TurnBefore(after, turns, k), waiting)| + k <= |Ahead(fleet, after, waiting)|
  {
    hide EligibleId, Ahead, IsNext;
    if k > 0 {
      LineAfter(ticks, fleet, after, turns, waiting, k - 1);
      LineShortens(ticks[k - 1], fleet, TurnBefore(after, turns, k - 1), waiting, turns[k - 1]);
    }
  }

  /**
   * Bounded waiting: an NPC that stays eligible for as many ticks as the fleet has members is selected at least once,
   * whatever the others do meanwhile.
   */
  lemma {:induction false} NobodyStarves(
    ticks: seq<seq<LaneNpc>>, fleet: set<nat>, after: nat, turns: seq<nat>, waiting: nat)
    requires RoundRobin(ticks, after, turns) && waiting in fleet && |ticks| >= |fleet|
    requires forall j, id :: 0 <= j < |ticks| && EligibleId(ticks[j], id) ==> id in fleet
    requires forall j :: 0 <= j < |ticks| ==> EligibleId(ticks[j], waiting)
    ensures waiting in turns
  {
    hide EligibleId, IsNext;
    if waiting !in turns {
      LineAfter(ticks, fleet, after, turns, waiting, |ticks|);
      assert Ahead(fleet, after, waiting) <= fleet - {waiting};
      SubsetIsSmaller(Ahead(fleet, after, waiting), fleet - {waiting});
    }
  }

  /** Every tick with an eligible NPC selects exactly one, and it is eligible. */
  lemma {:induction false} EveryTickSelectsOne(npcs: seq<LaneNpc>, after: nat, selected: nat, id: nat)
    requires ValidFleet(npcs) && IsNext(npcs, after, selected) && EligibleId(npcs, id)
    ensures selected != 0 && EligibleId(npcs, selected)
    ensures forall other :: IsNext(npcs, after, other) ==> other == selected
  {
    hide EligibleId;
    forall other | IsNext(npcs, after, other)
      ensures other == selected
    {
      NextIsUnique(npcs, after, other, selected);
    }
    SomebodyIsNext(npcs, after, selected, id);
  }
}
