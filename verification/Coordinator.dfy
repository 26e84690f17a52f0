/**
 Starting, stopping, cancelling and expiring runs (src/SimulationCoordinator.cpp).
 */
module Coordinator {
  import opened Common
  import opened Stats

  /** The stored definition a run is started from, as far as the coordinator reads it. */
  datatype Definition = Definition(devices: nat, length: nat)

  /** A running simulation: its definition and who started it. */
  datatype Record = Record(simulationId: string, details: Definition, user: UserInfo)

  /** Simulations_, Statuses_ of SimStats, the results table, and LookForServices_. */
  datatype Books = Books(master: bool, sims: map<string, Record>, statuses: map<string, Slots>,
                         results: seq<Status>, looking: bool)

  datatype Outcome = Done | DoesNotExist | AccessDenied

  const BLANK := Status("", "", "", "", 0, 0, 0, 0, 0)

  function Started(b: Books, id: string, simulationId: string, d: Definition, user: UserInfo,
                   services: nat, now: nat): Books
  {
    b.(sims := b.sims[id := Record(simulationId, d, user)],
       statuses := b.statuses[id := (if id in b.statuses then b.statuses[id] else []) +
         Copies(Fresh(id, simulationId, user.email, d.devices, now), if b.master then services + 1 else 1)],
       looking := false)
  }

  /** What GetCurrent yields for the record's own user once the run is marked completed. */
  function FinalStatus(b: Books, id: string, now: nat): Status
    requires id in b.sims
  {
    if id in b.statuses && b.statuses[id] != [] && MayTouch(b.sims[id].user, b.statuses[id][0].owner)
    then Current(b.master, Ended(b.statuses[id], now))
    else BLANK
  }

  /** A run that is stopped or expires leaves one result on the master. */
  function Finished(b: Books, id: string, now: nat): Books
    requires id in b.sims
  {
    b.(sims := b.sims - {id}, statuses := b.statuses - {id},
       results := if b.master then b.results + [FinalStatus(b, id, now)] else b.results)
  }

  function StopOutcome(b: Books, id: string, user: UserInfo): Outcome
  {
    if id !in b.sims then DoesNotExist
    else if MayTouch(user, b.sims[id].user.email) then Done
    else AccessDenied
  }

  function Stopped(b: Books, id: string, user: UserInfo, now: nat): Books
  {
    if StopOutcome(b, id, user) == Done then Finished(b, id, now) else b
  }

  function Cancelled(b: Books, id: string, user: UserInfo): Books
  {
    if StopOutcome(b, id, user) == Done
    then b.(sims := b.sims - {id}, statuses := b.statuses - {id}, looking := true)
    else b
  }

  function StartTime(b: Books, id: string): nat
  {
    if id in b.statuses && b.statuses[id] != [] then b.statuses[id][0].startTime else 0
  }

  predicate Expired(b: Books, id: string, now: nat)
  {
    id in b.sims && b.sims[id].details.length != 0 && Minus64(now, StartTime(b, id)) > b.sims[id].details.length
  }

  /** The sweep over the runs in the order the map yields them. */
  function SweptOver(b: Books, order: seq<string>, now: nat): Books
  {
    if order == [] then b
    else
      var n := |order| - 1;
      var r := SweptOver(b, order[..n], now);
      if Expired(r, order[n], now) then Finished(r, order[n], now) else r
  }

  function Swept(b: Books, order: seq<string>, now: nat): Books
  {
    var r := SweptOver(b, order, now);
    if r.sims == map[] then r.(looking := true) else r
  }

  /** Each key of the map exactly once. */
  ghost predicate IsOrder(order: seq<string>, keys: set<string>)
  {
    && (forall id :: id in order <==> id in keys)
    && (forall i, j | 0 <= i < j < |order| :: order[i] != order[j])
  }

  lemma SweptSnoc(b: Books, order: seq<string>, i: nat, now: nat)
    requires i < |order|
    ensures var r := SweptOver(b, order[..i], now);
      SweptOver(b, order[..i + 1], now) == if Expired(r, order[i], now) then Finished(r, order[i], now) else r
  {
    assert order[..i + 1][..i] == order[..i];
  }

  class SimulationCoordinator {
    const stats: SimStats
    const definitions: map<string, Definition>
    var Services: nat
    var Simulations: map<string, Record>
    var Results: seq<Status>
    var LookForServices: bool

    ghost predicate Valid()
      reads this, stats
    {
      stats.Valid()
    }

    ghost function View(): Books
      reads this, stats
    {
      Books(stats.master, Simulations, stats.Statuses, Results, LookForServices)
    }

    constructor (stats: SimStats, definitions: map<string, Definition>)
      requires stats.Valid()
      ensures Valid() && this.stats == stats && this.definitions == definitions
      ensures View() == Books(stats.master, map[], stats.Statuses, [], true)
    {
      this.stats, this.definitions := stats, definitions;
      Services, Simulations, Results, LookForServices := 0, map[], [], true;
    }

    /** Both overloads: `id` is a fresh identifier on the master, the joined one on a secondary. */
    method StartSim(id: string, simulationId: string, user: UserInfo, now: nat) returns (ok: bool)
      requires Valid()
      modifies this`Simulations, this`LookForServices, stats
      ensures Valid() && (ok <==> simulationId in definitions)
      ensures View() == if simulationId in definitions
                        then Started(old(View()), id, simulationId, definitions[simulationId], user, Services, now)
                        else old(View())
    {
      if simulationId !in definitions {
        return false;
      }
      var newSim := definitions[simulationId];
      LookForServices := false;
      Simulations := Simulations[id := Record(simulationId, newSim, user)];
      stats.StartSim(id, simulationId, newSim.devices, user.email, Services, now);
      return true;
    }

    /** EndSim, on the master GetCurrent and CreateRecord, then RemoveSim and erase. */
    method Finish(id: string, now: nat)
      requires Valid() && id in Simulations
      modifies this`Simulations, this`Results, stats
      ensures Valid() && View() == Finished(old(View()), id, now)
    {
      stats.EndSim(id, now);
      if stats.master {
        var s := stats.GetCurrent(id, BLANK, Simulations[id].user);
        Results := Results + [s];
      }
      stats.RemoveSim(id);
      Simulations := Simulations - {id};
    }

    method StopSim(id: string, user: UserInfo, now: nat) returns (outcome: Outcome)
      requires Valid()
      modifies this`Simulations, this`Results, stats
      ensures Valid() && outcome == StopOutcome(old(View()), id, user)
      ensures View() == Stopped(old(View()), id, user, now)
    {
      if id !in Simulations {
        return DoesNotExist;
      }
      if user.root || user.email == Simulations[id].user.email {
        Finish(id, now);
        return Done;
      }
      return AccessDenied;
    }

    method CancelSim(id: string, user: UserInfo) returns (outcome: Outcome)
      requires Valid()
      modifies this`Simulations, this`LookForServices, stats
      ensures Valid() && outcome == StopOutcome(old(View()), id, user)
      ensures View() == Cancelled(old(View()), id, user)
    {
      if id !in Simulations {
        return DoesNotExist;
      }
      if user.root || user.email == Simulations[id].user.email {
        stats.SetState(id, "none");
        stats.RemoveSim(id);
        Simulations := Simulations - {id};
        LookForServices := true;
        return Done;
      }
      return AccessDenied;
    }

    /** One round of run(): the loop that erases expired runs while walking the map. */
    method ExpireRuns(order: seq<string>, now: nat)
      requires Valid() && IsOrder(order, Simulations.Keys)
      modifies this`Simulations, this`Results, this`LookForServices, stats
      ensures Valid() && View() == Swept(old(View()), order, now)
    {
      for i := 0 to |order|
        invariant Valid() && View() == SweptOver(old(View()), order[..i], now)
        invariant forall j | i <= j < |order| :: order[j] in Simulations
      {
        SweptSnoc(old(View()), order, i, now);
        var id := order[i];
        var start := if id in stats.Statuses then stats.Statuses[id][0].startTime else 0;
        if Simulations[id].details.length != 0 && Minus64(now, start) > Simulations[id].details.length {
          Finish(id, now);
        }
      }
      assert order[..|order|] == order;
      if Simulations == map[] {
        LookForServices := true;
      }
    }
  }
}
