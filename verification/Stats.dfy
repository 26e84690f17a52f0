/**
 Live statistics of running simulations (src/SimStats.h).

 Each running simulation has a vector of status slots: slot 0 belongs to the node itself and, on the
 master, slot i to the i-th secondary. A missing simulation is treated as an empty vector.
 */
module Stats {
  import opened Common

  datatype Status = Status(
    id: string,
    simulationId: string,
    state: string,
    owner: string,
    live: nat,
    expected: nat,
    timeToFull: nat,
    startTime: nat,
    endTime: nat)

  type Slots = seq<Status>

  /** The number of live devices summed over all slots. */
  function Total(slots: Slots): nat
  {
    if slots == [] then 0 else slots[0].live + Total(slots[1..])
  }

  /** What UpdateConnections leaves: the master stamps the first moment everything is live. */
  function Stamped(master: bool, slots: Slots, now: nat): Slots
  {
    if slots != [] && master && slots[0].timeToFull == 0 && slots[0].expected == Total(slots)
    then slots[0 := slots[0].(timeToFull := Minus64(now, slots[0].startTime))]
    else slots
  }

  /** One more live device on this node. */
  function Raised(master: bool, slots: Slots, now: nat): Slots
  {
    if slots == [] then slots
    else Stamped(master, slots[0 := slots[0].(live := slots[0].live + 1)], now)
  }

  /** One less live device on this node; the counter saturates at zero. */
  function Lowered(slots: Slots): Slots
  {
    if slots == [] || slots[0].live == 0 then slots
    else slots[0 := slots[0].(live := slots[0].live - 1)]
  }

  /** The master takes over what secondary `index` reports about itself. */
  function Reported(master: bool, slots: Slots, index: nat, status: Status, now: nat): Slots
  {
    if index < |slots| then Stamped(master, slots[index := status], now) else slots
  }

  /** EndSim: slot 0 is marked completed. */
  function Ended(slots: Slots, now: nat): Slots
  {
    if slots == [] then slots else slots[0 := slots[0].(state := "completed", endTime := now)]
  }

  /** What GetCurrent shows a reader who may see the simulation. */
  function Current(master: bool, slots: Slots): Status
    requires slots != []
  {
    if master then slots[0].(live := Total(slots)) else slots[0]
  }

  /** The status a fresh slot starts with. */
  function Fresh(id: string, simulationId: string, owner: string, devices: nat, now: nat): Status
  {
    Status(id, simulationId, "running", owner, 0, devices, 0, now, 0)
  }

  function Copies(status: Status, n: nat): Slots
  {
    seq(n, _ => status)
  }

  lemma {:induction false} TotalUpdate(slots: Slots, i: nat, status: Status)
    requires i < |slots|
    ensures Total(slots[i := status]) + slots[i].live == Total(slots) + status.live
  {
    if i == 0 {
      assert slots[0 := status][1..] == slots[1..];
    } else {
      assert slots[i := status][1..] == slots[1..][i - 1 := status];
      TotalUpdate(slots[1..], i - 1, status);
    }
  }

  lemma {:induction false} TotalSnoc(slots: Slots, i: nat)
    requires i < |slots|
    ensures Total(slots[..i + 1]) == Total(slots[..i]) + slots[i].live
  {
    if i == 0 {
      assert slots[..1][1..] == [];
    } else {
      assert slots[..i + 1][1..] == slots[1..][..i];
      assert slots[..i][1..] == slots[1..][..i - 1];
      TotalSnoc(slots[1..], i - 1);
    }
  }

  /** Every slot StartSim appends is that of a running simulation of which nothing is live yet. */
  lemma StartedSlots(id: string, simulationId: string, owner: string, devices: nat, now: nat, n: nat)
    ensures var slots := Copies(Fresh(id, simulationId, owner, devices, now), n);
      && |slots| == n
      && (forall i | 0 <= i < n ::
            && slots[i].id == id && slots[i].simulationId == simulationId && slots[i].owner == owner
            && slots[i].state == "running" && slots[i].live == 0 && slots[i].expected == devices
            && slots[i].timeToFull == 0 && slots[i].startTime == now && slots[i].endTime == 0)
  {
  }

  /** Slot 0 keeps everything but its counter and its stamp, the other slots everything. */
  predicate OnlyCounted(was: Slots, now: Slots)
  {
    && |now| == |was|
    && (was != [] ==> now[0] == was[0].(live := now[0].live, timeToFull := now[0].timeToFull))
    && (forall i | 1 <= i < |was| :: now[i] == was[i])
  }

  /** Connections and losses change nothing but the counter of slot 0, by one, and perhaps its stamp. */
  lemma CountingIsLocal(master: bool, slots: Slots, now: nat)
    requires slots != []
    ensures OnlyCounted(slots, Raised(master, slots, now)) && OnlyCounted(slots, Lowered(slots))
    ensures Raised(master, slots, now)[0].live == slots[0].live + 1
    ensures Lowered(slots)[0].live == if slots[0].live == 0 then 0 else slots[0].live - 1
    ensures Lowered(slots)[0].timeToFull == slots[0].timeToFull
    ensures !master ==> Raised(master, slots, now)[0].timeToFull == slots[0].timeToFull
  {
  }

  /**
   A report of secondary `index` arrives: its slot holds the whole report, nothing else changes but
   perhaps the stamp, and the sum moves by what the report says more or less than the one before.
   */
  lemma ReportArrives(master: bool, slots: Slots, index: nat, status: Status, now: nat)
    requires 0 < index < |slots|
    ensures var after := Reported(master, slots, index, status, now);
      && |after| == |slots| && after[index] == status
      && after[0] == slots[0].(timeToFull := after[0].timeToFull)
      && (forall i | 1 <= i < |slots| && i != index :: after[i] == slots[i])
      && Total(after) + slots[index].live == Total(slots) + status.live
  {
    TotalUpdate(slots, index, status);
    var stored := slots[index := status];
    TotalUpdate(stored, 0, stored[0].(timeToFull := Minus64(now, stored[0].startTime)));
  }

  /** A report for a slot that is not there changes nothing. */
  lemma ReportOutOfRange(master: bool, slots: Slots, index: nat, status: Status, now: nat)
    requires index >= |slots|
    ensures Reported(master, slots, index, status, now) == slots
  {
  }

  /** The process-wide table of running simulations; `Statuses_` in the source. */
  class SimStats {
    const master: bool
    var Statuses: map<string, Slots>

    constructor (master: bool)
      ensures this.master == master && Statuses == map[]
    {
      this.master := master;
      Statuses := map[];
    }

    /** No simulation is known without a slot of its own. */
    ghost predicate Valid()
      reads this
    {
      forall id <- Statuses :: Statuses[id] != []
    }

    ghost function SlotsOf(id: string): Slots
      reads this
    {
      if id in Statuses then Statuses[id] else []
    }

    /** Sums the slots and stamps `timeToFullDevices` when every expected device is live. */
    method UpdateConnections(id: string, now: nat)
      requires Valid()
      modifies this
      ensures Valid()
      ensures Statuses == if id in old(Statuses)
                          then old(Statuses)[id := Stamped(master, old(Statuses)[id], now)]
                          else old(Statuses)
    {
      if id !in Statuses { return; }
      var slots := Statuses[id];
      if master {
        var devicesNow := 0;
        for i := 0 to |slots|
          invariant devicesNow == Total(slots[..i])
          invariant Statuses == old(Statuses)
        {
          TotalSnoc(slots, i);
          devicesNow := devicesNow + slots[i].live;
        }
        assert slots[..|slots|] == slots;
        if slots[0].timeToFull == 0 && slots[0].expected == devicesNow {
          slots := slots[0 := slots[0].(timeToFull := Minus64(now, slots[0].startTime))];
        }
      }
      Statuses := Statuses[id := slots];
    }

    method Connect(id: string, now: nat)
      requires Valid()
      modifies this
      ensures Valid()
      ensures Statuses == if id in old(Statuses)
                          then old(Statuses)[id := Raised(master, old(Statuses)[id], now)]
                          else old(Statuses)
    {
      if id !in Statuses { return; }
      var slots := Statuses[id];
      Statuses := Statuses[id := slots[0 := slots[0].(live := slots[0].live + 1)]];
      UpdateConnections(id, now);
    }

    method Disconnect(id: string)
      requires Valid()
      modifies this
      ensures Valid()
      ensures Statuses == if id in old(Statuses)
                          then old(Statuses)[id := Lowered(old(Statuses)[id])]
                          else old(Statuses)
    {
      if id !in Statuses { return; }
      var slots := Statuses[id];
      if slots[0].live > 0 {
        slots := slots[0 := slots[0].(live := slots[0].live - 1)];
      }
      Statuses := Statuses[id := slots];
    }

    /** Adds one slot for this node and, on the master, one more per known service. */
    method StartSim(id: string, simulationId: string, devices: nat, owner: string, services: nat, now: nat)
      requires Valid()
      modifies this
      ensures Valid()
      ensures Statuses == old(Statuses)[id := old(SlotsOf(id)) +
                Copies(Fresh(id, simulationId, owner, devices, now), if master then services + 1 else 1)]
    {
      var slots := if id in Statuses then Statuses[id] else [];
      var status := Status(id, simulationId, "running", owner, 0, devices, 0, now, 0);
      if master {
        var was := slots;
        for i := 0 to services + 1
          invariant slots == was + Copies(status, i)
          invariant Statuses == old(Statuses)
        {
          slots := slots + [status];
        }
      } else {
        slots := slots + [status];
        assert Copies(status, 1) == [status];
      }
      Statuses := Statuses[id := slots];
    }

    method EndSim(id: string, now: nat)
      requires Valid()
      modifies this
      ensures Valid()
      ensures Statuses == if id in old(Statuses)
                          then old(Statuses)[id := Ended(old(Statuses)[id], now)]
                          else old(Statuses)
    {
      if id !in Statuses { return; }
      var slots := Statuses[id];
      Statuses := Statuses[id := slots[0 := slots[0].(state := "completed", endTime := now)]];
    }

    method SetState(id: string, state: string)
      requires Valid()
      modifies this
      ensures Valid()
      ensures Statuses == if id in old(Statuses)
                          then old(Statuses)[id := old(Statuses)[id][0 := old(Statuses)[id][0].(state := state)]]
                          else old(Statuses)
    {
      if id !in Statuses { return; }
      var slots := Statuses[id];
      Statuses := Statuses[id := slots[0 := slots[0].(state := state)]];
    }

    method RemoveSim(id: string)
      requires Valid()
      modifies this
      ensures Valid()
      ensures Statuses == old(Statuses) - {id}
    {
      Statuses := Statuses - {id};
    }

    /** Accepts the report of a secondary; the simulation is looked up by the id inside the report. */
    method UpdateRemoteStatus(status: Status, index: nat, now: nat)
      requires Valid()
      modifies this
      ensures Valid()
      ensures Statuses == if status.id in old(Statuses)
                          then old(Statuses)[status.id :=
                                 Reported(master, old(Statuses)[status.id], index, status, now)]
                          else old(Statuses)
    {
      if status.id !in Statuses { return; }
      var slots := Statuses[status.id];
      if index < |slots| {
        Statuses := Statuses[status.id := slots[index := status]];
        UpdateConnections(status.id, now);
      }
    }

    /** Leaves `result` as it was when the simulation is unknown or not the reader's. */
    method GetCurrent(id: string, result: Status, user: UserInfo) returns (r: Status)
      requires Valid()
      ensures id in Statuses && MayTouch(user, Statuses[id][0].owner) ==> r == Current(master, Statuses[id])
      ensures !(id in Statuses && MayTouch(user, Statuses[id][0].owner)) ==> r == result
    {
      r := result;
      if id !in Statuses { return; }
      var slots := Statuses[id];
      if user.root || user.email == slots[0].owner {
        if master {
          var live := 0;
          for i := 0 to |slots|
            invariant live == Total(slots[..i])
          {
            TotalSnoc(slots, i);
            live := live + slots[i].live;
          }
          assert slots[..|slots|] == slots;
          r := Status(slots[0].id, slots[0].simulationId, slots[0].state, slots[0].owner, live,
                      slots[0].expected, slots[0].timeToFull, slots[0].startTime, slots[0].endTime);
        } else {
          r := slots[0];
        }
      }
    }
  }
}
