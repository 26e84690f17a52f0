/**
 Conservation of runs: whatever mix of starts, stops, cancellations and expiry sweeps a coordinator
 goes through, every run is accounted for.
 */
module CoordinatorRuns {
  import opened Common
  import opened Stats
  import opened Coordinator

  datatype Op =
    | Start(id: string, simulationId: string, d: Definition, user: UserInfo, services: nat, now: nat)
    | Stop(id: string, user: UserInfo, now: nat)
    | Cancel(id: string, user: UserInfo)
    | Sweep(order: seq<string>, now: nat)
    | Count(id: string, slots: Slots)      // counters and reports move while a run goes on

  /** The books and what happened to every run so far. */
  datatype Ledger = Ledger(books: Books, started: set<string>, completed: set<string>, cancelled: set<string>)

  /** Running identifiers are fresh; counting never touches what identifies the run. */
  ghost predicate Enabled(l: Ledger, op: Op)
  {
    match op
    case Start(id, _, _, _, _, _) => id !in l.started
    case Sweep(order, _) => IsOrder(order, l.books.sims.Keys)
    case Count(id, slots) =>
      && id in l.books.statuses && l.books.statuses[id] != [] && slots != []
      && var was := l.books.statuses[id][0];
      slots[0].id == was.id && slots[0].owner == was.owner && slots[0].startTime == was.startTime
    case _ => true
  }

  function ExpiredRuns(b: Books, now: nat): set<string>
  {
    set id | id in b.sims && Expired(b, id, now)
  }

  function Apply(l: Ledger, op: Op): Ledger
  {
    var b := l.books;
    match op
    case Start(id, simulationId, d, user, services, now) =>
      l.(books := Started(b, id, simulationId, d, user, services, now), started := l.started + {id})
    case Stop(id, user, now) =>
      l.(books := Stopped(b, id, user, now),
         completed := if StopOutcome(b, id, user) == Done then l.completed + {id} else l.completed)
    case Cancel(id, user) =>
      l.(books := Cancelled(b, id, user),
         cancelled := if StopOutcome(b, id, user) == Done then l.cancelled + {id} else l.cancelled)
    case Sweep(order, now) =>
      l.(books := Swept(b, order, now), completed := l.completed + ExpiredRuns(b, now))
    case Count(id, slots) => l.(books := b.(statuses := b.statuses[id := slots]))
  }

  ghost predicate Run(l: Ledger, ops: seq<Op>)
    decreases ops
  {
    ops == [] || (Enabled(l, ops[0]) && Run(Apply(l, ops[0]), ops[1..]))
  }

  function After(l: Ledger, ops: seq<Op>): Ledger
    decreases ops
  {
    if ops == [] then l else After(Apply(l, ops[0]), ops[1..])
  }

  /** How many results a run has left. */
  function ResultsOf(results: seq<Status>, id: string): nat
  {
    if results == [] then 0
    else ResultsOf(results[..|results| - 1], id) + if results[|results| - 1].id == id then 1 else 0
  }

  /** Both maps know the same runs, and a run's slots belong to it and to who started it. */
  ghost predicate Matching(b: Books)
  {
    && b.sims.Keys == b.statuses.Keys
    && (forall id <- b.sims :: b.statuses[id] != [] && b.statuses[id][0].id == id
                               && b.statuses[id][0].owner == b.sims[id].user.email)
    && (forall s <- b.results :: s.state == "completed")
  }

  ghost predicate Accounted(l: Ledger)
  {
    && Matching(l.books)
    && l.started == l.books.sims.Keys + l.completed + l.cancelled
    && l.books.sims.Keys !! l.completed !! l.cancelled
    && (forall id :: ResultsOf(l.books.results, id) == if l.books.master && id in l.completed then 1 else 0)
  }

  lemma ResultsSnoc(results: seq<Status>, s: Status, id: string)
    ensures ResultsOf(results + [s], id) == ResultsOf(results, id) + if s.id == id then 1 else 0
  {
    assert (results + [s])[..|results + [s]| - 1] == results;
  }

  /** What ending the runs `due` leaves: both maps without them, one more result each on the master. */
  ghost predicate Ended(b: Books, r: Books, due: set<string>)
  {
    && Matching(r) && r.master == b.master && r.sims == b.sims - due && r.statuses == b.statuses - due
    && (forall id :: ResultsOf(r.results, id) == ResultsOf(b.results, id) + if b.master && id in due then 1 else 0)
  }

  /** Finishing a run leaves, on the master, one completed result: slot 0 with the live devices of all slots. */
  lemma FinishRun(b: Books, id: string, now: nat)
    requires Matching(b) && id in b.sims
    ensures Ended(b, Finished(b, id, now), {id})
    ensures b.master ==>
      var slots := b.statuses[id];
      Finished(b, id, now).results
        == b.results + [slots[0].(state := "completed", endTime := now, live := Total(slots))]
  {
    var slots := b.statuses[id];
    TotalUpdate(slots, 0, slots[0].(state := "completed", endTime := now));
    forall other {
      ResultsSnoc(b.results, FinalStatus(b, id, now), other);
    }
  }

  lemma EndedTwice(b: Books, m: Books, r: Books, first: set<string>, second: set<string>)
    requires Ended(b, m, first) && Ended(m, r, second) && first !! second
    ensures Ended(b, r, first + second)
  {
    assert b.sims - (first + second) == (b.sims - first) - second;
    assert b.statuses - (first + second) == (b.statuses - first) - second;
  }

  ghost function Due(b: Books, order: seq<string>, now: nat): set<string>
  {
    set id | id in order && Expired(b, id, now)
  }

  lemma DueSnoc(b: Books, order: seq<string>, n: nat, now: nat)
    requires n < |order|
    ensures Due(b, order[..n + 1], now)
         == Due(b, order[..n], now) + if Expired(b, order[n], now) then {order[n]} else {}
  {
    assert order[..n + 1] == order[..n] + [order[n]];
  }

  /** One more run looked at, which the sweep so far has not touched. */
  lemma SweepOne(b: Books, r: Books, due: set<string>, id: string, now: nat)
    requires Matching(b) && Ended(b, r, due) && id in b.sims && id !in due
    ensures Expired(r, id, now) == Expired(b, id, now)
    ensures Ended(b, if Expired(b, id, now) then Finished(r, id, now) else r,
                  due + if Expired(b, id, now) then {id} else {})
  {
    if Expired(b, id, now) {
      FinishRun(r, id, now);
      EndedTwice(b, r, Finished(r, id, now), due, {id});
    } else {
      assert due + {} == due;
    }
  }

  /** The sweep ends exactly the expired runs of the order it walks, each with its one result. */
  lemma {:induction false} SweepOverIsExact(b: Books, order: seq<string>, now: nat)
    requires Matching(b) && (forall id <- order :: id in b.sims)
    requires forall i, j | 0 <= i < j < |order| :: order[i] != order[j]
    ensures Ended(b, SweptOver(b, order, now), Due(b, order, now))
  {
    if order == [] {
      assert b.sims - {} == b.sims && b.statuses - {} == b.statuses;
      assert Due(b, order, now) == {};
    } else {
      var n := |order| - 1;
      SweepOverIsExact(b, order[..n], now);
      DueSnoc(b, order, n, now);
      assert order[..n + 1] == order && order[n] !in Due(b, order[..n], now);
      SweepOne(b, SweptOver(b, order[..n], now), Due(b, order[..n], now), order[n], now);
    }
  }

  /** One sweep over all running simulations: exactly the expired ones end. */
  lemma SweepIsExact(b: Books, order: seq<string>, now: nat)
    requires Matching(b) && IsOrder(order, b.sims.Keys)
    ensures Ended(b, Swept(b, order, now), ExpiredRuns(b, now))
    ensures Swept(b, order, now).looking <==> b.looking || Swept(b, order, now).sims == map[]
  {
    SweepOverIsExact(b, order, now);
    LookingKept(b, order, now);
    assert ExpiredRuns(b, now) == Due(b, order, now);
  }

  lemma {:induction false} LookingKept(b: Books, order: seq<string>, now: nat)
    ensures SweptOver(b, order, now).looking == b.looking
  {
    if order != [] { LookingKept(b, order[..|order| - 1], now); }
  }

  lemma EndingIsAccounted(l: Ledger, r: Books, due: set<string>)
    requires Accounted(l) && Ended(l.books, r, due) && due <= l.books.sims.Keys
    ensures Accounted(Ledger(r, l.started, l.completed + due, l.cancelled))
  {
  }

  lemma StartIsAccounted(l: Ledger, op: Op)
    requires Accounted(l) && Enabled(l, op) && op.Start?
    ensures Accounted(Apply(l, op))
  {
  }

  lemma CancelIsAccounted(l: Ledger, op: Op)
    requires Accounted(l) && Enabled(l, op) && op.Cancel?
    ensures Accounted(Apply(l, op))
  {
  }

  lemma CountIsAccounted(l: Ledger, op: Op)
    requires Accounted(l) && Enabled(l, op) && op.Count?
    ensures Accounted(Apply(l, op))
  {
  }

  /** Everything a run's slots go through while it lasts is such a change: connections, losses, reports. */
  lemma CountersMayMove(l: Ledger, id: string, index: nat, status: Status, now: nat)
    requires id in l.books.statuses && l.books.statuses[id] != []
    ensures var slots := l.books.statuses[id];
      && Enabled(l, Count(id, Raised(l.books.master, slots, now)))
      && Enabled(l, Count(id, Lowered(slots)))
      && (index != 0 ==> Enabled(l, Count(id, Reported(l.books.master, slots, index, status, now))))
  {
  }

  lemma AccountedStep(l: Ledger, op: Op)
    requires Accounted(l) && Enabled(l, op)
    ensures Accounted(Apply(l, op)) && Apply(l, op).books.master == l.books.master
  {
    match op
    case Start(_, _, _, _, _, _) => StartIsAccounted(l, op);
    case Stop(id, user, now) =>
      if StopOutcome(l.books, id, user) == Done {
        FinishRun(l.books, id, now);
        EndingIsAccounted(l, Finished(l.books, id, now), {id});
      }
    case Cancel(_, _) => CancelIsAccounted(l, op);
    case Sweep(order, now) =>
      SweepIsExact(l.books, order, now);
      EndingIsAccounted(l, Swept(l.books, order, now), ExpiredRuns(l.books, now));
    case Count(_, _) => CountIsAccounted(l, op);
  }

  lemma {:induction false} AccountedRun(l: Ledger, ops: seq<Op>)
    requires Accounted(l) && Run(l, ops)
    ensures Accounted(After(l, ops)) && After(l, ops).books.master == l.books.master
    decreases ops
  {
    if ops != [] {
      AccountedStep(l, ops[0]);
      AccountedRun(Apply(l, ops[0]), ops[1..]);
    }
  }

  function Empty(master: bool): Ledger
  {
    Ledger(Books(master, map[], map[], [], true), {}, {}, {})
  }

  /**
   Run conservation: after any operations the two maps have the same keys; every started run is still
   running, completed or cancelled, and only one of these; on the master a completed run has exactly
   one result, in state "completed", and every other run none.
   */
  lemma RunsAreConserved(master: bool, ops: seq<Op>)
    requires Run(Empty(master), ops)
    ensures var l := After(Empty(master), ops);
      && l.books.sims.Keys == l.books.statuses.Keys
      && l.started == l.books.sims.Keys + l.completed + l.cancelled
      && l.books.sims.Keys !! l.completed !! l.cancelled
      && (forall id :: ResultsOf(l.books.results, id) == if master && id in l.completed then 1 else 0)
      && (forall s <- l.books.results :: s.state == "completed")
  {
    AccountedRun(Empty(master), ops);
  }

  // ---- How long a run lives ---------------------------------------------------------------------

  /** Only the starter of a run and root may end it; others, and unknown runs, change nothing. */
  lemma OnlyPermittedEnd(b: Books, id: string, user: UserInfo, now: nat)
    ensures StopOutcome(b, id, user) ==
      if id !in b.sims then DoesNotExist
      else if user.root || user.email == b.sims[id].user.email then Done
      else AccessDenied
    ensures StopOutcome(b, id, user) != Done ==> Stopped(b, id, user, now) == b && Cancelled(b, id, user) == b
    ensures StopOutcome(b, id, user) == Done ==>
      && Stopped(b, id, user, now).sims == Cancelled(b, id, user).sims == b.sims - {id}
      && Stopped(b, id, user, now).statuses == Cancelled(b, id, user).statuses == b.statuses - {id}
      && Stopped(b, id, user, now).looking == b.looking && Cancelled(b, id, user).looking
      && Cancelled(b, id, user).results == b.results
  {
  }

  /**
   A sweep keeps a run iff the run has no limit or has not been running for longer than its limit; if the
   clock went back behind its start, it has been running for 2^64 seconds more.
   */
  lemma SweepKeepsIff(b: Books, order: seq<string>, now: nat, id: string)
    requires Matching(b) && IsOrder(order, b.sims.Keys)
    requires now < 0x1_0000_0000_0000_0000
    requires id in b.sims ==> b.statuses[id][0].startTime < 0x1_0000_0000_0000_0000
    ensures id in Swept(b, order, now).sims <==>
      && id in b.sims
      && (b.sims[id].details.length == 0
          || Elapsed(b.statuses[id][0].startTime, now) <= b.sims[id].details.length)
  {
    if id in b.sims {
      Minus64IsElapsed(b.statuses[id][0].startTime, now);
    }
    SweepIsExact(b, order, now);
  }

  /** The run goes on, as it was started. */
  ghost predicate Alive(l: Ledger, id: string, d: Definition, user: UserInfo, t: nat)
  {
    && Accounted(l) && id in l.books.sims
    && l.books.sims[id].details == d && l.books.sims[id].user == user && l.books.statuses[id][0].startTime == t
  }

  /** The run has been completed. */
  ghost predicate Over(l: Ledger, id: string)
  {
    Accounted(l) && id in l.completed
  }

  /** Nobody who may ends the run by hand, and the clock does not go back behind its start. */
  predicate LeavesAlone(op: Op, id: string, user: UserInfo, t: nat)
  {
    match op
    case Stop(other, who, _) => other == id ==> !who.root && who.email != user.email
    case Cancel(other, who) => other == id ==> !who.root && who.email != user.email
    case Sweep(_, now) => t <= now < 0x1_0000_0000_0000_0000
    case _ => true
  }

  /** A sweep that comes after the time of the run is up. */
  predicate TimeIsUp(op: Op, d: Definition, t: nat)
  {
    op.Sweep? && d.length != 0 && op.now - t > d.length
  }

  lemma AliveStart(l: Ledger, op: Op)
    requires Accounted(l) && Enabled(l, op) && op.Start?
    ensures Alive(Apply(l, op), op.id, op.d, op.user, op.now)
  {
    StartIsAccounted(l, op);
  }

  lemma AliveSweep(l: Ledger, op: Op, id: string, d: Definition, user: UserInfo, t: nat)
    requires Alive(l, id, d, user, t) && Enabled(l, op) && op.Sweep? && LeavesAlone(op, id, user, t)
    ensures if TimeIsUp(op, d, t) then Over(Apply(l, op), id) else Alive(Apply(l, op), id, d, user, t)
  {
    AccountedStep(l, op);
    SweepKeepsIff(l.books, op.order, op.now, id);
    SweepIsExact(l.books, op.order, op.now);
  }

  lemma AliveStep(l: Ledger, op: Op, id: string, d: Definition, user: UserInfo, t: nat)
    requires Alive(l, id, d, user, t) && Enabled(l, op) && LeavesAlone(op, id, user, t)
    ensures if TimeIsUp(op, d, t) then Over(Apply(l, op), id) else Alive(Apply(l, op), id, d, user, t)
  {
    if op.Sweep? {
      AliveSweep(l, op, id, d, user, t);
    } else {
      AccountedStep(l, op);
      if op.Stop? || op.Cancel? {
        OnlyPermittedEnd(l.books, op.id, op.user, if op.Stop? then op.now else 0);
      }
    }
  }

  lemma OverStep(l: Ledger, op: Op, id: string)
    requires Over(l, id) && Enabled(l, op)
    ensures Over(Apply(l, op), id)
  {
    AccountedStep(l, op);
  }

  lemma {:induction false} OverRun(l: Ledger, ops: seq<Op>, id: string)
    requires Over(l, id) && Run(l, ops)
    ensures Over(After(l, ops), id)
    decreases ops
  {
    if ops != [] {
      OverStep(l, ops[0], id);
      OverRun(Apply(l, ops[0]), ops[1..], id);
    }
  }

  lemma {:induction false} AliveRun(l: Ledger, ops: seq<Op>, id: string, d: Definition, user: UserInfo, t: nat)
    requires Alive(l, id, d, user, t) && Run(l, ops) && forall op <- ops :: LeavesAlone(op, id, user, t)
    ensures if exists op <- ops :: TimeIsUp(op, d, t) then Over(After(l, ops), id)
            else Alive(After(l, ops), id, d, user, t)
    decreases ops
  {
    if ops != [] {
      AliveStep(l, ops[0], id, d, user, t);
      assert forall op :: op in ops <==> op == ops[0] || op in ops[1..];
      if TimeIsUp(ops[0], d, t) {
        OverRun(Apply(l, ops[0]), ops[1..], id);
      } else {
        AliveRun(Apply(l, ops[0]), ops[1..], id, d, user, t);
      }
    }
  }

  /**
   The life of a run that nobody ends by hand, whatever else happens: it is still there iff its length is 0
   or no sweep came more than that length after its start, and completed otherwise.
   */
  lemma RunLivesUntil(master: bool, before: seq<Op>, start: Op, ops: seq<Op>)
    requires Run(Empty(master), before) && start.Start? && Enabled(After(Empty(master), before), start)
    requires Run(Apply(After(Empty(master), before), start), ops)
    requires forall op <- ops :: LeavesAlone(op, start.id, start.user, start.now)
    ensures var l := After(Apply(After(Empty(master), before), start), ops);
      && (start.id in l.books.sims <==>
            start.d.length == 0 || forall op <- ops | op.Sweep? :: op.now - start.now <= start.d.length)
      && (start.id in l.completed <==> start.id !in l.books.sims)
  {
    AccountedRun(Empty(master), before);
    AliveStart(After(Empty(master), before), start);
    AliveRun(Apply(After(Empty(master), before), start), ops, start.id, start.d, start.user, start.now);
  }

  /**
   Starting adds the run with who started it and one slot for each node that takes part, ends the search
   for services, and leaves no result.
   */
  lemma StartAdds(b: Books, id: string, simulationId: string, d: Definition, user: UserInfo,
                           services: nat, now: nat)
    ensures var s := Started(b, id, simulationId, d, user, services, now);
      && !s.looking && s.sims == b.sims[id := Record(simulationId, d, user)] && s.results == b.results
      && s.master == b.master && s.statuses.Keys == b.statuses.Keys + {id}
      && (forall other <- b.statuses :: other != id ==> s.statuses[other] == b.statuses[other])
    ensures var slots := Started(b, id, simulationId, d, user, services, now).statuses[id];
      id !in b.statuses ==>
        && |slots| == (if b.master then services + 1 else 1)
        && forall i | 0 <= i < |slots| ::
             && slots[i].id == id && slots[i].owner == user.email && slots[i].state == "running"
             && slots[i].live == 0 && slots[i].expected == d.devices && slots[i].startTime == now
  {
  }
}
