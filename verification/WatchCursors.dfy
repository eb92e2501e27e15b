/**
 The round-robin cursors over whole runs of the watch loop: outside a reconcile they are below the
 backend counts and every installed frontend has a backend to select.
 */
module WatchCursors {
  import opened Tables
  import opened Runs
  import opened Reconciler
  import opened Rebuild
  import opened Interleaving
  import opened RoundRobin
  import opened Watch

  /** Every entry has a backend. */
  ghost predicate Backed(es: Entries) {
    forall id :: id in es ==> es[id].backends != []
  }

  /** Only services with backends become entries. */
  ghost predicate Backs<T(!new)>(src: Source<T>) {
    forall name, caches ::
      (|caches| == KINDS && src.proper(caches[SERVICES]) && src.derive(name, caches).Some?) ==>
          Backed(src.derive(name, caches).value)
  }

  /** The worker is between two reconciles, or reading the caches for the next one. */
  predicate Outside(p: Phase) {
    p.Idle? || p.Debouncing? || p.Reading?
  }

  // --- Selection --------------------------------------------------------------------------

  /** Applied entries have backends, and so will have the ones being installed. */
  ghost predicate BackedThroughout<T(!new)>(x: Watcher<T>) {
    Backed(x.applied) && (x.phase.Applying? ==> Backed(x.phase.desired))
  }

  lemma ActKeepsBacked<T(!new)>(src: Source<T>, left: Leftover, x: Watcher<T>, a: Action<T>)
    requires Sound(src) && Backs(src) && Valid(src, left, x) && BackedThroughout(x) && Enabled(src, x, a)
    ensures BackedThroughout(After(src, x, a))
  {
    hide IsImageOver, Plan, ApplyAll, Worklists, Covers, WellFormed, Next, AllInstallable, Backed, WillLook, Stable;
  }

  lemma {:induction false} RunsKeepBacked<T(!new)>(src: Source<T>, left: Leftover, x: Watcher<T>,
                                            actions: seq<Action<T>>, y: Watcher<T>)
    requires Sound(src) && Backs(src) && Valid(src, left, x) && BackedThroughout(x) && Leads(src, left, x, actions, y)
    ensures BackedThroughout(y)
    decreases |actions|
  {
    hide Applied, After, Sound, Backs, WellFormed, WillLook, Worklists, BackedThroughout;
    if actions != [] {
      ActKeepsValid(src, left, x, actions[0]);
      ActKeepsBacked(src, left, x, actions[0]);
      RunsKeepBacked(src, left, After(src, x, actions[0]), actions[1..], y);
    }
  }

  /** The rows of an entry with backends let select_backend find one, whatever its cursor. */
  lemma ImageAlwaysSelects(es: Entries, s: Tables, left: Leftover, id: ServiceID)
    requires IsImageOver(es, s, left) && Backed(es) && id in es
    ensures var fe := FrontendFor(es[id]);
            fe in s.services && ChosenBackend(s, fe, s.services[fe]).Some?
  {
    assert RowsIntact(es[id], s);
    hide ChosenBackend, RowsIntact, IsImageOver;
    IntactFrontendAlwaysSelects(es[id], s);
  }

  lemma NewRowsAreApplied(es: Entries, s: Tables, left: Leftover)
    requires IsImageOver(es, s, left)
    ensures forall fe :: fe in s.services && fe !in left.frontends ==> exists id :: HasFrontend(es, id, fe)
  {
  }

  /**
   From any start, rows and cursors of an earlier process included: in every state of every run
   outside a reconcile selecting a backend succeeds for the frontend of every applied entry, and so
   for every installed frontend that had no row at the start.
   */
  lemma AppliedAlwaysSelect<T(!new)>(src: Source<T>, x: Watcher<T>, actions: seq<Action<T>>, y: Watcher<T>)
    requires Backs(src) && Reaches(src, x, actions, y) && Outside(y.phase)
    ensures WellFormed(y.applied)
    ensures forall id :: id in y.applied ==>
              var fe := FrontendFor(y.applied[id]);
              fe in y.world.t.services && ChosenBackend(y.world.t, fe, y.world.t.services[fe]).Some?
    ensures forall fe :: fe in y.world.t.services && fe !in x.world.t.services ==>
              ChosenBackend(y.world.t, fe, y.world.t.services[fe]).Some?
  {
    var left := RowsOf(x.world.t);
    FreshIsValid(src, x);
    RunsStayValid(src, left, x, actions, y);
    RunsKeepBacked(src, left, x, actions, y);
    hide Sound, Backs, Leads, ChosenBackend, Backed, WellFormed, BackendsMatch, Fresh, WillLook, ServicesMatch;
    NewRowsAreApplied(y.applied, y.world.t, left);
    hide IsImageOver;
    forall id | id in y.applied
      ensures var fe := FrontendFor(y.applied[id]);
              fe in y.world.t.services && ChosenBackend(y.world.t, fe, y.world.t.services[fe]).Some?
    {
      ImageAlwaysSelects(y.applied, y.world.t, left, id);
    }
  }

  // --- Cursors ----------------------------------------------------------------------------

  /** Outside a reconcile the cursor fits; inside, it is in order for the operations still to come. */
  ghost predicate CursorKept<T(!new)>(x: Watcher<T>, fe: Frontend) {
    match x.phase
    case Stopped => true
    case Applying(_, _, plan, done) => done <= |plan| && InOrder(x.world.t, plan[done..], fe)
    case _ => CursorFits(x.world.t, fe)
  }

  lemma TrafficKeepsOrder(w: World, e: Event, ops: seq<ControlOp>, fe: Frontend)
    requires InOrder(w.t, ops, fe) && (e.Control? ==> e.op.PutConfig?)
    ensures InOrder(Next(w, e).t, ops, fe)
  {
    hide InOrder, PacketStep;
    if e.Control? {
      SameOrderKeepsOrder(w.t, Next(w, e).t, ops, fe);
    } else {
      StepKeepsOrder(w, e, ops, fe);
    }
  }

  /** The next operation of the plan. */
  lemma WriteKeepsOrder(w: World, plan: seq<ControlOp>, done: nat, fe: Frontend)
    requires done < |plan| && InOrder(w.t, plan[done..], fe)
    ensures InOrder(Next(w, Control(plan[done])).t, plan[done + 1..], fe)
  {
    hide InOrder, ApplyOp;
    assert plan[done..][0] == plan[done] && plan[done..][1..] == plan[done + 1..];
    OpKeepsOrder(w.t, plan[done..], fe);
  }

  lemma DecideKeepsOrder(applied: Entries, desired: Entries, left: Leftover, s: Tables, removed: seq<ServiceID>,
                         changed: seq<ServiceID>, fe: Frontend)
    requires IsImageOver(applied, s, left) && WellFormed(desired) && fe !in left.frontends && CursorFits(s, fe)
    requires Worklists(applied, desired, removed, changed)
    ensures Covers(applied, removed) && Covers(desired, changed) && AllInstallable(applied)
    ensures var plan := Plan(applied, desired, removed, changed);
            InOrder(s, plan[0..], fe)
  {
    WorkCovered(applied, desired, removed, changed);
    PlanKeepsCursorsInOrder(applied, desired, left, s, removed, changed, fe);
    hide IsImageOver, InOrder, Worklists, Covers, AllInstallable, WellFormed;
    var plan := Plan(applied, desired, removed, changed);
    assert plan[0..] == plan;
  }

  /**
   Every action of the cluster, the handlers, the worker and the packets keeps the cursor of every
   frontend without a leftover row.
   */
  lemma ActKeepsCursors<T(!new)>(src: Source<T>, left: Leftover, x: Watcher<T>, a: Action<T>, fe: Frontend)
    requires Sound(src) && Valid(src, left, x) && fe !in left.frontends && CursorKept(x, fe) && Enabled(src, x, a)
    ensures CursorKept(After(src, x, a), fe)
  {
    hide IsImageOver, Plan, ApplyAll, Worklists, Covers, WellFormed, Next, AllInstallable, CursorFits, InOrder,
         WillLook, Stable;
    match a
    case Decide(removed, changed) =>
      if src.derive(x.name, x.view).Some? {
        DecideKeepsOrder(x.applied, src.derive(x.name, x.view).value, left, x.world.t, removed, changed, fe);
      }
    case Write(failed) =>
      if !failed { WriteKeepsOrder(x.world, x.phase.plan, x.phase.done, fe); }
    case Finish =>
      assert x.phase.plan[x.phase.done..] == [];
      FitIsInOrder(x.world.t, fe);
    case Traffic(e) =>
      match x.phase {
        case Stopped =>
        case Applying(_, _, plan, done) => TrafficKeepsOrder(x.world, e, plan[done..], fe);
        case _ =>
          FitIsInOrder(x.world.t, fe);
          TrafficKeepsOrder(x.world, e, [], fe);
          FitIsInOrder(Next(x.world, e).t, fe);
      }
    case _ =>
  }

  lemma {:induction false} RunsKeepCursors<T(!new)>(src: Source<T>, left: Leftover, x: Watcher<T>,
                                             actions: seq<Action<T>>, y: Watcher<T>, fe: Frontend)
    requires Sound(src) && Valid(src, left, x) && fe !in left.frontends && CursorKept(x, fe)
    requires Leads(src, left, x, actions, y)
    ensures CursorKept(y, fe)
    decreases |actions|
  {
    hide Applied, After, Sound, WellFormed, WillLook, Worklists, CursorKept;
    if actions != [] {
      ActKeepsValid(src, left, x, actions[0]);
      ActKeepsCursors(src, left, x, actions[0], fe);
      RunsKeepCursors(src, left, After(src, x, actions[0]), actions[1..], y, fe);
    }
  }

  /** The frontend is either not installed or an applied entry's, and its cursor fits. */
  ghost predicate Settled<T>(x: Watcher<T>, fe: Frontend)
    requires WellFormed(x.applied)
  {
    CursorFits(x.world.t, fe) && (fe in x.world.t.services ==> exists id :: HasFrontend(x.applied, id, fe))
  }

  function Without(left: Leftover, fe: Frontend): Leftover {
    left.(frontends := left.frontends - {fe})
  }

  /** A settled frontend's row is no leftover any more. */
  lemma SettledIsClaimed<T(!new)>(src: Source<T>, left: Leftover, x: Watcher<T>, fe: Frontend)
    requires Valid(src, left, x) && Outside(x.phase) && Settled(x, fe)
    ensures Valid(src, Without(left, fe), x)
  {
    hide WillLook;
    ClaimedRows(x.applied, x.world.t, left, fe);
    hide IsImageOver, WellFormed;
  }

  lemma ClaimedRows(es: Entries, s: Tables, left: Leftover, fe: Frontend)
    requires IsImageOver(es, s, left) && (fe in s.services ==> exists id :: HasFrontend(es, id, fe))
    ensures IsImageOver(es, s, Without(left, fe))
  {
  }

  /** Leftovers are only for the record; the run is the same. */
  lemma {:induction false} LeadsWhateverIsLeft<T(!new)>(src: Source<T>, left: Leftover, left2: Leftover, x: Watcher<T>,
                                                 actions: seq<Action<T>>, y: Watcher<T>)
    requires Sound(src) && Valid(src, left, x) && Valid(src, left2, x) && Leads(src, left, x, actions, y)
    ensures Leads(src, left2, x, actions, y)
    decreases |actions|
  {
    hide Applied, After, Sound, WellFormed, WillLook, Worklists, IsImageOver;
    if actions != [] {
      ActKeepsValid(src, left, x, actions[0]);
      ActKeepsValid(src, left2, x, actions[0]);
      LeadsWhateverIsLeft(src, left, left2, After(src, x, actions[0]), actions[1..], y);
    }
  }

  /**
   Over any part of any run that begins and ends outside a reconcile, a settled frontend stays
   settled: its cursor is below its backend count.
   */
  lemma SettledStaysSettled<T(!new)>(src: Source<T>, left: Leftover, x: Watcher<T>, actions: seq<Action<T>>,
                                     y: Watcher<T>, fe: Frontend)
    requires Sound(src) && Valid(src, left, x) && Outside(x.phase) && Settled(x, fe)
    requires Leads(src, left, x, actions, y) && Outside(y.phase)
    ensures WellFormed(y.applied) && Settled(y, fe)
  {
    var rest := Without(left, fe);
    SettledIsClaimed(src, left, x, fe);
    hide Sound, Leads, CursorFits, WellFormed, BackendsMatch, WillLook;
    LeadsWhateverIsLeft(src, left, rest, x, actions, y);
    RunsStayValid(src, rest, x, actions, y);
    RunsKeepCursors(src, rest, x, actions, y, fe);
  }

  /**
   From any start, in every state of every run outside a reconcile: the stored cursor of every
   frontend that had neither a row nor a cursor at the start belongs to an applied entry and is
   below its backend count.
   */
  lemma CursorsFitOutsideReconciles<T(!new)>(src: Source<T>, x: Watcher<T>, actions: seq<Action<T>>, y: Watcher<T>,
                                             fe: Frontend)
    requires Reaches(src, x, actions, y) && Outside(y.phase)
    requires fe !in x.world.t.services && fe !in x.world.t.rr
    ensures CursorFits(y.world.t, fe)
  {
    FreshIsValid(src, x);
    hide Sound, Leads, WellFormed, BackendsMatch, WillLook;
    SettledStaysSettled(src, RowsOf(x.world.t), x, actions, y, fe);
  }

  /** After a start with empty service and cursor maps all cursors fit. */
  lemma AllCursorsFit<T(!new)>(src: Source<T>, x: Watcher<T>, actions: seq<Action<T>>, y: Watcher<T>)
    requires Reaches(src, x, actions, y) && Outside(y.phase)
    requires x.world.t.services == map[] && x.world.t.rr == map[]
    ensures CursorsFit(y.world.t)
  {
    hide Reaches;
    forall fe | fe in y.world.t.rr
      ensures fe in y.world.t.services && y.world.t.rr[fe] < y.world.t.services[fe].backendCount
    {
      CursorsFitOutsideReconciles(src, x, actions, y, fe);
    }
  }
}
