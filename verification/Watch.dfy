/**
 The watch loop (main.go): informer caches, event handlers, the bounded trigger channel and the
 debouncing worker as one state machine. No change of the cluster is lost, although triggers are
 dropped when the channel is full and a reconcile reads the three caches at different instants.
 */
module Watch {
  import opened Net
  import opened Tables
  import opened Runs
  import opened Listing
  import opened Reconciler
  import opened Rebuild
  import opened Reaper
  import opened Interleaving

  // The informer caches, in the order in which a reconcile reads them.
  const SERVICES := 0
  const NODES := 1
  const SLICES := 2
  const KINDS := 3

  // Triggers that the channel can hold.
  const CHANNEL := 256

  datatype Phase =
    | Idle
    | Debouncing
    | Reading(n: nat)
    | Applying(desired: Entries, start: Tables, plan: seq<ControlOp>, done: nat)
    | Stopped

  /**
   The cache contents, the handlers that still have to run per kind, the queued triggers, the
   worker with the cache contents it last read, the name of its node as far as it is known, the
   applied entries, and the maps with their history.
   */
  datatype Watcher<T> = Watcher(caches: seq<T>, pending: seq<nat>, queue: nat, phase: Phase, view: seq<T>,
                                name: string, applied: Entries, world: World)

  datatype Action<T> =
    | Deliver(kind: nat, content: T, sameVersion: bool)  // an informer stores a new object list
    | Handle(kind: nat)                                  // an event handler enqueues a trigger
    | Wake | Absorb | Timer                              // the worker on the channel and the debounce timer
    | Read                                               // the worker lists the next cache
    | Decide(removed: seq<ServiceID>, changed: seq<ServiceID>)
    | Write(failed: bool)                                // the next map operation
    | Finish
    | Traffic(e: Event)                                  // packets, reaps and configuration writes
    | Cancel

  /**
   How a reconcile finds the node's name, given the name so far and the caches; how name and caches
   determine the desired entries, or an error; and which service lists a cluster may have.
   */
  datatype Source<!T> = Source(resolve: (string, seq<T>) -> string, derive: (string, seq<T>) -> Option<Entries>,
                               proper: T -> bool)

  /**
   Proper service lists lead to well-formed entries, whatever the other caches hold, and a name that
   was just found leads to the same entries again.
   */
  ghost predicate Sound<T(!new)>(src: Source<T>) {
    && (forall name, caches :: |caches| == KINDS && src.proper(caches[SERVICES]) && src.derive(name, caches).Some? ==>
          WellFormed(src.derive(name, caches).value))
    && Stable(src)
  }

  ghost predicate Stable<T(!new)>(src: Source<T>) {
    forall name, caches :: src.derive(src.resolve(name, caches), caches) == src.derive(name, caches)
  }

  ghost predicate Enabled<T(!new)>(src: Source<T>, x: Watcher<T>, a: Action<T>)
    requires |x.caches| == |x.pending| == |x.view| == KINDS
  {
    match a
    case Deliver(kind, content, same) =>
      kind < KINDS && (same ==> content == x.caches[kind]) && (kind == SERVICES ==> src.proper(content))
    case Handle(kind) => kind < KINDS && x.pending[kind] > 0
    case Wake => x.phase.Idle? && x.queue > 0
    case Absorb => x.phase.Debouncing? && x.queue > 0
    case Timer => x.phase.Debouncing?
    case Read => x.phase.Reading? && x.phase.n < KINDS
    case Decide(removed, changed) =>
      && x.phase == Reading(KINDS)
      && (src.derive(x.name, x.view).Some? ==> Worklists(x.applied, src.derive(x.name, x.view).value, removed, changed))
    case Write(_) => x.phase.Applying? && x.phase.done < |x.phase.plan|
    case Finish => x.phase.Applying? && x.phase.done == |x.phase.plan|
    case Traffic(e) => e.Control? ==> e.op.PutConfig?
    case Cancel => true
  }

  /** enqueue: a trigger that meets a full channel is dropped. */
  function Enqueued(queue: nat): nat {
    if queue < CHANNEL then queue + 1 else queue
  }

  ghost function After<T(!new)>(src: Source<T>, x: Watcher<T>, a: Action<T>): Watcher<T>
    requires |x.caches| == |x.pending| == |x.view| == KINDS && Enabled(src, x, a)
    requires Sound(src) && WellFormed(x.applied) && (a.Decide? ==> src.proper(x.view[SERVICES]))
  {
    match a
    case Deliver(kind, content, same) =>
      x.(caches := x.caches[kind := content], pending := if same then x.pending
          else x.pending[kind := x.pending[kind] + 1])
    case Handle(kind) => x.(pending := x.pending[kind := x.pending[kind] - 1], queue := Enqueued(x.queue))
    case Wake => x.(queue := x.queue - 1, phase := Debouncing)
    case Absorb => x.(queue := x.queue - 1)
    case Timer => x.(phase := Reading(0))
    case Read => x.(view := x.view[x.phase.n := x.caches[x.phase.n]], phase := Reading(x.phase.n + 1))
    case Decide(removed, changed) =>
      var name := src.resolve(x.name, x.view);
      if src.derive(x.name, x.view).None? then x.(name := name, phase := Stopped)
      else
        var desired := src.derive(x.name, x.view).value;
        WorkCovered(x.applied, desired, removed, changed);
        x.(name := name, phase := Applying(desired, x.world.t, Plan(x.applied, desired, removed, changed), 0))
    case Write(failed) =>
      if failed then x.(phase := Stopped)
      else x.(world := Next(x.world, Control(x.phase.plan[x.phase.done])), phase := x.phase.(done := x.phase.done + 1))
    case Finish => x.(applied := x.phase.desired, phase := Idle)
    case Traffic(e) => x.(world := Next(x.world, e))
    case Cancel => x.(phase := Stopped)
  }

  lemma WorkCovered(applied: Entries, desired: Entries, removed: seq<ServiceID>, changed: seq<ServiceID>)
    requires WellFormed(applied) && WellFormed(desired) && Worklists(applied, desired, removed, changed)
    ensures Covers(applied, removed) && Covers(desired, changed) && AllInstallable(applied) && Filed(desired)
  {
    assert forall i :: 0 <= i < |removed| ==> removed[i] in Elements(removed);
    assert forall i :: 0 <= i < |changed| ==> changed[i] in Elements(changed);
  }

  // --- The invariant --------------------------------------------------------------------

  /**
   The worker will still read this cache before it decides, because a trigger or a handler is on its
   way or it has not come to it.
   */
  predicate WillLook<T>(x: Watcher<T>, kind: nat)
    requires |x.pending| == KINDS && kind < KINDS
  {
    x.pending[kind] > 0 || x.queue > 0 || x.phase.Debouncing? || (x.phase.Reading? && x.phase.n <= kind)
  }

  ghost predicate Applied<T(!new)>(src: Source<T>, left: Leftover, x: Watcher<T>) {
    match x.phase
    case Stopped => true
    case Applying(desired, start, plan, done) =>
      && src.derive(x.name, x.view) == Some(desired) && done <= |plan|
      && (exists removed, changed :: IsPlan(x.applied, desired, removed, changed, plan))
      && IsImageOver(x.applied, start, left) && SameRows(x.world.t, ApplyAll(start, plan[..done]))
    case Reading(n) => n <= KINDS && IsImageOver(x.applied, x.world.t, left)
    case _ => IsImageOver(x.applied, x.world.t, left) && src.derive(x.name, x.view) == Some(x.applied)
  }

  ghost predicate IsPlan(applied: Entries, desired: Entries, removed: seq<ServiceID>, changed: seq<ServiceID>,
                         plan: seq<ControlOp>) {
    && Worklists(applied, desired, removed, changed) && Covers(applied, removed) && Covers(desired, changed)
    && AllInstallable(applied) && plan == Plan(applied, desired, removed, changed)
  }

  ghost predicate Valid<T(!new)>(src: Source<T>, left: Leftover, x: Watcher<T>) {
    && |x.caches| == |x.pending| == |x.view| == KINDS && x.queue <= CHANNEL && WellFormed(x.applied)
    && (!x.phase.Stopped? ==> forall kind: nat :: kind < KINDS && !WillLook(x, kind) ==> x.view[kind] == x.caches[kind])
    && src.proper(x.caches[SERVICES]) && (!x.phase.Stopped? && x.phase != Reading(0) ==> src.proper(x.view[SERVICES]))
    && Applied(src, left, x)
  }

  /**
   The start of the first reconcile: synced caches, handlers and triggers in any number, nothing
   applied, and whatever rows an earlier process left in the pinned maps.
   */
  ghost predicate Fresh<T(!new)>(src: Source<T>, x: Watcher<T>) {
    && |x.caches| == |x.pending| == |x.view| == KINDS && x.queue <= CHANNEL
    && src.proper(x.caches[SERVICES]) && x.phase == Reading(0) && x.applied == map[]
  }

  lemma FreshIsValid<T(!new)>(src: Source<T>, x: Watcher<T>)
    requires Fresh(src, x)
    ensures Valid(src, RowsOf(x.world.t), x)
  {
    NothingIsImage(x.world.t, RowsOf(x.world.t));
  }

  lemma TrafficKeepsRows(w: World, e: Event)
    requires e.Control? ==> e.op.PutConfig?
    ensures SameRows(w.t, Next(w, e).t)
  {
    if !e.Control? { StepKeepsRows(w, e); }
    hide PacketStep, StaleCt, StaleFwd;
  }

  lemma RowsFollowOp(s: Tables, r: Tables, op: ControlOp)
    requires SameRows(s, r)
    ensures SameRows(ApplyOp(s, op), ApplyOp(r, op))
  {
  }

  /** Another map operation of the plan. */
  lemma WriteKeepsApplied(start: Tables, s: Tables, plan: seq<ControlOp>, done: nat)
    requires done < |plan| && SameRows(s, ApplyAll(start, plan[..done]))
    ensures SameRows(ApplyOp(s, plan[done]), ApplyAll(start, plan[..done + 1]))
  {
    assert plan[..done + 1] == plan[..done] + [plan[done]];
    ApplyOneMore(start, plan[..done], plan[done]);
    RowsFollowOp(s, ApplyAll(start, plan[..done]), plan[done]);
  }

  /** A finished plan has reached the image of the desired entries. */
  lemma FinishReachesImage<T(!new)>(src: Source<T>, left: Leftover, x: Watcher<T>)
    requires Sound(src) && Valid(src, left, x) && x.phase.Applying? && x.phase.done == |x.phase.plan|
    ensures IsImageOver(x.phase.desired, x.world.t, left)
  {
    var p := x.phase;
    var removed, changed :| IsPlan(x.applied, p.desired, removed, changed, p.plan);
    assert p.plan[..p.done] == p.plan;
    hide IsImageOver, Plan, ApplyAll, Worklists, Covers;
    WorkCovered(x.applied, p.desired, removed, changed);
    PlanReachesDesired(x.applied, p.desired, p.start, removed, changed, left);
    RowsDecideImage(p.desired, ApplyAll(p.start, p.plan), x.world.t, left);
  }

  lemma ActKeepsApplied<T(!new)>(src: Source<T>, left: Leftover, x: Watcher<T>, a: Action<T>)
    requires Sound(src) && Valid(src, left, x) && Enabled(src, x, a)
    ensures Applied(src, left, After(src, x, a)) && WellFormed(After(src, x, a).applied)
  {
    hide IsImageOver, Plan, ApplyAll, Worklists, Covers, WellFormed, Next, AllInstallable;
    var y := After(src, x, a);
    match a
    case Decide(removed, changed) =>
      if src.derive(x.name, x.view).Some? {
        var desired := src.derive(x.name, x.view).value;
        WorkCovered(x.applied, desired, removed, changed);
        assert IsPlan(x.applied, desired, removed, changed, y.phase.plan);
        NothingDone(x.world.t, y.phase.plan);
      }
    case Write(failed) =>
      if !failed { ControlApplies(x.world, x.phase.plan[x.phase.done]);
          WriteKeepsApplied(x.phase.start, x.world.t, x.phase.plan, x.phase.done); }
    case Finish => FinishReachesImage(src, left, x);
    case Traffic(e) =>
      TrafficKeepsRows(x.world, e);
      if x.phase.Idle? || x.phase.Debouncing? || x.phase.Reading? { RowsDecideImage(x.applied, x.world.t, y.world.t,
          left); }
    case _ =>
  }

  lemma NothingDone(s: Tables, plan: seq<ControlOp>)
    ensures SameRows(s, ApplyAll(s, plan[..0]))
  {
  }

  lemma ControlApplies(w: World, op: ControlOp)
    ensures Next(w, Control(op)).t == ApplyOp(w.t, op)
  {
  }

  lemma ActKeepsLooking<T(!new)>(src: Source<T>, left: Leftover, x: Watcher<T>, a: Action<T>, kind: nat)
    requires Sound(src) && Valid(src, left, x) && Enabled(src, x, a) && kind < KINDS
    requires !After(src, x, a).phase.Stopped? && !WillLook(After(src, x, a), kind)
    ensures After(src, x, a).view[kind] == After(src, x, a).caches[kind]
  {
    hide IsImageOver, Plan, Worklists, Covers, WellFormed, Next, AllInstallable, Sound;
    assert !WillLook(x, kind) ==> x.view[kind] == x.caches[kind];
    hide Applied;
  }

  /** Every action of the cluster, the handlers, the worker and the packets keeps the invariant. */
  lemma ActKeepsValid<T(!new)>(src: Source<T>, left: Leftover, x: Watcher<T>, a: Action<T>)
    requires Sound(src) && Valid(src, left, x) && Enabled(src, x, a)
    ensures Valid(src, left, After(src, x, a))
  {
    ActKeepsApplied(src, left, x, a);
    ActKeepsProper(src, left, x, a);
    var y := After(src, x, a);
    forall kind: nat | kind < KINDS && !y.phase.Stopped? && !WillLook(y, kind) ensures y.view[kind] == y.caches[kind] {
      ActKeepsLooking(src, left, x, a, kind);
    }
    hide *;
  }

  lemma ActKeepsProper<T(!new)>(src: Source<T>, left: Leftover, x: Watcher<T>, a: Action<T>)
    requires Sound(src) && Valid(src, left, x) && Enabled(src, x, a)
    ensures var y := After(src, x, a);
            && |y.caches| == |y.pending| == |y.view| == KINDS && y.queue <= CHANNEL
            && src.proper(y.caches[SERVICES]) && (!y.phase.Stopped? && y.phase != Reading(0) ==>
                src.proper(y.view[SERVICES]))
  {
    hide IsImageOver, Plan, Worklists, WellFormed, Next, Sound, ApplyAll, WillLook, Covers, AllInstallable;
  }

  // --- Runs -----------------------------------------------------------------------------

  /** y is reached from x by the actions, each enabled in its turn. */
  ghost predicate Leads<T(!new)>(src: Source<T>, left: Leftover, x: Watcher<T>, actions: seq<Action<T>>, y: Watcher<T>)
    requires Sound(src) && Valid(src, left, x)
    decreases |actions|
  {
    if actions == [] then x == y
    else
      && Enabled(src, x, actions[0])
      && (ActKeepsValid(src, left, x, actions[0]); Leads(src, left, After(src, x, actions[0]), actions[1..], y))
  }

  lemma {:induction false} RunsStayValid<T(!new)>(src: Source<T>, left: Leftover, x: Watcher<T>,
                                           actions: seq<Action<T>>, y: Watcher<T>)
    requires Sound(src) && Valid(src, left, x) && Leads(src, left, x, actions, y)
    ensures Valid(src, left, y)
    decreases |actions|
  {
    hide Applied, After, Sound, WellFormed, WillLook, Worklists;
    if actions != [] {
      ActKeepsValid(src, left, x, actions[0]);
      RunsStayValid(src, left, After(src, x, actions[0]), actions[1..], y);
    }
  }

  /** A known node name is not guessed again. */
  ghost predicate Keeps<T(!new)>(src: Source<T>) {
    forall name, caches :: name != "" ==> src.resolve(name, caches) == name
  }

  lemma {:induction false} NameStays<T(!new)>(src: Source<T>, left: Leftover, x: Watcher<T>, actions: seq<Action<T>>,
                                       y: Watcher<T>)
    requires Sound(src) && Keeps(src) && Valid(src, left, x) && Leads(src, left, x, actions, y) && x.name != ""
    ensures y.name == x.name
    decreases |actions|
  {
    hide Applied, Sound, Stable, WellFormed, WillLook, Worklists, IsImageOver;
    if actions != [] {
      ActKeepsValid(src, left, x, actions[0]);
      NameStays(src, left, After(src, x, actions[0]), actions[1..], y);
    }
  }

  /** No handler outstanding, no trigger queued, the worker waiting. */
  ghost predicate Quiescent<T>(x: Watcher<T>) {
    x.phase.Idle? && x.queue == 0 && forall kind: nat :: kind < |x.pending| ==> x.pending[kind] == 0
  }

  /** The actions lead from the start x to y. */
  ghost predicate Reaches<T(!new)>(src: Source<T>, x: Watcher<T>, actions: seq<Action<T>>, y: Watcher<T>) {
    Sound(src) && Fresh(src, x) && (FreshIsValid(src, x); Leads(src, RowsOf(x.world.t), x, actions, y))
  }

  /**
   No lost wakeup: in every quiescent state of every run the applied entries are those of the
   current caches, every row of theirs is in the service and backend maps, and any other row was
   there before the start. From empty maps these hold exactly the image of the entries.
   */
  lemma QuiescentMeansSynced<T(!new)>(src: Source<T>, x: Watcher<T>, actions: seq<Action<T>>, y: Watcher<T>)
    requires Reaches(src, x, actions, y) && Quiescent(y)
    ensures src.derive(y.name, y.caches) == Some(y.applied) && IsImageOver(y.applied, y.world.t, RowsOf(x.world.t))
    ensures x.world.t.services == map[] && x.world.t.backends == map[] ==> IsImage(y.applied, y.world.t)
  {
    hide IsImageOver, WellFormed, Sound, Leads, Fresh, Valid, Quiescent;
    FreshIsValid(src, x);
    RunsStayValid(src, RowsOf(x.world.t), x, actions, y);
    QuiescentIsSynced(src, RowsOf(x.world.t), y);
    assert x.world.t.services == map[] && x.world.t.backends == map[] ==> RowsOf(x.world.t) == NOTHING_LEFT;
  }

  lemma QuiescentIsSynced<T(!new)>(src: Source<T>, left: Leftover, y: Watcher<T>)
    requires Valid(src, left, y) && Quiescent(y)
    ensures src.derive(y.name, y.caches) == Some(y.applied) && IsImageOver(y.applied, y.world.t, left)
  {
    hide IsImageOver, WellFormed;
    assert y.view == y.caches;
  }

  // --- Getting quiescent ------------------------------------------------------------------

  /** Actions of the handlers and the worker; the cluster and the packets are outside. */
  predicate Internal<T>(a: Action<T>) {
    !a.Deliver? && !a.Traffic? && !a.Cancel?
  }

  function Rank(p: Phase): nat {
    match p
    case Debouncing => 6
    case Reading(n) => if n <= KINDS then 5 - n else 0
    case Applying(_, _, _, _) => 1
    case Idle => 0
    case Stopped => 0
  }

  function Remaining(p: Phase): int {
    if p.Applying? then |p.plan| - p.done else 0
  }

  function Outstanding<T>(x: Watcher<T>): nat
    requires |x.pending| == KINDS
  {
    x.pending[SERVICES] + x.pending[NODES] + x.pending[SLICES]
  }

  /**
   Lexicographically smaller: fewer outstanding handlers, then fewer triggers, then a later phase, then
   fewer operations left.
   */
  ghost predicate Closer<T>(y: Watcher<T>, x: Watcher<T>)
    requires |x.pending| == |y.pending| == KINDS
  {
    || Outstanding(y) < Outstanding(x)
    || (Outstanding(y) == Outstanding(x) && y.queue < x.queue)
    || (Outstanding(y) == Outstanding(x) && y.queue == x.queue && Rank(y.phase) < Rank(x.phase))
    || (Outstanding(y) == Outstanding(x) && y.queue == x.queue && Rank(y.phase) == Rank(x.phase) &&
        0 <= Remaining(y.phase) < Remaining(x.phase))
  }

  /** Left to itself the loop cannot go on forever: every internal action brings it closer to rest. */
  lemma InternalActionsDescend<T(!new)>(src: Source<T>, left: Leftover, x: Watcher<T>, a: Action<T>)
    requires Sound(src) && Valid(src, left, x) && Enabled(src, x, a) && Internal(a)
    ensures |After(src, x, a).pending| == KINDS && Closer(After(src, x, a), x)
  {
    hide IsImageOver, Plan, Worklists, WellFormed, Next, Sound, ApplyAll;
  }

  /** And it rests only when quiescent or stopped. */
  lemma RestMeansQuiescent<T(!new)>(src: Source<T>, left: Leftover, x: Watcher<T>)
    requires Sound(src) && Valid(src, left, x) && forall a :: Internal(a) ==> !Enabled(src, x, a)
    ensures Quiescent(x) || x.phase.Stopped?
  {
    hide IsImageOver, Plan, Worklists, WellFormed, Sound, ApplyAll, WillLook, IsPlan;
    assert !Enabled(src, x, Handle(SERVICES)) && !Enabled(src, x, Handle(NODES)) && !Enabled(src, x, Handle(SLICES));
    assert !Enabled(src, x, Wake) && !Enabled(src, x, Timer) && !Enabled(src, x, Read);
    assert !Enabled(src, x, Write(false)) && !Enabled(src, x, Finish);
    var removed, changed := DecisionExists(src, x);
    assert !Enabled(src, x, Decide(removed, changed));
  }

  lemma DecisionExists<T(!new)>(src: Source<T>, x: Watcher<T>) returns (removed: seq<ServiceID>,
                         changed: seq<ServiceID>)
    ensures var desired := src.derive(x.name, x.view);
            desired.Some? ==> Worklists(x.applied, desired.value, removed, changed)
  {
    removed, changed := [], [];
    if src.derive(x.name, x.view).Some? {
      removed := SomeListing(RemovedIds(x.applied, src.derive(x.name, x.view).value));
      changed := SomeListing(ChangedIds(x.applied, src.derive(x.name, x.view).value));
    }
  }

  lemma {:induction false} SomeListing<T>(s: set<T>) returns (xs: seq<T>)
    ensures Lists(xs, s)
  {
    if s == {} {
      xs := [];
    } else {
      var x :| x in s;
      var rest := SomeListing(s - {x});
      xs := rest + [x];
      ListsAppend(rest, s - {x}, x);
      assert s - {x} + {x} == s;
    }
  }

  /**
   Convergence: once the cluster stands still, handlers and worker on their own reach a state where
   the maps are the image of what the caches say, apart from rows of an earlier process, or the
   worker has stopped on an error.
   */
  lemma {:induction false} StandstillConverges<T(!new)>(src: Source<T>, left: Leftover, x: Watcher<T>)
    returns (actions: seq<Action<T>>, y: Watcher<T>)
    requires Sound(src) && Valid(src, left, x)
    ensures Leads(src, left, x, actions, y) && (forall i :: 0 <= i < |actions| ==> Internal(actions[i]))
    ensures y.caches == x.caches
    ensures y.phase.Stopped? || (Quiescent(y) && src.derive(y.name, x.caches) == Some(y.applied) &&
            IsImageOver(y.applied, y.world.t, left))
    decreases Outstanding(x), x.queue, Rank(x.phase), if Remaining(x.phase) < 0 then 0 else Remaining(x.phase)
  {
    if a :| Internal(a) && Enabled(src, x, a) {
      InternalActionsDescend(src, left, x, a);
      ActKeepsValid(src, left, x, a);
      var z := After(src, x, a);
      assert z.caches == x.caches;
      var rest;
      rest, y := StandstillConverges(src, left, z);
      actions := [a] + rest;
      assert actions[1..] == rest;
    } else {
      actions, y := [], x;
      RestMeansQuiescent(src, left, x);
      if Quiescent(x) { assert x.view == x.caches; }
    }
  }
}
