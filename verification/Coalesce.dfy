/** The coalescer: items queued within a delay are handed to one flush, and none is lost or reordered. */
module Coalesce {
  import opened Wrappers

  /** The identity of an event loop. */
  type Loop = nat

  // --- specification ---------------------------------------------------------------------------------------

  /** What went through the coalescer since its last change of loop. */
  datatype Epoch<T> = Epoch(added: seq<T>, flushed: seq<seq<T>>)

  /** An epoch a change of loop has ended, with the items that were queued then. */
  datatype Ended<T> = Ended(epoch: Epoch<T>, lost: seq<T>)

  /** `waiting` counts the drains of the current loop that have not taken their items yet. */
  datatype State<T> = State(items: seq<T>, task: Option<Loop>, waiting: nat, epoch: Epoch<T>, ended: seq<Ended<T>>)

  datatype Step<T> = Add(loop: Loop, added: seq<T>) | Drain

  function Start<T>(): State<T> {
    State([], None, 0, Epoch([], []), [])
  }

  predicate ChangesLoop<T>(s: State<T>, loop: Loop) {
    s.task.Some? && s.task.value != loop
  }

  function Moved<T>(s: State<T>): State<T> {
    State([], None, 0, Epoch([], []), s.ended + [Ended(s.epoch, s.items)])
  }

  function Queued<T>(s: State<T>, loop: Loop, added: seq<T>): State<T> {
    s.(items := s.items + added,
       task := if s.task.None? then Some(loop) else s.task,
       waiting := if s.task.None? then s.waiting + 1 else s.waiting,
       epoch := s.epoch.(added := s.epoch.added + added))
  }

  function AfterAdd<T>(s: State<T>, loop: Loop, added: seq<T>): State<T> {
    Queued(if ChangesLoop(s, loop) then Moved(s) else s, loop, added)
  }

  function AfterDrain<T>(s: State<T>): State<T>
    requires s.waiting > 0
  {
    s.(items := [], task := None, waiting := s.waiting - 1,
       epoch := s.epoch.(flushed := s.epoch.flushed + [s.items]))
  }

  function Concat<T>(batches: seq<seq<T>>): seq<T> {
    if batches == [] then [] else Concat(batches[..|batches| - 1]) + batches[|batches| - 1]
  }

  ghost predicate Inv<T(!new)>(s: State<T>) {
    && Concat(s.epoch.flushed) + s.items == s.epoch.added
    && (s.task.None? ==> s.items == [])
    && s.waiting == (if s.task.Some? then 1 else 0)
    && (forall i | 0 <= i < |s.ended| ::
          Concat(s.ended[i].epoch.flushed) + s.ended[i].lost == s.ended[i].epoch.added)
  }

  // --- the coalescer ---------------------------------------------------------------------------------------

  class Coalescer<T(!new)> {
    var items: seq<T>
    var task: Option<Loop>
    ghost var state: State<T>

    ghost predicate Valid()
      reads this
    {
      state.items == items && state.task == task && Inv(state)
    }

    constructor ()
      ensures Valid() && state == Start()
    {
      items, task := [], None;
      state := Start();
    }

    method Add(loop: Loop, added: seq<T>)
      requires Valid()
      modifies this
      ensures Valid() && state == AfterAdd(old(state), loop, added)
    {
      AddKeeps(state, loop, added);
      if task.Some? && task.value != loop {
        items, task := [], None;
      }
      items := items + added;
      if task.None? {
        task := Some(loop);
      }
      state := AfterAdd(state, loop, added);
    }

    /** `_take`. */
    method Take() returns (batch: seq<T>)
      modifies `items, `task
      ensures batch == old(items) && items == [] && task.None?
    {
      batch := items;
      items, task := [], None;
    }

    /** A waiting drain takes its items for its flush, woken by the delay or by its cancellation: either way it
        flushes exactly what it holds. */
    method Drain() returns (batch: seq<T>)
      requires Valid() && state.waiting > 0
      modifies this
      ensures Valid() && state == AfterDrain(old(state)) && batch == old(items)
    {
      DrainKeeps(state);
      batch := Take();
      state := AfterDrain(state);
    }
  }

  // --- conservation ----------------------------------------------------------------------------------------

  lemma AddKeeps<T(!new)>(s: State<T>, loop: Loop, added: seq<T>)
    requires Inv(s)
    ensures Inv(AfterAdd(s, loop, added))
  {
    var moved := if ChangesLoop(s, loop) then Moved(s) else s;
    assert Inv(moved);
    assert Concat(moved.epoch.flushed) + (moved.items + added) == (Concat(moved.epoch.flushed) + moved.items) + added;
  }

  lemma DrainKeeps<T(!new)>(s: State<T>)
    requires Inv(s) && s.waiting > 0
    ensures Inv(AfterDrain(s))
  {
    assert (s.epoch.flushed + [s.items])[..|s.epoch.flushed|] == s.epoch.flushed;
    assert Concat(s.epoch.flushed + [s.items]) + [] == s.epoch.added;
  }

  ghost predicate IsRun<T>(s: State<T>, steps: seq<Step<T>>)
    decreases |steps|
  {
    steps == [] || ((steps[0].Drain? ==> s.waiting > 0) && IsRun(Apply(s, steps[0]), steps[1..]))
  }

  function Apply<T>(s: State<T>, step: Step<T>): State<T> {
    match step
    case Add(loop, added) => AfterAdd(s, loop, added)
    case Drain => if s.waiting > 0 then AfterDrain(s) else s
  }

  ghost function After<T>(s: State<T>, steps: seq<Step<T>>): State<T>
    decreases |steps|
  {
    if steps == [] then s else After(Apply(s, steps[0]), steps[1..])
  }

  function AddedBy<T>(step: Step<T>): seq<T> {
    if step.Add? then step.added else []
  }

  function Added<T>(steps: seq<Step<T>>): seq<T> {
    if steps == [] then [] else AddedBy(steps[0]) + Added(steps[1..])
  }

  /** Everything ever added, epoch by epoch. */
  function Archive<T>(ended: seq<Ended<T>>): seq<T> {
    if ended == [] then [] else Archive(ended[..|ended| - 1]) + ended[|ended| - 1].epoch.added
  }

  function Everything<T>(s: State<T>): seq<T> {
    Archive(s.ended) + s.epoch.added
  }

  lemma StepRecords<T>(s: State<T>, step: Step<T>)
    ensures Everything(Apply(s, step)) == Everything(s) + AddedBy(step)
  {
    if step.Add? && ChangesLoop(s, step.loop) {
      var e := Ended(s.epoch, s.items);
      assert (s.ended + [e])[..|s.ended|] == s.ended;
      assert Everything(Moved(s)) == Everything(s);
    }
  }

  /** Any run, over any number of loops: the items added, in order, are those of the epochs one after the other;
      within an epoch they are the flushed batches in the order they were taken, then the items a change of loop
      dropped or, in the current epoch, the queue.  So nothing is flushed twice, out of order, or after a change
      of loop that came after it was added.  At most one drain waits, and none only if the queue is empty. */
  lemma {:induction false} RunConserves<T(!new)>(s: State<T>, steps: seq<Step<T>>)
    requires Inv(s) && IsRun(s, steps)
    ensures var t := After(s, steps);
      && Everything(t) == Everything(s) + Added(steps)
      && Concat(t.epoch.flushed) + t.items == t.epoch.added
      && (forall i | 0 <= i < |t.ended| :: Concat(t.ended[i].epoch.flushed) + t.ended[i].lost == t.ended[i].epoch.added)
      && t.waiting <= 1
      && (t.waiting == 0 <==> t.task.None?) && (t.task.None? ==> t.items == [])
    decreases |steps|
  {
    if steps == [] {
      assert Everything(s) + [] == Everything(s);
    } else {
      var step := steps[0];
      match step {
        case Add(loop, added) => AddKeeps(s, loop, added);
        case Drain => DrainKeeps(s);
      }
      StepRecords(s, step);
      RunConserves(Apply(s, step), steps[1..]);
      assert (Everything(s) + AddedBy(step)) + Added(steps[1..]) == Everything(s) + (AddedBy(step) + Added(steps[1..]));
    }
  }

  /** An addition on another loop than the waiting drain's, and nothing else, ends the epoch: what was queued is
      dropped with it and the queue holds just the new items, for a drain of the new loop. */
  lemma EpochEndsIff<T>(s: State<T>, step: Step<T>)
    requires step.Drain? ==> s.waiting > 0
    ensures var t := Apply(s, step);
      var another := step.Add? && s.task.Some? && s.task.value != step.loop;
      && t.ended == (if another then s.ended + [Ended(s.epoch, s.items)] else s.ended)
      && (another ==> t.items == step.added && t.epoch == Epoch(step.added, []) && t.waiting == 1)
      && (step.Add? ==> t.task == Some(step.loop))
      && (step.Add? && !another ==> t.items == s.items + step.added && t.epoch.flushed == s.epoch.flushed)
      && (step.Drain? ==> t.items == [] && t.task.None? && t.epoch == Epoch(s.epoch.added, s.epoch.flushed + [s.items]))
  {
    if step.Add? {
      assert [] + step.added == step.added;
    }
  }

  ghost predicate OnLoop<T>(steps: seq<Step<T>>, loop: Loop) {
    forall i | 0 <= i < |steps| && steps[i].Add? :: steps[i].loop == loop
  }

  lemma {:induction false} OneLoopEndsNoEpoch<T>(s: State<T>, steps: seq<Step<T>>, loop: Loop)
    requires OnLoop(steps, loop) && (s.task.Some? ==> s.task.value == loop)
    ensures After(s, steps).ended == s.ended
    decreases |steps|
  {
    if steps != [] {
      OneLoopEndsNoEpoch(Apply(s, steps[0]), steps[1..], loop);
    }
  }

  /** On one loop nothing is dropped: the flushed batches followed by the queue are exactly what was added. */
  lemma OneLoopConserves<T(!new)>(steps: seq<Step<T>>, loop: Loop)
    requires IsRun(Start(), steps) && OnLoop(steps, loop)
    ensures var t := After(Start(), steps); Concat(t.epoch.flushed) + t.items == Added(steps)
  {
    RunConserves(Start(), steps);
    OneLoopEndsNoEpoch(Start(), steps, loop);
    var t := After(Start(), steps);
    assert Everything(t) == t.epoch.added;
    assert [] + Added(steps) == Added(steps);
  }
}
