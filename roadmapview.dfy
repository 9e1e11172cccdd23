/** The decisions of components/Roadmap.tsx: which task is next and which phase opens, when
    the roadmap counts as finished, the accordion, the confirmation asked before an item is
    completed, the confirmation of resets, and the per-phase counters. The callbacks the
    view receives are recorded as the actions it dispatches. */
module RoadmapView {

  import opened Options
  import opened Types

  /** `items.find(item => item.status === 'pending')`, as an index (-1 when none). */
  function FirstPendingIndex(items: seq<Item>): (k: int)
    ensures -1 <= k < |items|
    ensures k >= 0 ==> items[k].status == Pending && forall h :: 0 <= h < k ==> items[h].status != Pending
    ensures k == -1 ==> forall h :: 0 <= h < |items| ==> items[h].status != Pending
  {
    if items == [] then -1
    else if items[0].status == Pending then 0
    else
      var k := FirstPendingIndex(items[1..]);
      if k < 0 then -1 else k + 1
  }

  /** The task shown as next, with the index of its phase. */
  datatype NextTask = NextTask(item: Item, phaseIndex: int)

  /** The first pending item of the lowest-index phase that has one, searching phases from
      `from` on. */
  function NextTaskFrom(r: Roadmap, from: nat): (t: Option<NextTask>)
    requires from <= |r|
    decreases |r| - from
  {
    if from == |r| then None
    else
      var k := FirstPendingIndex(r[from].items);
      if k >= 0 then Some(NextTask(r[from].items[k], from)) else NextTaskFrom(r, from + 1)
  }

  function NextTaskOf(r: Roadmap): Option<NextTask> {
    NextTaskFrom(r, 0)
  }

  predicate NoPendingIn(r: Roadmap, lo: int, hi: int)
    requires 0 <= lo <= hi <= |r|
  {
    forall j, k :: lo <= j < hi && 0 <= k < |r[j].items| ==> r[j].items[k].status != Pending
  }

  /** The next task is the first pending item of the first phase with a pending item, and
      there is one exactly when some item is pending. */
  lemma {:induction false} NextTaskFromSpec(r: Roadmap, from: nat)
    requires from <= |r|
    ensures var t := NextTaskFrom(r, from);
      && (t.None? <==> NoPendingIn(r, from, |r|))
      && (t.Some? ==>
            && from <= t.value.phaseIndex < |r|
            && NoPendingIn(r, from, t.value.phaseIndex)
            && FirstPendingIndex(r[t.value.phaseIndex].items) >= 0
            && t.value.item == r[t.value.phaseIndex].items[FirstPendingIndex(r[t.value.phaseIndex].items)])
    decreases |r| - from
  {
    if from < |r| {
      NextTaskFromSpec(r, from + 1);
      var k := FirstPendingIndex(r[from].items);
      if k < 0 {
        var t := NextTaskFrom(r, from + 1);
        if t.Some? {
          assert NoPendingIn(r, from, t.value.phaseIndex) by {
            forall j, h | from <= j < t.value.phaseIndex && 0 <= h < |r[j].items|
              ensures r[j].items[h].status != Pending
            {
              if j > from { assert NoPendingIn(r, from + 1, t.value.phaseIndex); }
            }
          }
        } else {
          assert NoPendingIn(r, from, |r|) by {
            forall j, h | from <= j < |r| && 0 <= h < |r[j].items|
              ensures r[j].items[h].status != Pending
            {
              if j > from { assert NoPendingIn(r, from + 1, |r|); }
            }
          }
        }
      }
    }
  }

  /** The next task exists exactly when the pending count is positive. */
  lemma NextTaskIffPending(r: Roadmap)
    ensures NextTaskOf(r).Some? <==> TotalStatus(r, Pending) > 0
  {
    NextTaskFromSpec(r, 0);
    TotalStatusNone(r, Pending);
  }

  /** The counters the effect keeps while scanning the phases. */
  datatype Scan = Scan(foundNext: bool, next: Option<NextTask>, activePhaseIndex: int, totalPending: nat)

  /** The `for` loop of the effect: the first pending item found fixes the next task and
      the active phase; the pending items of every phase are counted. */
  method ScanRoadmap(r: Roadmap) returns (s: Scan)
    ensures s.foundNext <==> NextTaskOf(r).Some?
    ensures s.foundNext ==> s.next == NextTaskOf(r) && s.activePhaseIndex == NextTaskOf(r).value.phaseIndex
    ensures !s.foundNext ==> s.next.None? && s.activePhaseIndex == 0
    ensures s.totalPending == TotalStatus(r, Pending)
  {
    var foundNext := false;
    var next: Option<NextTask> := None;
    var activePhaseIndex := 0;
    var totalPending := 0;
    var i := 0;
    while i < |r|
      invariant 0 <= i <= |r|
      invariant totalPending == TotalStatus(r[..i], Pending)
      invariant foundNext ==> next == NextTaskOf(r) && next.Some? && activePhaseIndex == next.value.phaseIndex
      invariant !foundNext ==> next.None? && activePhaseIndex == 0 && NextTaskOf(r) == NextTaskFrom(r, i)
    {
      var phase := r[i];
      var firstPending := FirstPendingIndex(phase.items);
      totalPending := totalPending + CountStatus(phase.items, Pending);
      if firstPending >= 0 {
        if !foundNext {
          next := Some(NextTask(phase.items[firstPending], i));
          activePhaseIndex := i;
          foundNext := true;
        }
      }
      assert r[..i + 1][..i] == r[..i];
      i := i + 1;
    }
    assert r[..i] == r;
    s := Scan(foundNext, next, activePhaseIndex, totalPending);
  }

  /** The phase the effect opens: the last one when nothing is pending, otherwise the phase
      of the next task (0 for an empty roadmap). */
  function ActivePhase(r: Roadmap): (k: int)
    ensures |r| > 0 ==> 0 <= k < |r|
    ensures TotalStatus(r, Pending) == 0 && |r| > 0 ==> k == |r| - 1
    ensures TotalStatus(r, Pending) > 0 ==> NextTaskOf(r).Some? && k == NextTaskOf(r).value.phaseIndex
    ensures |r| == 0 ==> k == 0
  {
    NextTaskIffPending(r);
    NextTaskFromSpec(r, 0);
    if TotalStatus(r, Pending) == 0 && |r| > 0 then |r| - 1
    else if NextTaskOf(r).Some? then NextTaskOf(r).value.phaseIndex
    else 0
  }

  /** `isCompleted`: nothing is pending (in-progress items count as done here) and the
      roadmap is not empty. */
  predicate Finished(r: Roadmap) {
    TotalStatus(r, Pending) == 0 && |r| > 0
  }

  lemma FinishedIff(r: Roadmap)
    ensures Finished(r) <==>
            |r| > 0 && forall j, k :: 0 <= j < |r| && 0 <= k < |r[j].items| ==> r[j].items[k].status != Pending
    ensures |r| > 0 && AllCompleted(r) ==> Finished(r)
  {
    TotalStatusNone(r, Pending);
  }

  /** `togglePhase`: the open phase closes, any other opens. */
  function ToggleExpanded(expanded: Option<int>, i: int): (e: Option<int>)
    ensures e.None? <==> expanded == Some(i)
    ensures e.Some? ==> e.value == i
  {
    if expanded == Some(i) then None else Some(i)
  }

  /** Clicking the same header twice restores the accordion when that phase was open or
      nothing was; with another phase open, it leaves every phase closed. */
  lemma ToggleExpandedTwice(expanded: Option<int>, i: int)
    ensures expanded.None? || expanded == Some(i) ==> ToggleExpanded(ToggleExpanded(expanded, i), i) == expanded
    ensures expanded.Some? && expanded != Some(i) ==> ToggleExpanded(ToggleExpanded(expanded, i), i) == None
  {
  }

  /** `completedCount === totalCount`. */
  predicate IsPhaseDone(p: Phase) {
    CountStatus(p.items, Completed) == |p.items|
  }

  /** `completedCount > 0`. */
  predicate IsPhaseStarted(p: Phase) {
    CountStatus(p.items, Completed) > 0
  }

  /** A phase is shown as done exactly when all its items are completed, so an empty phase
      is done; it is started exactly when some item is completed. */
  lemma PhaseCounters(p: Phase)
    ensures IsPhaseDone(p) <==> PhaseCompleted(p)
    ensures p.items == [] ==> IsPhaseDone(p) && !IsPhaseStarted(p)
    ensures IsPhaseStarted(p) <==> exists k :: 0 <= k < |p.items| && p.items[k].status == Completed
  {
    CountStatusAll(p.items, Completed);
    CountStatusNone(p.items, Completed);
  }

  /** What the view asks its parent to do. */
  datatype Action = UpdateProgress(itemId: string) | ResetRoadmap | ResetPhaseAction(index: int)

  /** A recorded reset request. */
  datatype ResetIntent = AllIntent | PhaseIntent(index: int)

  /** The view's own state, and the actions dispatched so far. */
  class Accordion {
    var expandedPhase: Option<int>
    var nextTask: Option<NextTask>
    var isCompleted: bool
    var itemToConfirm: Option<Item>
    var resetIntent: Option<ResetIntent>
    var dispatched: seq<Action>

    constructor()
      ensures expandedPhase == Some(0) && nextTask.None? && !isCompleted
      ensures itemToConfirm.None? && resetIntent.None? && dispatched == []
    {
      expandedPhase := Some(0);
      nextTask := None;
      isCompleted := false;
      itemToConfirm := None;
      resetIntent := None;
      dispatched := [];
    }

    /** The effect run when the roadmap or the loading flag changes. With nothing pending
        in a non-empty roadmap the last phase opens and there is no next task; an empty
        roadmap leaves the next task as it was. */
    method Refresh(roadmap: Option<Roadmap>, isLoading: bool)
      modifies this`expandedPhase, this`nextTask, this`isCompleted
      ensures roadmap.None? || isLoading ==>
        expandedPhase == old(expandedPhase) && nextTask == old(nextTask) && isCompleted == old(isCompleted)
      ensures roadmap.Some? && !isLoading ==>
        && expandedPhase == Some(ActivePhase(roadmap.value))
        && isCompleted == Finished(roadmap.value)
        && (|roadmap.value| > 0 ==> nextTask == NextTaskOf(roadmap.value))
        && (|roadmap.value| == 0 ==> nextTask == old(nextTask))
    {
      if roadmap.None? || isLoading {
        return;
      }
      var r := roadmap.value;
      var s := ScanRoadmap(r);
      NextTaskIffPending(r);
      var activePhaseIndex := s.activePhaseIndex;
      if s.foundNext {
        nextTask := s.next;
      }
      if s.totalPending == 0 && |r| > 0 {
        activePhaseIndex := |r| - 1;
        nextTask := None;
        isCompleted := true;
      } else if s.totalPending > 0 && !s.foundNext {
        // The scan finds a pending item whenever it counts one, so this branch is dead.
        assert false;
      } else {
        isCompleted := false;
      }
      expandedPhase := Some(activePhaseIndex);
    }

    /** `togglePhase`. */
    method TogglePhase(index: int)
      modifies this`expandedPhase
      ensures expandedPhase == ToggleExpanded(old(expandedPhase), index)
    {
      expandedPhase := if expandedPhase == Some(index) then None else Some(index);
    }

    /** `handleTaskClick`: a pending item waits for confirmation; any other item is
        toggled at once. */
    method TaskClick(item: Item)
      modifies this`itemToConfirm, this`dispatched
      ensures item.status == Pending ==> itemToConfirm == Some(item) && dispatched == old(dispatched)
      ensures item.status != Pending ==>
        itemToConfirm == old(itemToConfirm) && dispatched == old(dispatched) + [UpdateProgress(item.id)]
    {
      if item.status == Pending {
        itemToConfirm := Some(item);
      } else {
        dispatched := dispatched + [UpdateProgress(item.id)];
      }
    }

    /** `confirmCompletion`: one update for the recorded item, then the record is cleared. */
    method ConfirmCompletion()
      modifies this`itemToConfirm, this`dispatched
      ensures old(itemToConfirm).None? ==> itemToConfirm.None? && dispatched == old(dispatched)
      ensures old(itemToConfirm).Some? ==>
        itemToConfirm.None? && dispatched == old(dispatched) + [UpdateProgress(old(itemToConfirm).value.id)]
    {
      if itemToConfirm.Some? {
        dispatched := dispatched + [UpdateProgress(itemToConfirm.value.id)];
        itemToConfirm := None;
      }
    }

    /** The cancel button of the confirmation dialog. */
    method CancelCompletion()
      modifies this`itemToConfirm
      ensures itemToConfirm.None?
    {
      itemToConfirm := None;
    }

    /** `handleResetRequest`. */
    method ResetRequest()
      modifies this`resetIntent
      ensures resetIntent == Some(AllIntent)
    {
      resetIntent := Some(AllIntent);
    }

    /** `handleResetPhaseRequest`. */
    method ResetPhaseRequest(index: int)
      modifies this`resetIntent
      ensures resetIntent == Some(PhaseIntent(index))
    {
      resetIntent := Some(PhaseIntent(index));
    }

    /** The cancel button of the reset dialog. */
    method CancelReset()
      modifies this`resetIntent
      ensures resetIntent.None?
    {
      resetIntent := None;
    }

    /** `confirmReset`: dispatches the recorded reset, then clears it. */
    method ConfirmReset()
      modifies this`resetIntent, this`dispatched
      ensures old(resetIntent).None? ==> resetIntent.None? && dispatched == old(dispatched)
      ensures old(resetIntent) == Some(AllIntent) ==> resetIntent.None? && dispatched == old(dispatched) + [ResetRoadmap]
      ensures old(resetIntent).Some? && old(resetIntent).value.PhaseIntent? ==>
        resetIntent.None? && dispatched == old(dispatched) + [ResetPhaseAction(old(resetIntent).value.index)]
    {
      if resetIntent.None? {
        return;
      }
      if resetIntent.value == AllIntent {
        dispatched := dispatched + [ResetRoadmap];
      } else {
        dispatched := dispatched + [ResetPhaseAction(resetIntent.value.index)];
      }
      resetIntent := None;
    }
  }
}
