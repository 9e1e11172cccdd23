/** The roadmap progress engine of components/Dashboard.tsx: toggling an item, detecting
    that a phase was just completed, resets, the progress percentage, adapting the roadmap
    to a new deadline, the "finish quicker" deadline, days remaining, the daily challenge
    and deleting a career. The pure rules are functions with their lemmas; the handlers,
    which update the component's state and the store, are methods of `Controller`. */
module Dashboard {

  import opened Options
  import opened Js
  import opened Types
  import Gemini

  // ---------------------------------------------------------------------------------------
  // Toggling an item (handleProgress)

  /** The per-item update of `handleProgress`: a completed item goes back to pending and
      loses its completion time; any other status becomes completed at `now`. */
  function ToggleItem(item: Item, id: string, now: int): Item {
    if item.id != id then item
    else if item.status == Completed then item.(status := Pending, completedAt := None)
    else item.(status := Completed, completedAt := Some(now))
  }

  function ToggleItems(items: seq<Item>, id: string, now: int): (r: seq<Item>)
    ensures |r| == |items|
    ensures forall k :: 0 <= k < |items| ==> r[k] == ToggleItem(items[k], id, now)
  {
    seq(|items|, k requires 0 <= k < |items| => ToggleItem(items[k], id, now))
  }

  /** `roadmap.map(phase => ({...phase, items: phase.items.map(...)}))`. */
  function Toggle(r: Roadmap, id: string, now: int): (t: Roadmap)
    ensures |t| == |r|
    ensures forall j :: 0 <= j < |r| ==> t[j] == r[j].(items := ToggleItems(r[j].items, id, now))
  {
    seq(|r|, j requires 0 <= j < |r| => r[j].(items := ToggleItems(r[j].items, id, now)))
  }

  /** Only items with the id change; a completed one becomes pending with no completion
      time, any other becomes completed at `now`; nothing else about any item or phase
      changes. */
  lemma ToggleSpec(r: Roadmap, id: string, now: int)
    ensures var t := Toggle(r, id, now);
      && |t| == |r|
      && (forall j :: 0 <= j < |r| ==>
            |t[j].items| == |r[j].items| && t[j].phaseName == r[j].phaseName
            && t[j].completionSummary == r[j].completionSummary)
      && (forall j, k :: 0 <= j < |r| && 0 <= k < |r[j].items| && r[j].items[k].id != id ==>
            t[j].items[k] == r[j].items[k])
      && (forall j, k :: (0 <= j < |r| && 0 <= k < |r[j].items| && r[j].items[k].id == id
            && r[j].items[k].status == Completed) ==>
            t[j].items[k] == r[j].items[k].(status := Pending, completedAt := None))
      && (forall j, k :: (0 <= j < |r| && 0 <= k < |r[j].items| && r[j].items[k].id == id
            && r[j].items[k].status != Completed) ==>
            t[j].items[k] == r[j].items[k].(status := Completed, completedAt := Some(now)))
  {
  }

  /** `completedAt` is set exactly on completed items. */
  predicate Consistent(item: Item) {
    item.completedAt.Some? <==> item.status == Completed
  }

  predicate RoadmapConsistent(r: Roadmap) {
    forall j, k :: 0 <= j < |r| && 0 <= k < |r[j].items| ==> Consistent(r[j].items[k])
  }

  /** Toggling keeps the completion times in step with the statuses. */
  lemma ToggleKeepsConsistent(r: Roadmap, id: string, now: int)
    requires RoadmapConsistent(r)
    ensures RoadmapConsistent(Toggle(r, id, now))
  {
    var t := Toggle(r, id, now);
    forall j, k | 0 <= j < |t| && 0 <= k < |t[j].items| ensures Consistent(t[j].items[k]) {
      assert t[j].items[k] == ToggleItem(r[j].items[k], id, now);
    }
  }

  /** Toggling twice restores each status, except that an in-progress item comes back as
      pending; a pending item without completion time comes back exactly. */
  lemma ToggleTwice(r: Roadmap, id: string, t1: int, t2: int)
    ensures var t := Toggle(Toggle(r, id, t1), id, t2);
      && |t| == |r|
      && (forall j, k :: 0 <= j < |r| && 0 <= k < |r[j].items| ==>
            t[j].items[k].status ==
              if r[j].items[k].id == id && r[j].items[k].status == InProgress then Pending
              else r[j].items[k].status)
      && (forall j, k :: (0 <= j < |r| && 0 <= k < |r[j].items|
            && r[j].items[k].status == Pending && r[j].items[k].completedAt.None?) ==>
            t[j].items[k] == r[j].items[k])
  {
    var m := Toggle(r, id, t1);
    var t := Toggle(m, id, t2);
    forall j, k | 0 <= j < |r| && 0 <= k < |r[j].items|
      ensures t[j].items[k] == ToggleItem(ToggleItem(r[j].items[k], id, t1), id, t2)
    {
      assert m[j].items[k] == ToggleItem(r[j].items[k], id, t1);
    }
  }

  // ---------------------------------------------------------------------------------------
  // Phase-completion event

  /** The index the `forEach` leaves in `phaseIndexToCheck`: the last phase holding an item
      with the id, or -1. */
  function LastPhaseWith(r: Roadmap, id: string): (k: int)
    ensures -1 <= k < |r|
    ensures k >= 0 ==> ContainsId(r[k], id) && forall j :: k < j < |r| ==> !ContainsId(r[j], id)
    ensures k == -1 ==> forall j :: 0 <= j < |r| ==> !ContainsId(r[j], id)
  {
    if r == [] then -1
    else if ContainsId(r[|r| - 1], id) then |r| - 1
    else LastPhaseWith(r[..|r| - 1], id)
  }

  /** The `forEach` over the phases that overwrites `phaseIndexToCheck` on every phase that
      holds the item. */
  method FindPhaseIndex(r: Roadmap, id: string) returns (phaseIndexToCheck: int)
    ensures phaseIndexToCheck == LastPhaseWith(r, id)
  {
    phaseIndexToCheck := -1;
    var idx := 0;
    while idx < |r|
      invariant 0 <= idx <= |r|
      invariant phaseIndexToCheck == LastPhaseWith(r[..idx], id)
    {
      var found := false;
      var k := 0;
      while k < |r[idx].items| && !found
        invariant 0 <= k <= |r[idx].items|
        invariant found <==> exists i :: 0 <= i < k && r[idx].items[i].id == id
      {
        found := r[idx].items[k].id == id;
        k := k + 1;
      }
      assert r[..idx + 1][..idx] == r[..idx];
      assert r[..idx + 1][idx] == r[idx];
      if found {
        phaseIndexToCheck := idx;
      }
      idx := idx + 1;
    }
    assert r[..idx] == r;
  }

  /** The phase whose completion `handleProgress` announces after toggling `id`: the
      checked phase is completed now, was not before, and the roadmap as a whole is not
      completed (that case gets the final celebration instead). */
  function PhaseEvent(r: Roadmap, id: string, now: int): (e: Option<int>)
    ensures e.Some? ==> 0 <= e.value < |r| && e.value == LastPhaseWith(r, id)
  {
    var k := LastPhaseWith(r, id);
    if k < 0 then None
    else
      var t := Toggle(r, id, now);
      if PhaseCompleted(t[k]) && !PhaseCompleted(r[k]) && !AllCompleted(t) then Some(k) else None
  }

  /** The event names a phase that holds the item, is completed after the toggle, was not
      completed before it, while some phase is still not completed. */
  lemma PhaseEventMeaning(r: Roadmap, id: string, now: int)
    ensures var e := PhaseEvent(r, id, now);
      e.Some? ==> && ContainsId(r[e.value], id)
                  && PhaseCompleted(Toggle(r, id, now)[e.value])
                  && !PhaseCompleted(r[e.value])
                  && exists j :: 0 <= j < |r| && !PhaseCompleted(Toggle(r, id, now)[j])
  {
  }

  /** Completing the last unfinished items of a phase, while another phase still has work
      left, announces that phase. */
  lemma PhaseEventOnLastItem(r: Roadmap, id: string, now: int, p: nat, q: nat)
    requires p < |r| && q < |r| && p != q
    requires LastPhaseWith(r, id) == p
    requires forall k :: 0 <= k < |r[p].items| ==>
               (r[p].items[k].id == id ==> r[p].items[k].status != Completed)
               && (r[p].items[k].id != id ==> r[p].items[k].status == Completed)
    requires forall k :: 0 <= k < |r[q].items| ==> r[q].items[k].id != id
    requires !PhaseCompleted(r[q])
    ensures PhaseEvent(r, id, now) == Some(p)
  {
    var t := Toggle(r, id, now);
    assert ContainsId(r[p], id);
    var i :| 0 <= i < |r[p].items| && r[p].items[i].id == id;
    assert !PhaseCompleted(r[p]) by { assert r[p].items[i].status != Completed; }
    forall k | 0 <= k < |t[p].items| ensures t[p].items[k].status == Completed {
      assert t[p].items[k] == ToggleItem(r[p].items[k], id, now);
    }
    var kq :| 0 <= kq < |r[q].items| && r[q].items[kq].status != Completed;
    assert t[q].items[kq] == r[q].items[kq];
    assert !PhaseCompleted(t[q]);
  }

  /** Un-completing an item never announces a phase. */
  lemma NoPhaseEventWhenReverting(r: Roadmap, id: string, now: int)
    requires exists j, k :: 0 <= j < |r| && 0 <= k < |r[j].items| && j == LastPhaseWith(r, id)
               && r[j].items[k].id == id && r[j].items[k].status == Completed
    ensures PhaseEvent(r, id, now).None?
  {
    var j, k :| 0 <= j < |r| && 0 <= k < |r[j].items| && j == LastPhaseWith(r, id)
               && r[j].items[k].id == id && r[j].items[k].status == Completed;
    var t := Toggle(r, id, now);
    assert t[j].items[k] == ToggleItem(r[j].items[k], id, now);
  }

  /** Finishing the whole roadmap never announces a phase. */
  lemma NoPhaseEventWhenAllDone(r: Roadmap, id: string, now: int)
    requires AllCompleted(Toggle(r, id, now))
    ensures PhaseEvent(r, id, now).None?
  {
  }

  /** `newRoadmap.map((p, idx) => idx === k ? {...p, completionSummary: summary} : p)`. */
  function WithSummary(r: Roadmap, k: int, summary: string): (t: Roadmap)
    ensures |t| == |r|
    ensures forall j :: 0 <= j < |r| && j != k ==> t[j] == r[j]
    ensures 0 <= k < |r| ==> t[k] == r[k].(completionSummary := Some(summary))
  {
    seq(|r|, j requires 0 <= j < |r| => if j == k then r[j].(completionSummary := Some(summary)) else r[j])
  }

  /** The text shown when the summary call fails. */
  const SummaryFallback := "Great job completing this phase!"

  // ---------------------------------------------------------------------------------------
  // Resets

  /** Every item pending with no completion time, and no stored summary. */
  function ResetPhase(p: Phase): (q: Phase)
    ensures q.phaseName == p.phaseName && q.completionSummary.None? && |q.items| == |p.items|
    ensures forall k :: 0 <= k < |p.items| ==>
              q.items[k] == p.items[k].(status := Pending, completedAt := None)
  {
    p.(completionSummary := None,
       items := seq(|p.items|, k requires 0 <= k < |p.items| => p.items[k].(status := Pending, completedAt := None)))
  }

  /** `handleResetPhase`: only the phase at `i` is reset; an index outside the roadmap
      changes nothing. */
  function ResetPhaseAt(r: Roadmap, i: int): (t: Roadmap)
    ensures |t| == |r|
    ensures forall j :: 0 <= j < |r| && j != i ==> t[j] == r[j]
    ensures 0 <= i < |r| ==> t[i] == ResetPhase(r[i])
  {
    seq(|r|, j requires 0 <= j < |r| => if j == i then ResetPhase(r[j]) else r[j])
  }

  /** `handleResetRoadmap`. */
  function ResetAll(r: Roadmap): (t: Roadmap)
    ensures |t| == |r|
    ensures forall j :: 0 <= j < |r| ==> t[j] == ResetPhase(r[j])
  {
    seq(|r|, j requires 0 <= j < |r| => ResetPhase(r[j]))
  }

  /** After a reset nothing is completed and no completion time or summary is left;
      resetting again changes nothing. */
  lemma ResetAllSpec(r: Roadmap)
    ensures TotalStatus(ResetAll(r), Completed) == 0
    ensures RoadmapConsistent(ResetAll(r))
    ensures forall j :: 0 <= j < |r| ==> ResetAll(r)[j].completionSummary.None?
    ensures ResetAll(ResetAll(r)) == ResetAll(r)
  {
    var t := ResetAll(r);
    TotalStatusNone(t, Completed);
    forall j | 0 <= j < |t| ensures ResetPhase(t[j]) == t[j] {
      assert t[j].items == ResetPhase(t[j]).items;
    }
  }

  /** Resetting one phase and then all of them is the same as resetting all of them. */
  lemma ResetPhaseThenAll(r: Roadmap, i: int)
    ensures ResetAll(ResetPhaseAt(r, i)) == ResetAll(r)
  {
    var a := ResetAll(ResetPhaseAt(r, i));
    forall j | 0 <= j < |r| ensures a[j] == ResetAll(r)[j] {
      if j == i {
        assert ResetPhase(ResetPhase(r[j])).items == ResetPhase(r[j]).items;
      }
    }
  }

  /** The ids of a user's careers. */
  function CareerIds(cs: seq<CareerEntry>): set<string> {
    set i | 0 <= i < |cs| :: cs[i].careerId
  }

  /** The stored roadmaps after `handleResetAll` has walked the careers: the stored roadmap of
      every listed career is reset, every other one is kept. */
  function ResetStored(m: map<string, Roadmap>, ids: set<string>): (t: map<string, Roadmap>)
    ensures t.Keys == m.Keys
    ensures forall k :: k in m && k in ids ==> t[k] == ResetAll(m[k])
    ensures forall k :: k in m && k !in ids ==> t[k] == m[k]
  {
    map k | k in m :: if k in ids then ResetAll(m[k]) else m[k]
  }

  /** One more career walked by `handleResetAll`: its stored roadmap, if any, is reset. */
  lemma ResetStoredStep(m0: map<string, Roadmap>, ids: set<string>, id: string)
    ensures var m := ResetStored(m0, ids);
      (if id in m then m[id := ResetAll(m[id])] else m) == ResetStored(m0, ids + {id})
  {
    var m := ResetStored(m0, ids);
    var a := if id in m then m[id := ResetAll(m[id])] else m;
    var b := ResetStored(m0, ids + {id});
    if id in m0 && id in ids {
      ResetAllSpec(m0[id]);
    }
    assert a.Keys == b.Keys;
    forall k | k in a ensures a[k] == b[k] {
    }
  }

  lemma CareerIdsSnoc(cs: seq<CareerEntry>, i: nat)
    requires i < |cs|
    ensures CareerIds(cs[..i + 1]) == CareerIds(cs[..i]) + {cs[i].careerId}
  {
    assert cs[..i + 1] == cs[..i] + [cs[i]];
  }

  /** After resetting everything no listed career has a completed item left, and resetting
      everything again changes nothing. */
  lemma ResetStoredSpec(m: map<string, Roadmap>, ids: set<string>)
    ensures forall k :: k in m && k in ids ==> TotalStatus(ResetStored(m, ids)[k], Completed) == 0
    ensures ResetStored(ResetStored(m, ids), ids) == ResetStored(m, ids)
  {
    forall k | k in m && k in ids
      ensures TotalStatus(ResetStored(m, ids)[k], Completed) == 0
      ensures ResetAll(ResetAll(m[k])) == ResetAll(m[k])
    {
      ResetAllSpec(m[k]);
    }
  }

  // ---------------------------------------------------------------------------------------
  // Progress

  /** The percentage the progress effect stores: `Math.round(completed / total * 100)`,
      or 0 with no items or no roadmap. */
  function Progress(r: Option<Roadmap>): (p: int)
    ensures 0 <= p <= 100
    ensures r.None? || TotalItems(r.value) == 0 ==> p == 0
  {
    if r.None? || TotalItems(r.value) == 0 then 0
    else
      RoundRatioBounds(100 * TotalStatus(r.value, Completed), TotalItems(r.value), 100);
      RoundRatio(100 * TotalStatus(r.value, Completed), TotalItems(r.value))
  }

  /** The percentage is 100 exactly when at least 99.5% of the items are completed, so a
      large roadmap shows 100 with an item still open; a fully completed roadmap with
      items always shows 100. */
  lemma ProgressFull(r: Roadmap)
    requires TotalItems(r) > 0
    ensures Progress(Some(r)) == 100 <==> 200 * TotalStatus(r, Completed) >= 199 * TotalItems(r)
    ensures AllCompleted(r) ==> Progress(Some(r)) == 100
  {
    var c := TotalStatus(r, Completed);
    var n := TotalItems(r);
    assert Progress(Some(r)) == RoundRatio(100 * c, n);
    RoundRatioIff(100 * c, n, 100);
    assert 2 * n * 100 == 200 * n && 2 * n * (100 + 1) == 202 * n;
    assert 2 * (100 * c) + n < 202 * n;
    TotalStatusAll(r);
  }

  /** The percentage is 0 exactly when fewer than 0.5% of the items are completed. */
  lemma ProgressZero(r: Roadmap)
    requires TotalItems(r) > 0
    ensures Progress(Some(r)) == 0 <==> 200 * TotalStatus(r, Completed) < TotalItems(r)
  {
    var c := TotalStatus(r, Completed);
    var n := TotalItems(r);
    assert Progress(Some(r)) == RoundRatio(100 * c, n);
    RoundRatioIff(100 * c, n, 0);
    assert 2 * n * 0 == 0 && 2 * n * (0 + 1) == 2 * n;
  }

  /** The counting loops of the progress effect. */
  method CountItems(r: Roadmap) returns (total: nat, completed: nat)
    ensures total == TotalItems(r) && completed == TotalStatus(r, Completed)
  {
    total := 0;
    completed := 0;
    var i := 0;
    while i < |r|
      invariant 0 <= i <= |r|
      invariant total == TotalItems(r[..i]) && completed == TotalStatus(r[..i], Completed)
    {
      var items := r[i].items;
      var j := 0;
      while j < |items|
        invariant 0 <= j <= |items|
        invariant total == TotalItems(r[..i]) + j
        invariant completed == TotalStatus(r[..i], Completed) + CountStatus(items[..j], Completed)
      {
        total := total + 1;
        if items[j].status == Completed {
          completed := completed + 1;
        }
        assert items[..j + 1][..j] == items[..j];
        j := j + 1;
      }
      assert items[..j] == items;
      assert r[..i + 1][..i] == r[..i];
      i := i + 1;
    }
    assert r[..i] == r;
  }

  /** The celebration opens when the percentage reaches 100 from a value that was neither
      100 nor 0. */
  predicate Celebrate(previous: int, next: int) {
    next == 100 && previous != 100 && previous != 0
  }

  // ---------------------------------------------------------------------------------------
  // Adaptation

  /** `roadmap.filter(p => p.items.every(i => i.status === 'completed'))`. */
  function CompletedPhases(r: Roadmap): (c: Roadmap)
    ensures |c| <= |r|
    ensures forall j :: 0 <= j < |c| ==> PhaseCompleted(c[j])
  {
    if r == [] then []
    else CompletedPhases(r[..|r| - 1]) + (if PhaseCompleted(r[|r| - 1]) then [r[|r| - 1]] else [])
  }

  /** A phase is kept exactly when it is in the roadmap and completed, wherever it stands:
      a completed phase after an unfinished one is kept too. */
  lemma {:induction false} CompletedPhasesMembers(r: Roadmap, p: Phase)
    ensures p in CompletedPhases(r) <==> p in r && PhaseCompleted(p)
  {
    if r != [] {
      var init := r[..|r| - 1];
      CompletedPhasesMembers(init, p);
      assert r == init + [r[|r| - 1]];
    }
  }

  /** Filtering keeps the original order: over a concatenation it is the concatenation of
      the filtered parts. */
  lemma {:induction false} CompletedPhasesAppend(a: Roadmap, b: Roadmap)
    ensures CompletedPhases(a + b) == CompletedPhases(a) + CompletedPhases(b)
  {
    if b != [] {
      var ab := a + b;
      assert ab[..|ab| - 1] == a + b[..|b| - 1];
      CompletedPhasesAppend(a, b[..|b| - 1]);
    } else {
      assert a + b == a;
    }
  }

  /** A completed roadmap is kept whole, so a leading run of completed phases is kept as
      the start of the result. */
  lemma {:induction false} CompletedPhasesAllDone(r: Roadmap)
    requires AllCompleted(r)
    ensures CompletedPhases(r) == r
  {
    if r != [] {
      var init := r[..|r| - 1];
      assert AllCompleted(init) by {
        forall j | 0 <= j < |init| ensures PhaseCompleted(init[j]) { assert init[j] == r[j]; }
      }
      CompletedPhasesAllDone(init);
      assert r == init + [r[|r| - 1]];
      assert PhaseCompleted(r[|r| - 1]);
    }
  }

  lemma CompletedPrefixKept(r: Roadmap, n: nat)
    requires n <= |r| && AllCompleted(r[..n])
    ensures r[..n] <= CompletedPhases(r)
  {
    assert r == r[..n] + r[n..];
    CompletedPhasesAppend(r[..n], r[n..]);
    CompletedPhasesAllDone(r[..n]);
  }

  /** The roadmap after an adaptation: the completed phases in their order, then whatever
      the generator produced. */
  function Adapt(r: Roadmap, newPhases: Roadmap): (t: Roadmap)
    ensures |t| == |CompletedPhases(r)| + |newPhases|
    ensures t[..|CompletedPhases(r)|] == CompletedPhases(r) && t[|CompletedPhases(r)|..] == newPhases
  {
    CompletedPhases(r) + newPhases
  }

  /** A failed generation yields `[]`, so the roadmap shrinks to its completed phases. */
  lemma FailedAdaptation(r: Roadmap)
    ensures Adapt(r, []) == CompletedPhases(r)
    ensures AllCompleted(Adapt(r, []))
  {
    assert CompletedPhases(r) + [] == CompletedPhases(r);
  }

  /** The adaptation context of `handleAdaptation`: the generator starts numbering at the
      phase after the completed ones. */
  function AdaptationContextFor(r: Roadmap, strategy: Gemini.Strategy): (c: Gemini.AdaptationContext)
    ensures c.kind == strategy && c.completedPhases == |CompletedPhases(r)|
    ensures Gemini.StartPhase(Some(c)) == |CompletedPhases(r)| + 1
  {
    var n := |CompletedPhases(r)|;
    Gemini.AdaptationContext(strategy, n, Some(n + 1))
  }

  // ---------------------------------------------------------------------------------------
  // Careers of the user

  /** `user.activeCareers.find(c => c.careerId === id)`. */
  function FindCareer(cs: seq<CareerEntry>, id: string): (e: Option<CareerEntry>)
    ensures e.Some? ==> e.value in cs && e.value.careerId == id
    ensures e.None? ==> forall i :: 0 <= i < |cs| ==> cs[i].careerId != id
    ensures e.Some? ==> exists i :: 0 <= i < |cs| && cs[i] == e.value
                           && forall h :: 0 <= h < i ==> cs[h].careerId != id
  {
    if cs == [] then None
    else if cs[0].careerId == id then Some(cs[0])
    else
      var e := FindCareer(cs[1..], id);
      assert e.Some? ==> exists i :: 0 <= i < |cs| && cs[i] == e.value
                           && forall h :: 0 <= h < i ==> cs[h].careerId != id by {
        if e.Some? {
          var i :| 0 <= i < |cs[1..]| && cs[1..][i] == e.value
                   && forall h :: 0 <= h < i ==> cs[1..][h].careerId != id;
          assert cs[i + 1] == e.value;
          assert forall h :: 0 <= h < i + 1 ==> cs[h].careerId != id by {
            forall h | 0 <= h < i + 1 ensures cs[h].careerId != id {
              if h > 0 { assert cs[h] == cs[1..][h - 1]; }
            }
          }
        }
      }
      e
  }

  /** Sets the target date of the entries with the id. */
  function SetTargetDate(cs: seq<CareerEntry>, id: string, d: Option<int>): (t: seq<CareerEntry>)
    ensures |t| == |cs|
    ensures forall i :: 0 <= i < |cs| && cs[i].careerId != id ==> t[i] == cs[i]
    ensures forall i :: 0 <= i < |cs| && cs[i].careerId == id ==> t[i] == cs[i].(targetCompletionDate := d)
  {
    seq(|cs|, i requires 0 <= i < |cs| => if cs[i].careerId == id then cs[i].(targetCompletionDate := d) else cs[i])
  }

  /** Sets the daily-challenge date of the entries with the id. */
  function SetLastChallenge(cs: seq<CareerEntry>, id: string, today: int): (t: seq<CareerEntry>)
    ensures |t| == |cs|
    ensures forall i :: 0 <= i < |cs| && cs[i].careerId != id ==> t[i] == cs[i]
    ensures forall i :: 0 <= i < |cs| && cs[i].careerId == id ==> t[i] == cs[i].(lastDailyChallenge := Some(today))
  {
    seq(|cs|, i requires 0 <= i < |cs| => if cs[i].careerId == id then cs[i].(lastDailyChallenge := Some(today)) else cs[i])
  }

  /** After setting the date, looking the career up finds the new date. */
  lemma SetTargetDateFound(cs: seq<CareerEntry>, id: string, d: Option<int>)
    requires FindCareer(cs, id).Some?
    ensures FindCareer(SetTargetDate(cs, id, d), id) == Some(FindCareer(cs, id).value.(targetCompletionDate := d))
  {
    var t := SetTargetDate(cs, id, d);
    var e := FindCareer(cs, id).value;
    var i :| 0 <= i < |cs| && cs[i] == e && forall h :: 0 <= h < i ==> cs[h].careerId != id;
    var f := FindCareer(t, id).value;
    var g :| 0 <= g < |t| && t[g] == f && forall h :: 0 <= h < g ==> t[h].careerId != id;
    assert t[i] == e.(targetCompletionDate := d) && t[i].careerId == id;
    assert !(g < i) by { assert t[g].careerId == cs[g].careerId; }
    assert g == i;
  }

  /** The careers after `handleAdaptation` with an optional custom date: the target date
      is rewritten only when the date to use differs from the stored one. */
  function AdaptedCareers(cs: seq<CareerEntry>, id: string, details: CareerEntry, customTargetDate: Option<int>): (t: seq<CareerEntry>)
    ensures |t| == |cs|
    ensures forall i :: 0 <= i < |cs| ==> t[i].(targetCompletionDate := cs[i].targetCompletionDate) == cs[i]
    ensures forall i :: 0 <= i < |cs| && cs[i].careerId != id ==> t[i] == cs[i]
    ensures TargetToUse(details, customTargetDate) != details.targetCompletionDate ==>
      forall i :: 0 <= i < |cs| && cs[i].careerId == id ==> t[i].targetCompletionDate == TargetToUse(details, customTargetDate)
    ensures TargetToUse(details, customTargetDate) == details.targetCompletionDate ==> t == cs
  {
    var targetDateToUse := TargetToUse(details, customTargetDate);
    if targetDateToUse != details.targetCompletionDate then SetTargetDate(cs, id, targetDateToUse) else cs
  }

  /** `customTargetDate || targetCompletionDate`. */
  function TargetToUse(details: CareerEntry, customTargetDate: Option<int>): (d: Option<int>)
    ensures customTargetDate.Some? ==> d == customTargetDate
    ensures customTargetDate.None? ==> d == details.targetCompletionDate
  {
    if customTargetDate.Some? then customTargetDate else details.targetCompletionDate
  }

  /** The generation request of `handleAdaptation`. */
  function AdaptationRequest(title: string, details: CareerEntry, r: Roadmap, strategy: Gemini.Strategy,
                             customTargetDate: Option<int>): (q: Gemini.GenerationRequest)
    ensures q.targetDate == TargetToUse(details, customTargetDate)
    ensures q.context.Some? && Gemini.StartPhase(q.context) == |CompletedPhases(r)| + 1
    ensures q.context.value.kind == strategy
  {
    Gemini.GenerationRequest(title, details.educationYear, TargetToUse(details, customTargetDate),
                             details.experienceLevel, details.focusAreas, Some(AdaptationContextFor(r, strategy)))
  }

  /** Without a custom date the careers are left as they are. */
  lemma AdaptedCareersWithoutDate(cs: seq<CareerEntry>, id: string, details: CareerEntry)
    ensures AdaptedCareers(cs, id, details, None) == cs
  {
  }

  /** With a custom date, the career looked up afterwards carries it. */
  lemma AdaptedCareersWithDate(cs: seq<CareerEntry>, id: string, d: int)
    requires FindCareer(cs, id).Some?
    ensures FindCareer(AdaptedCareers(cs, id, FindCareer(cs, id).value, Some(d)), id).value.targetCompletionDate == Some(d)
  {
    var e := FindCareer(cs, id).value;
    if e.targetCompletionDate != Some(d) {
      SetTargetDateFound(cs, id, Some(d));
    }
  }

  /** The date-strategy dialog calls the handler without the edited date: the career keeps
      its stored date and the generator is asked for the stored date, whatever was entered. */
  lemma EditedDateDiscarded(title: string, cs: seq<CareerEntry>, id: string, r: Roadmap,
                            strategy: Gemini.Strategy, edited: int)
    requires FindCareer(cs, id).Some? && FindCareer(cs, id).value.targetCompletionDate != Some(edited)
    ensures FindCareer(AdaptedCareers(cs, id, FindCareer(cs, id).value, None), id).value.targetCompletionDate != Some(edited)
    ensures AdaptationRequest(title, FindCareer(cs, id).value, r, strategy, None).targetDate != Some(edited)
  {
  }

  /** Passing the edited date along saves it and asks the generator for it. */
  lemma EditedDateApplied(title: string, cs: seq<CareerEntry>, id: string, r: Roadmap,
                          strategy: Gemini.Strategy, edited: int)
    requires FindCareer(cs, id).Some?
    ensures FindCareer(AdaptedCareers(cs, id, FindCareer(cs, id).value, Some(edited)), id).value.targetCompletionDate == Some(edited)
    ensures AdaptationRequest(title, FindCareer(cs, id).value, r, strategy, Some(edited)).targetDate == Some(edited)
  {
    AdaptedCareersWithDate(cs, id, edited);
  }

  /** The direction of a deadline change. */
  datatype DateChange = Extension | Shortening

  /** `newDate > oldDate ? 'extension' : 'shortening'`; a missing old date is NaN, against
      which every comparison is false. */
  function Classify(oldDate: Option<int>, newDate: int): (c: DateChange)
    ensures c == Extension <==> oldDate.Some? && newDate > oldDate.value
  {
    if oldDate.Some? && newDate > oldDate.value then Extension else Shortening
  }

  /** The two strategies the date-strategy dialog offers; without a type it shows the
      shortening buttons. */
  function OfferedStrategies(c: Option<DateChange>): (s: seq<Gemini.Strategy>)
    ensures |s| == 2
    ensures c == Some(Extension) ==> s == [Gemini.Redistribute, Gemini.AppendContent]
    ensures c != Some(Extension) ==> s == [Gemini.CompressSchedule, Gemini.SimplifySchedule]
  {
    if c == Some(Extension) then [Gemini.Redistribute, Gemini.AppendContent]
    else [Gemini.CompressSchedule, Gemini.SimplifySchedule]
  }

  /** `getDaysRemaining`: 0 when a non-empty roadmap is all completed or there is no
      target date, otherwise the inclusive count of days from today to the target. */
  function DaysRemaining(r: Option<Roadmap>, details: Option<CareerEntry>, today: int): (d: nat)
    ensures r.Some? && |r.value| > 0 && AllCompleted(r.value) ==> d == 0
    ensures details.None? || details.value.targetCompletionDate.None? ==> d == 0
  {
    if r.Some? && |r.value| > 0 && AllCompleted(r.value) then 0
    else if details.None? || details.value.targetCompletionDate.None? then 0
    else Gemini.InclusiveDays(details.value.targetCompletionDate.value - today)
  }

  /** Until the work is done, days remaining is the same inclusive span the generator is
      given as its budget, and a target date already past leaves 0. */
  lemma DaysRemainingIsBudget(r: Option<Roadmap>, e: CareerEntry, today: int)
    requires !(r.Some? && |r.value| > 0 && AllCompleted(r.value))
    ensures DaysRemaining(r, Some(e), today) == Gemini.DiffDays(e.targetCompletionDate, today)
    ensures e.targetCompletionDate.Some? && e.targetCompletionDate.value < today ==> DaysRemaining(r, Some(e), today) == 0
    ensures DaysRemaining(r, Some(e), today) > 0 ==>
            DaysRemaining(r, Some(e), today) == Gemini.BudgetFor(e.targetCompletionDate, today, None).effectiveDays
  {
  }

  /** `Math.max(0, daysNeeded - 1)`: the day offset of the "finish quicker" deadline. The
      clamp makes up for an estimate below one day, so the offset is that of the estimate
      with its minimum kept. */
  function FinishOffset(r: Roadmap): (n: nat)
    ensures n == Gemini.EstimatedDays(r) - 1
  {
    if Gemini.RemainingDays(r) - 1 > 0 then Gemini.RemainingDays(r) - 1 else 0
  }

  /** The deadline "finish quicker" sets gives back the estimate as the inclusive number
      of days left (at least one), so the budget matches the pending work. */
  lemma FinishQuickerBudget(r: Roadmap, today: int)
    ensures Gemini.DiffDays(Some(today + FinishOffset(r)), today) ==
            if Gemini.RemainingDays(r) >= 1 then Gemini.RemainingDays(r) else 1
    ensures Gemini.DiffDays(Some(today + FinishOffset(r)), today) == Gemini.EstimatedDays(r)
    ensures today + FinishOffset(r) >= today
  {
  }

  // ---------------------------------------------------------------------------------------
  // Daily challenge

  datatype Challenge = Challenge(question: string, options: seq<string>, correctAnswer: int, explanation: string)
  datatype Feedback = Feedback(isCorrect: bool, text: string)
  datatype Milestone = StreakMilestone(value: int) | XpMilestone(value: int)

  /** XP and streak after a challenge: +10 and +1 only for a correct answer to the first
      challenge of the day across all careers. */
  function Reward(xp: int, streak: int, first: bool, correct: bool): (r: (int, int))
    ensures first && correct ==> r == (xp + 10, streak + 1)
    ensures !(first && correct) ==> r == (xp, streak)
  {
    if first then (if correct then xp + 10 else xp, if correct then streak + 1 else streak)
    else (xp, streak)
  }

  /** The milestone announced: a streak at a multiple of 100 wins over XP at a multiple of
      1000, and nothing is announced unless the reward was given. */
  function MilestoneFor(first: bool, correct: bool, streak: int, xp: int): (m: Option<Milestone>)
    ensures m.Some? ==> first && correct
    ensures first && correct && streak > 0 && streak % 100 == 0 ==> m == Some(StreakMilestone(streak))
    ensures first && correct && !(streak > 0 && streak % 100 == 0) && xp > 0 && xp % 1000 == 0 ==> m == Some(XpMilestone(xp))
    ensures m.None? ==> !(first && correct) || (!(streak > 0 && streak % 100 == 0) && !(xp > 0 && xp % 1000 == 0))
  {
    if first && correct then
      if streak > 0 && streak % 100 == 0 then Some(StreakMilestone(streak))
      else if xp > 0 && xp % 1000 == 0 then Some(XpMilestone(xp))
      else None
    else None
  }

  const AlreadyCollected := " (XP already collected today.)"

  /** The explanation, with a note when the day's reward was already collected. */
  function FeedbackText(explanation: string, first: bool): (t: string)
    ensures explanation <= t
    ensures first <==> t == explanation
  {
    if first then explanation else explanation + AlreadyCollected
  }

  // ---------------------------------------------------------------------------------------
  // Deleting a career

  /** `activeCareers.filter(c => c.careerId !== id)`. */
  function RemoveCareer(cs: seq<CareerEntry>, id: string): (t: seq<CareerEntry>)
    ensures |t| <= |cs|
    ensures forall i :: 0 <= i < |t| ==> t[i].careerId != id && t[i] in cs
    ensures forall c :: c in cs && c.careerId != id ==> c in t
  {
    if cs == [] then []
    else (if cs[0].careerId != id then [cs[0]] else []) + RemoveCareer(cs[1..], id)
  }

  /** The filter distributes over concatenation, so it keeps the order and the
      multiplicity of the careers it keeps. */
  lemma {:induction false} RemoveCareerAppend(a: seq<CareerEntry>, b: seq<CareerEntry>, id: string)
    ensures RemoveCareer(a + b, id) == RemoveCareer(a, id) + RemoveCareer(b, id)
  {
    if a == [] {
      assert a + b == b;
    } else {
      assert (a + b)[1..] == a[1..] + b;
      RemoveCareerAppend(a[1..], b, id);
    }
  }

  /** The head of the filtered list is the first career of `cs` without the id, and the list
      is empty exactly when every career has the id. */
  lemma {:induction false} RemoveCareerFirst(cs: seq<CareerEntry>, id: string)
    ensures var t := RemoveCareer(cs, id);
      && (t == [] <==> forall i :: 0 <= i < |cs| ==> cs[i].careerId == id)
      && (t != [] ==> exists i :: 0 <= i < |cs| && t[0] == cs[i] && cs[i].careerId != id &&
                                 forall j :: 0 <= j < i ==> cs[j].careerId == id)
  {
    if cs != [] {
      RemoveCareerFirst(cs[1..], id);
      var t := RemoveCareer(cs, id);
      if cs[0].careerId == id {
        assert t == RemoveCareer(cs[1..], id);
        if t != [] {
          var i :| 0 <= i < |cs[1..]| && t[0] == cs[1..][i] && cs[1..][i].careerId != id &&
                   forall j :: 0 <= j < i ==> cs[1..][j].careerId == id;
          assert forall j :: 0 <= j < i + 1 ==> cs[j].careerId == id by {
            forall j | 0 <= j < i + 1 ensures cs[j].careerId == id {
              if j > 0 { assert cs[j] == cs[1..][j - 1]; }
            }
          }
          assert t[0] == cs[i + 1];
        } else {
          forall i | 0 <= i < |cs| ensures cs[i].careerId == id {
            if i > 0 { assert cs[i] == cs[1..][i - 1]; }
          }
        }
      } else {
        assert t[0] == cs[0];
      }
    }
  }

  /** The current career after deleting `id`: the first remaining one when the current
      career is deleted, nothing when none remain, and unchanged otherwise. */
  function NextCareerId(u: User, id: string): (n: Option<string>)
    ensures u.currentCareerId != Some(id) ==> n == u.currentCareerId
    ensures u.currentCareerId == Some(id) && n.None? ==>
      forall i :: 0 <= i < |u.activeCareers| ==> u.activeCareers[i].careerId == id
    ensures u.currentCareerId == Some(id) && n.Some? ==>
      exists i :: 0 <= i < |u.activeCareers| && u.activeCareers[i].careerId == n.value && n.value != id &&
                  forall j :: 0 <= j < i ==> u.activeCareers[j].careerId == id
  {
    RemoveCareerFirst(u.activeCareers, id);
    var rest := RemoveCareer(u.activeCareers, id);
    if u.currentCareerId == Some(id) then
      if |rest| > 0 then Some(rest[0].careerId) else None
    else u.currentCareerId
  }

  /** The current career id, when set, names one of the active careers. */
  predicate CurrentValid(u: User) {
    u.currentCareerId.Some? ==> exists i :: 0 <= i < |u.activeCareers| && u.activeCareers[i].careerId == u.currentCareerId.value
  }

  /** Deleting a career keeps the current career id valid, never leaves it on the deleted
      career, and picks the first remaining career when the current one goes. */
  lemma DeleteKeepsCurrentValid(u: User, id: string)
    requires CurrentValid(u)
    ensures var v := u.(activeCareers := RemoveCareer(u.activeCareers, id), currentCareerId := NextCareerId(u, id));
      && CurrentValid(v)
      && v.currentCareerId != Some(id)
      && (u.currentCareerId == Some(id) && v.activeCareers != [] ==> v.currentCareerId == Some(v.activeCareers[0].careerId))
      && (u.currentCareerId != Some(id) ==> v.currentCareerId == u.currentCareerId)
  {
    var rest := RemoveCareer(u.activeCareers, id);
    if u.currentCareerId.Some? && u.currentCareerId != Some(id) {
      var i :| 0 <= i < |u.activeCareers| && u.activeCareers[i].careerId == u.currentCareerId.value;
      assert u.activeCareers[i] in rest;
    }
  }

  /** Looking a key up in one of the store's maps. */
  function Lookup<V>(m: map<string, V>, k: string): (r: Option<V>)
    ensures r.Some? <==> k in m
    ensures r.Some? ==> r.value == m[k]
  {
    if k in m then Some(m[k]) else None
  }

  // ---------------------------------------------------------------------------------------
  // The component

  /** The state of the dashboard that its handlers update, with the parts of the store
      they read and write (the user record, and the career data and roadmap of each
      career of that user). */
  class Controller {
    var user: User
    var career: Option<CareerOption>
    var roadmap: Option<Roadmap>
    var progress: int
    var showCelebration: bool
    var showPhaseCompletionModal: bool
    var justCompletedPhaseIndex: Option<int>
    var phaseSummary: Option<string>
    var isSummaryLoading: bool
    var showAdaptationModal: bool
    var isAdapting: bool
    var showDateEdit: bool
    var pendingTargetDate: Option<int>
    var showDateStrategyModal: bool
    var dateStrategyType: Option<DateChange>
    var dailyChallenge: Option<Challenge>
    var dailyFeedback: Option<Feedback>
    var milestone: Option<Milestone>
    var addCareerRequested: bool
    var users: map<string, User>
    var careerData: map<string, CareerOption>
    var roadmaps: map<string, Roadmap>

    constructor(user: User, career: CareerOption, roadmap: Option<Roadmap>,
                careerData: map<string, CareerOption>, roadmaps: map<string, Roadmap>)
      ensures this.user == user && this.career == Some(career) && this.roadmap == roadmap
      ensures this.careerData == careerData && this.roadmaps == roadmaps
      ensures users == map[user.id := user]
      ensures progress == 0 && !showCelebration && !showPhaseCompletionModal
      ensures justCompletedPhaseIndex.None? && phaseSummary.None? && !isSummaryLoading
      ensures !showAdaptationModal && !isAdapting && !showDateEdit && pendingTargetDate.None?
      ensures !showDateStrategyModal && dateStrategyType.None?
      ensures dailyChallenge.None? && dailyFeedback.None? && milestone.None? && !addCareerRequested
    {
      this.user := user;
      this.career := Some(career);
      this.roadmap := roadmap;
      this.careerData := careerData;
      this.roadmaps := roadmaps;
      users := map[user.id := user];
      progress := 0;
      showCelebration := false;
      showPhaseCompletionModal := false;
      justCompletedPhaseIndex := None;
      phaseSummary := None;
      isSummaryLoading := false;
      showAdaptationModal := false;
      isAdapting := false;
      showDateEdit := false;
      pendingTargetDate := None;
      showDateStrategyModal := false;
      dateStrategyType := None;
      dailyChallenge := None;
      dailyFeedback := None;
      milestone := None;
      addCareerRequested := false;
    }

    /** `currentCareerDetails`. */
    function Details(): Option<CareerEntry>
      reads this
      requires career.Some?
    {
      FindCareer(user.activeCareers, career.value.id)
    }

    /** `saveUser`. */
    method SaveUser(u: User)
      modifies this`user, this`users
      ensures user == u && users == old(users)[u.id := u]
    {
      user := u;
      users := users[u.id := u];
    }

    /** `setRoadmap` followed by `saveRoadmap` for the current career. */
    method SaveRoadmap(r: Roadmap)
      requires career.Some?
      modifies this`roadmap, this`roadmaps
      ensures roadmap == Some(r) && roadmaps == old(roadmaps)[career.value.id := r]
    {
      roadmap := Some(r);
      roadmaps := roadmaps[career.value.id := r];
    }

    /** `handleProgress`: toggles the item, saves the roadmap, and announces a phase that
        was just completed. `summary` is the result of the summary call, `None` when it
        threw; only a returned summary is stored on the phase. */
    method HandleProgress(itemId: string, now: int, summary: Option<string>)
      requires career.Some?
      modifies this`roadmap, this`roadmaps, this`justCompletedPhaseIndex, this`phaseSummary,
               this`isSummaryLoading, this`showPhaseCompletionModal
      ensures old(roadmap).None? ==>
        && roadmap == old(roadmap) && roadmaps == old(roadmaps)
        && justCompletedPhaseIndex == old(justCompletedPhaseIndex) && phaseSummary == old(phaseSummary)
        && isSummaryLoading == old(isSummaryLoading) && showPhaseCompletionModal == old(showPhaseCompletionModal)
      ensures old(roadmap).Some? ==>
        var t := Toggle(old(roadmap).value, itemId, now);
        var e := PhaseEvent(old(roadmap).value, itemId, now);
        var final := if e.Some? && summary.Some? then WithSummary(t, e.value, summary.value) else t;
        && roadmap == Some(final)
        && roadmaps == old(roadmaps)[career.value.id := final]
        && (e.None? ==> justCompletedPhaseIndex == old(justCompletedPhaseIndex) && phaseSummary == old(phaseSummary)
                        && isSummaryLoading == old(isSummaryLoading)
                        && showPhaseCompletionModal == old(showPhaseCompletionModal))
        && (e.Some? ==> justCompletedPhaseIndex == e && showPhaseCompletionModal && !isSummaryLoading
                        && phaseSummary == Some(if summary.Some? then summary.value else SummaryFallback))
    {
      if roadmap.None? {
        return;
      }
      var r := roadmap.value;
      var phaseIndexToCheck := FindPhaseIndex(r, itemId);
      var wasPhaseCompleted := phaseIndexToCheck != -1 && PhaseCompleted(r[phaseIndexToCheck]);
      var newRoadmap := Toggle(r, itemId, now);
      SaveRoadmap(newRoadmap);
      if phaseIndexToCheck != -1 {
        var isNowCompleted := PhaseCompleted(newRoadmap[phaseIndexToCheck]);
        var isAllCompleted := AllCompleted(newRoadmap);
        if isNowCompleted && !wasPhaseCompleted && !isAllCompleted {
          assert PhaseEvent(r, itemId, now) == Some(phaseIndexToCheck);
          AnnouncePhase(newRoadmap, phaseIndexToCheck, summary);
        } else {
          assert PhaseEvent(r, itemId, now).None?;
        }
      } else {
        assert PhaseEvent(r, itemId, now).None?;
      }
    }

    /** The phase-completion dialog of `handleProgress` for phase `k` of the shown roadmap
        `t`: a returned summary is shown and stored on the phase, a failed call shows the
        fallback text. */
    method AnnouncePhase(t: Roadmap, k: int, summary: Option<string>)
      requires career.Some? && roadmap == Some(t)
      modifies this`roadmap, this`roadmaps, this`justCompletedPhaseIndex, this`phaseSummary,
               this`isSummaryLoading, this`showPhaseCompletionModal
      ensures summary.Some? ==>
        roadmap == Some(WithSummary(t, k, summary.value))
        && roadmaps == old(roadmaps)[career.value.id := WithSummary(t, k, summary.value)]
      ensures summary.None? ==> roadmap == old(roadmap) && roadmaps == old(roadmaps)
      ensures justCompletedPhaseIndex == Some(k) && showPhaseCompletionModal && !isSummaryLoading
      ensures phaseSummary == Some(if summary.Some? then summary.value else SummaryFallback)
    {
      justCompletedPhaseIndex := Some(k);
      phaseSummary := None;
      isSummaryLoading := true;
      showPhaseCompletionModal := true;
      match summary {
        case Some(s) =>
          phaseSummary := Some(s);
          SaveRoadmap(WithSummary(t, k, s));
        case None =>
          phaseSummary := Some(SummaryFallback);
      }
      isSummaryLoading := false;
    }

    /** `handleResetPhase`. */
    method HandleResetPhase(phaseIndex: int)
      requires career.Some?
      modifies this`roadmap, this`roadmaps
      ensures old(roadmap).None? ==> roadmap == old(roadmap) && roadmaps == old(roadmaps)
      ensures old(roadmap).Some? ==>
        && roadmap == Some(ResetPhaseAt(old(roadmap).value, phaseIndex))
        && roadmaps == old(roadmaps)[career.value.id := ResetPhaseAt(old(roadmap).value, phaseIndex)]
    {
      if roadmap.None? {
        return;
      }
      SaveRoadmap(ResetPhaseAt(roadmap.value, phaseIndex));
    }

    /** `handleResetRoadmap`. */
    method HandleResetRoadmap()
      requires career.Some?
      modifies this`roadmap, this`roadmaps
      ensures old(roadmap).None? ==> roadmap == old(roadmap) && roadmaps == old(roadmaps)
      ensures old(roadmap).Some? ==>
        && roadmap == Some(ResetAll(old(roadmap).value))
        && roadmaps == old(roadmaps)[career.value.id := ResetAll(old(roadmap).value)]
    {
      if roadmap.None? {
        return;
      }
      SaveRoadmap(ResetAll(roadmap.value));
    }

    /** `handleResetAll`, once confirmed: the stored roadmap of every career of the user is
        reset, then the shown roadmap (as `handleResetRoadmap`). */
    method HandleResetAll(confirmed: bool)
      requires career.Some?
      modifies this`roadmap, this`roadmaps
      ensures !confirmed ==> roadmap == old(roadmap) && roadmaps == old(roadmaps)
      ensures confirmed && old(roadmap).None? ==>
        roadmap == old(roadmap) && roadmaps == ResetStored(old(roadmaps), CareerIds(user.activeCareers))
      ensures confirmed && old(roadmap).Some? ==>
        && roadmap == Some(ResetAll(old(roadmap).value))
        && roadmaps == ResetStored(old(roadmaps), CareerIds(user.activeCareers))[career.value.id := ResetAll(old(roadmap).value)]
    {
      if !confirmed {
        return;
      }
      var i := 0;
      while i < |user.activeCareers|
        invariant 0 <= i <= |user.activeCareers|
        invariant roadmaps == ResetStored(old(roadmaps), CareerIds(user.activeCareers[..i]))
        invariant roadmap == old(roadmap)
      {
        var id := user.activeCareers[i].careerId;
        CareerIdsSnoc(user.activeCareers, i);
        ResetStoredStep(old(roadmaps), CareerIds(user.activeCareers[..i]), id);
        if id in roadmaps {
          roadmaps := roadmaps[id := ResetAll(roadmaps[id])];
        }
        i := i + 1;
      }
      assert user.activeCareers[..i] == user.activeCareers;
      HandleResetRoadmap();
    }

    /** `finishSimulation`: the score is added to the experience points and saved; reaching a
        positive multiple of 1000 announces a milestone. */
    method FinishSimulation(score: int)
      modifies this`user, this`users, this`milestone
      ensures user == old(user).(xp := old(user).xp + score) && users == old(users)[user.id := user]
      ensures milestone == (if user.xp > 0 && user.xp % 1000 == 0 then Some(XpMilestone(user.xp)) else old(milestone))
    {
      SaveUser(user.(xp := user.xp + score));
      if user.xp > 0 && user.xp % 1000 == 0 {
        milestone := Some(XpMilestone(user.xp));
      }
    }

    /** `handleSwitchCareer`, once its delay has passed: the shown roadmap is dropped; when the
        career was saved it is shown with its roadmap (or an empty one) and becomes the
        current career. */
    method HandleSwitchCareer(careerId: string)
      modifies this`career, this`roadmap, this`user, this`users
      ensures careerId !in careerData ==>
        roadmap.None? && career == old(career) && user == old(user) && users == old(users)
      ensures careerId in careerData ==>
        && career == Some(careerData[careerId])
        && roadmap == Some(if careerId in roadmaps then roadmaps[careerId] else [])
        && user == old(user).(currentCareerId := Some(careerId)) && users == old(users)[user.id := user]
    {
      roadmap := None;
      if careerId in careerData {
        career := Some(careerData[careerId]);
        roadmap := Some(if careerId in roadmaps then roadmaps[careerId] else []);
        SaveUser(user.(currentCareerId := Some(careerId)));
      }
    }

    /** The progress effect, which runs whenever the roadmap changes. */
    method UpdateProgress()
      modifies this`progress, this`showCelebration
      ensures progress == Progress(roadmap)
      ensures showCelebration == (old(showCelebration) || (roadmap.Some? && Celebrate(old(progress), progress)))
    {
      if roadmap.Some? {
        var total, completed := CountItems(roadmap.value);
        var calculatedProgress := if total == 0 then 0 else RoundRatio(100 * completed, total);
        if calculatedProgress == 100 && progress != 100 && progress != 0 {
          showCelebration := true;
        }
        progress := calculatedProgress;
      } else {
        progress := 0;
      }
    }

    /** The first step of `handleAdaptation`: the date to use is saved on the current
        career when it differs from the stored one. */
    method SaveTargetDate(d: CareerEntry, customTargetDate: Option<int>)
      requires career.Some?
      modifies this`user, this`users
      ensures user == old(user).(activeCareers := AdaptedCareers(old(user).activeCareers, career.value.id, d, customTargetDate))
      ensures TargetToUse(d, customTargetDate) != d.targetCompletionDate ==> users == old(users)[user.id := user]
      ensures TargetToUse(d, customTargetDate) == d.targetCompletionDate ==> users == old(users) && user == old(user)
    {
      var targetDateToUse := if customTargetDate.Some? then customTargetDate else d.targetCompletionDate;
      if targetDateToUse != d.targetCompletionDate {
        var updatedCareers := SetTargetDate(user.activeCareers, career.value.id, targetDateToUse);
        SaveUser(user.(activeCareers := updatedCareers));
      }
    }

    /** `handleAdaptation`: saves a changed target date first, then replaces the roadmap by
        its completed phases followed by what `generate` returns (`[]` when generation
        failed), starting the numbering after the completed phases. */
    method HandleAdaptation(strategy: Gemini.Strategy, customTargetDate: Option<int>,
                            generate: Gemini.GenerationRequest -> Roadmap)
      requires career.Some?
      modifies this`user, this`users, this`roadmap, this`roadmaps, this`isAdapting, this`showAdaptationModal,
               this`showDateStrategyModal, this`showDateEdit, this`showPhaseCompletionModal
      ensures old(Details()).None? || old(roadmap).None? ==>
        && user == old(user) && users == old(users) && roadmap == old(roadmap) && roadmaps == old(roadmaps)
        && isAdapting == old(isAdapting) && showAdaptationModal == old(showAdaptationModal)
        && showDateStrategyModal == old(showDateStrategyModal) && showDateEdit == old(showDateEdit)
        && showPhaseCompletionModal == old(showPhaseCompletionModal)
      ensures old(Details()).Some? && old(roadmap).Some? ==>
        && user == old(user).(activeCareers := AdaptedCareers(old(user).activeCareers, career.value.id,
                                                              old(Details()).value, customTargetDate))
        && (TargetToUse(old(Details()).value, customTargetDate) != old(Details()).value.targetCompletionDate ==>
              users == old(users)[user.id := user])
        && (TargetToUse(old(Details()).value, customTargetDate) == old(Details()).value.targetCompletionDate ==>
              users == old(users))
      ensures old(Details()).Some? && old(roadmap).Some? ==>
        var final := Adapt(old(roadmap).value, generate(AdaptationRequest(career.value.title, old(Details()).value,
                                                                          old(roadmap).value, strategy, customTargetDate)));
        && roadmap == Some(final) && roadmaps == old(roadmaps)[career.value.id := final]
        && !isAdapting && !showAdaptationModal && !showDateStrategyModal && !showDateEdit
        && !showPhaseCompletionModal
    {
      var details := Details();
      if details.None? || roadmap.None? {
        return;
      }
      AdaptWith(details.value, roadmap.value, strategy, customTargetDate, generate);
    }

    /** The body of `handleAdaptation` once the career details `d` and the roadmap `r` are
        known. */
    method AdaptWith(d: CareerEntry, r: Roadmap, strategy: Gemini.Strategy, customTargetDate: Option<int>,
                     generate: Gemini.GenerationRequest -> Roadmap)
      requires career.Some?
      modifies this`user, this`users, this`roadmap, this`roadmaps, this`isAdapting, this`showAdaptationModal,
               this`showDateStrategyModal, this`showDateEdit, this`showPhaseCompletionModal
      ensures user == old(user).(activeCareers := AdaptedCareers(old(user).activeCareers, career.value.id, d, customTargetDate))
      ensures TargetToUse(d, customTargetDate) != d.targetCompletionDate ==> users == old(users)[user.id := user]
      ensures TargetToUse(d, customTargetDate) == d.targetCompletionDate ==> users == old(users)
      ensures var final := Adapt(r, generate(AdaptationRequest(career.value.title, d, r, strategy, customTargetDate)));
              roadmap == Some(final) && roadmaps == old(roadmaps)[career.value.id := final]
      ensures !isAdapting && !showAdaptationModal && !showDateStrategyModal && !showDateEdit
              && !showPhaseCompletionModal
    {
      isAdapting := true;
      var completedPhases := CompletedPhases(r);
      SaveTargetDate(d, customTargetDate);
      var newPhases := generate(AdaptationRequest(career.value.title, d, r, strategy, customTargetDate));
      FinishAdaptation(completedPhases + newPhases);
    }

    /** The end of `handleAdaptation`: the new roadmap is saved and the dialogs close. */
    method FinishAdaptation(finalMap: Roadmap)
      requires career.Some?
      modifies this`roadmap, this`roadmaps, this`isAdapting, this`showAdaptationModal,
               this`showDateStrategyModal, this`showDateEdit, this`showPhaseCompletionModal
      ensures roadmap == Some(finalMap) && roadmaps == old(roadmaps)[career.value.id := finalMap]
      ensures !isAdapting && !showAdaptationModal && !showDateStrategyModal && !showDateEdit
              && !showPhaseCompletionModal
    {
      SaveRoadmap(finalMap);
      showAdaptationModal := false;
      showDateStrategyModal := false;
      showDateEdit := false;
      showPhaseCompletionModal := false;
      isAdapting := false;
    }

    /** `handleFinishQuicker`: moves only the current career's deadline to
        `today + max(0, estimate - 1)`; the roadmap stays as it is. */
    method HandleFinishQuicker(today: int)
      requires career.Some?
      modifies this`user, this`users, this`showPhaseCompletionModal
      ensures old(Details()).None? || roadmap.None? ==>
        user == old(user) && users == old(users) && showPhaseCompletionModal == old(showPhaseCompletionModal)
      ensures old(Details()).Some? && roadmap.Some? ==>
        && user == old(user).(activeCareers := SetTargetDate(old(user).activeCareers, career.value.id,
                                                             Some(today + FinishOffset(roadmap.value))))
        && users == old(users)[user.id := user]
        && !showPhaseCompletionModal
    {
      if Details().None? || roadmap.None? {
        return;
      }
      var r := roadmap.value;
      var daysNeeded := Gemini.CalculateRemainingDays(r);
      var offset := if daysNeeded - 1 > 0 then daysNeeded - 1 else 0;
      assert offset == FinishOffset(r);
      MoveDeadline(today + offset);
      assert roadmap == Some(r);
    }

    /** The end of `handleFinishQuicker`: the current career gets the new deadline, the user
        is saved and the phase dialog closes. */
    method MoveDeadline(newTarget: int)
      requires career.Some?
      modifies this`user, this`users, this`showPhaseCompletionModal
      ensures user == old(user).(activeCareers := SetTargetDate(old(user).activeCareers, career.value.id, Some(newTarget)))
      ensures users == old(users)[user.id := user] && !showPhaseCompletionModal
    {
      var updatedCareers := SetTargetDate(user.activeCareers, career.value.id, Some(newTarget));
      SaveUser(user.(activeCareers := updatedCareers));
      showPhaseCompletionModal := false;
    }

    /** The pencil button: the date dialog opens on the stored target date. */
    method EditTargetDate()
      requires career.Some?
      modifies this`pendingTargetDate, this`showDateEdit
      ensures pendingTargetDate == (if Details().Some? then Details().value.targetCompletionDate else None)
      ensures showDateEdit
    {
      var d := Details();
      pendingTargetDate := if d.Some? then d.value.targetCompletionDate else None;
      showDateEdit := true;
    }

    /** The date input of the date dialog: the picked date becomes the pending one; a
        cleared input is `None`. */
    method EditPendingTargetDate(d: Option<int>)
      modifies this`pendingTargetDate
      ensures pendingTargetDate == d
    {
      pendingTargetDate := d;
    }

    /** The cancel button of the date dialog: it closes and the pending date stays. */
    method CancelDateEdit()
      modifies this`showDateEdit
      ensures !showDateEdit
    {
      showDateEdit := false;
    }

    /** The cancel button of the strategy dialog. */
    method CancelDateStrategy()
      modifies this`showDateStrategyModal
      ensures !showDateStrategyModal
    {
      showDateStrategyModal := false;
    }

    /** `initiateDateUpdate`: with an edited date and a current career, closes the date
        dialog and opens the strategy dialog for an extension or a shortening. */
    method InitiateDateUpdate()
      requires career.Some?
      modifies this`showDateEdit, this`showDateStrategyModal, this`dateStrategyType
      ensures pendingTargetDate.None? || Details().None? ==>
        showDateEdit == old(showDateEdit) && showDateStrategyModal == old(showDateStrategyModal)
        && dateStrategyType == old(dateStrategyType)
      ensures pendingTargetDate.Some? && Details().Some? ==>
        !showDateEdit && showDateStrategyModal
        && dateStrategyType == Some(Classify(Details().value.targetCompletionDate, pendingTargetDate.value))
    {
      var d := Details();
      if pendingTargetDate.None? || d.None? {
        return;
      }
      showDateEdit := false;
      showDateStrategyModal := true;
      dateStrategyType := Some(Classify(d.value.targetCompletionDate, pendingTargetDate.value));
    }

    /** A button of the strategy dialog, as wired: the dialog calls the handler with the
        strategy only, so the edited date never reaches it and the stored date is kept. */
    method ChooseDateStrategyAsWritten(second: bool, generate: Gemini.GenerationRequest -> Roadmap)
      requires career.Some?
      modifies this`user, this`users, this`roadmap, this`roadmaps, this`isAdapting, this`showAdaptationModal,
               this`showDateStrategyModal, this`showDateEdit, this`showPhaseCompletionModal
      ensures user == old(user) && users == old(users)
      ensures old(Details()).Some? && old(roadmap).Some? ==>
        roadmap == Some(Adapt(old(roadmap).value, generate(AdaptationRequest(career.value.title, old(Details()).value,
          old(roadmap).value, OfferedStrategies(dateStrategyType)[if second then 1 else 0], None))))
    {
      var strategy := OfferedStrategies(dateStrategyType)[if second then 1 else 0];
      HandleAdaptation(strategy, None, generate);
    }

    /** A button of the strategy dialog passing the edited date along, which is what the
        date dialog is for: the new date is saved on the career (see `EditedDateApplied`)
        and used for generation. */
    method ChooseDateStrategy(second: bool, generate: Gemini.GenerationRequest -> Roadmap)
      requires career.Some?
      modifies this`user, this`users, this`roadmap, this`roadmaps, this`isAdapting, this`showAdaptationModal,
               this`showDateStrategyModal, this`showDateEdit, this`showPhaseCompletionModal
      ensures old(Details()).Some? && old(roadmap).Some? ==>
        && user.activeCareers == AdaptedCareers(old(user).activeCareers, career.value.id, old(Details()).value, pendingTargetDate)
        && roadmap == Some(Adapt(old(roadmap).value, generate(AdaptationRequest(career.value.title, old(Details()).value,
             old(roadmap).value, OfferedStrategies(dateStrategyType)[if second then 1 else 0], pendingTargetDate))))
    {
      var strategy := OfferedStrategies(dateStrategyType)[if second then 1 else 0];
      HandleAdaptation(strategy, pendingTargetDate, generate);
    }

    /** `submitDailyChallenge`: the reward rules, the challenge dates on the user and the
        current career, the milestone and the feedback text. */
    method SubmitDailyChallenge(optionIndex: int, today: int)
      requires career.Some?
      modifies this`user, this`users, this`milestone, this`dailyFeedback
      ensures dailyChallenge.None? || old(Details()).None? ==>
        user == old(user) && users == old(users) && milestone == old(milestone) && dailyFeedback == old(dailyFeedback)
      ensures dailyChallenge.Some? && old(Details()).Some? ==>
        var isCorrect := optionIndex == dailyChallenge.value.correctAnswer;
        var first := old(user).lastDailyChallenge != Some(today);
        var reward := Reward(old(user).xp, old(user).streak, first, isCorrect);
        var m := MilestoneFor(first, isCorrect, reward.1, reward.0);
        && user == old(user).(xp := reward.0, streak := reward.1, lastDailyChallenge := Some(today),
                              activeCareers := SetLastChallenge(old(user).activeCareers, career.value.id, today))
        && users == old(users)[user.id := user]
        && milestone == (if m.Some? then m else old(milestone))
        && dailyFeedback == Some(Feedback(isCorrect, FeedbackText(dailyChallenge.value.explanation, first)))
    {
      if dailyChallenge.None? || Details().None? {
        return;
      }
      var isCorrect := optionIndex == dailyChallenge.value.correctAnswer;
      var isFirstDailyGlobal := user.lastDailyChallenge != Some(today);
      var newXp := user.xp;
      var newStreak := user.streak;
      if isFirstDailyGlobal {
        newXp := if isCorrect then user.xp + 10 else user.xp;
        newStreak := if isCorrect then user.streak + 1 else user.streak;
      }
      var updatedActiveCareers := SetLastChallenge(user.activeCareers, career.value.id, today);
      SaveUser(user.(xp := newXp, streak := newStreak, lastDailyChallenge := Some(today),
                     activeCareers := updatedActiveCareers));
      if isFirstDailyGlobal && isCorrect {
        if newStreak > 0 && newStreak % 100 == 0 {
          milestone := Some(StreakMilestone(newStreak));
        } else if newXp > 0 && newXp % 1000 == 0 {
          milestone := Some(XpMilestone(newXp));
        }
      }
      var feedbackText := dailyChallenge.value.explanation;
      if !isFirstDailyGlobal {
        feedbackText := feedbackText + AlreadyCollected;
      }
      dailyFeedback := Some(Feedback(isCorrect, feedbackText));
    }

    /** `handleDeleteCareer`: drops the career from the user and from the store, moves the
        current career to the first remaining one when it was deleted, and asks for a new
        career when none remain. */
    method HandleDeleteCareer(careerId: string)
      modifies this`user, this`users, this`careerData, this`roadmaps, this`career, this`roadmap,
               this`addCareerRequested
      ensures var rest := RemoveCareer(old(user).activeCareers, careerId);
        && user == old(user).(activeCareers := rest, currentCareerId := NextCareerId(old(user), careerId))
        && users == old(users)[user.id := user]
        && careerData == old(careerData) - {careerId} && roadmaps == old(roadmaps) - {careerId}
        && (rest == [] ==> career.None? && roadmap.None? && addCareerRequested)
        && (rest != [] && old(user).currentCareerId == Some(careerId) ==>
              career == Lookup(old(careerData), rest[0].careerId)
              && roadmap == Some(if rest[0].careerId in old(roadmaps) then old(roadmaps)[rest[0].careerId] else [])
              && addCareerRequested == old(addCareerRequested))
        && (rest != [] && old(user).currentCareerId != Some(careerId) ==>
              career == old(career) && roadmap == old(roadmap) && addCareerRequested == old(addCareerRequested))
    {
      var updatedActiveCareers := RemoveCareer(user.activeCareers, careerId);
      var nextCareerId := user.currentCareerId;
      var nextCareerOption := career;
      var nextRoadmap := roadmap;
      if user.currentCareerId == Some(careerId) {
        if |updatedActiveCareers| > 0 {
          nextCareerId := Some(updatedActiveCareers[0].careerId);
          nextCareerOption := Lookup(careerData, updatedActiveCareers[0].careerId);
          nextRoadmap := Lookup(roadmaps, updatedActiveCareers[0].careerId);
        } else {
          nextCareerId := None;
        }
      }
      var deletedWasCurrent := user.currentCareerId == Some(careerId);
      careerData := careerData - {careerId};
      roadmaps := roadmaps - {careerId};
      SaveUser(user.(activeCareers := updatedActiveCareers, currentCareerId := nextCareerId));
      if |updatedActiveCareers| == 0 {
        career := None;
        roadmap := None;
        addCareerRequested := true;
      } else if deletedWasCurrent {
        career := nextCareerOption;
        roadmap := Some(if nextRoadmap.Some? then nextRoadmap.value else []);
      }
    }
  }
}
