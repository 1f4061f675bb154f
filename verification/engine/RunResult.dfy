/** `_pick_result`: which step's output becomes the result of a completed run. */
module RunResult {
  import opened Options
  import opened Rows

  function Stamp(step: RunStep): int {
    match step.completedAt
    case None => -1
    case Some(t) => t
  }

  predicate HasVerdict(step: RunStep) {
    step.output.Some? && "overall" in step.output.value
  }

  predicate HasLiveOut(deps: seq<StepDep>, i: nat) {
    exists k | 0 <= k < |deps| :: deps[k].from == i && deps[k].live
  }

  predicate InRange(order: seq<nat>, steps: seq<RunStep>) {
    forall p :: 0 <= p < |order| ==> order[p] < |steps|
  }

  function SucceededOf(order: seq<nat>, steps: seq<RunStep>): (ids: seq<nat>)
    requires InRange(order, steps)
    ensures InRange(ids, steps)
  {
    if order == [] then []
    else if steps[order[0]].status.Succeeded? then [order[0]] + SucceededOf(order[1..], steps)
    else SucceededOf(order[1..], steps)
  }

  function LeavesOf(order: seq<nat>, steps: seq<RunStep>, deps: seq<StepDep>): (ids: seq<nat>)
    requires InRange(order, steps)
    ensures InRange(ids, steps)
  {
    if order == [] then []
    else if !HasLiveOut(deps, order[0]) then [order[0]] + LeavesOf(order[1..], steps, deps)
    else LeavesOf(order[1..], steps, deps)
  }

  ghost predicate LatestFirst(ids: seq<nat>, steps: seq<RunStep>)
    requires InRange(ids, steps)
  {
    forall p, q :: 0 <= p < q < |ids| ==> Stamp(steps[ids[p]]) >= Stamp(steps[ids[q]])
  }

  /** Stable insertion: i stood before every element of `ids`. */
  function Insert(i: nat, ids: seq<nat>, steps: seq<RunStep>): (r: seq<nat>)
    requires i < |steps| && InRange(ids, steps)
    ensures InRange(r, steps)
  {
    if ids == [] || Stamp(steps[i]) >= Stamp(steps[ids[0]]) then [i] + ids
    else [ids[0]] + Insert(i, ids[1..], steps)
  }

  lemma {:induction false} InsertAdds(i: nat, ids: seq<nat>, steps: seq<RunStep>)
    requires i < |steps| && InRange(ids, steps)
    ensures multiset(Insert(i, ids, steps)) == multiset(ids) + multiset{i}
  {
    if ids != [] && Stamp(steps[i]) < Stamp(steps[ids[0]]) {
      InsertAdds(i, ids[1..], steps);
      assert ids == [ids[0]] + ids[1..];
    }
  }

  lemma {:induction false} InsertSorts(i: nat, ids: seq<nat>, steps: seq<RunStep>)
    requires i < |steps| && InRange(ids, steps) && LatestFirst(ids, steps)
    ensures LatestFirst(Insert(i, ids, steps), steps)
  {
    if ids != [] && Stamp(steps[i]) < Stamp(steps[ids[0]]) {
      var rest := Insert(i, ids[1..], steps);
      InsertSorts(i, ids[1..], steps);
      forall q | 0 <= q < |rest| ensures Stamp(steps[rest[q]]) <= Stamp(steps[ids[0]]) {
        InsertAdds(i, ids[1..], steps);
        assert rest[q] in multiset(rest);
      }
    }
  }

  /** `sorted(order, key=ts, reverse=True)` */
  function SortLatestFirst(order: seq<nat>, steps: seq<RunStep>): (r: seq<nat>)
    requires InRange(order, steps)
    ensures InRange(r, steps)
  {
    if order == [] then [] else Insert(order[0], SortLatestFirst(order[1..], steps), steps)
  }

  lemma {:induction false} SortRearranges(order: seq<nat>, steps: seq<RunStep>)
    requires InRange(order, steps)
    ensures multiset(SortLatestFirst(order, steps)) == multiset(order)
    ensures LatestFirst(SortLatestFirst(order, steps), steps)
  {
    if order != [] {
      var rest := SortLatestFirst(order[1..], steps);
      SortRearranges(order[1..], steps);
      InsertAdds(order[0], rest, steps);
      InsertSorts(order[0], rest, steps);
      assert order == [order[0]] + order[1..];
    }
  }

  function FirstVerdict(ids: seq<nat>, steps: seq<RunStep>): (r: Option<nat>)
    requires InRange(ids, steps)
    ensures r.Some? ==> r.value < |steps|
  {
    if ids == [] then None
    else if HasVerdict(steps[ids[0]]) then Some(ids[0])
    else FirstVerdict(ids[1..], steps)
  }

  /** `max(ids, key=ts)`: the first of the latest. */
  function Latest(ids: seq<nat>, steps: seq<RunStep>): (i: nat)
    requires InRange(ids, steps) && ids != []
    ensures i < |steps|
  {
    if |ids| == 1 then ids[0]
    else
      var rest := Latest(ids[1..], steps);
      if Stamp(steps[ids[0]]) >= Stamp(steps[rest]) then ids[0] else rest
  }

  /** `order` is the order in which the query returned the step rows. */
  function PickResult(order: seq<nat>, steps: seq<RunStep>, deps: seq<StepDep>): Option<Dict>
    requires InRange(order, steps)
  {
    var succeeded := SucceededOf(order, steps);
    if succeeded == [] then None
    else
      var leaves := LeavesOf(succeeded, steps, deps);
      var verdictLeaf := FirstVerdict(SortLatestFirst(leaves, steps), steps);
      if verdictLeaf.Some? then steps[verdictLeaf.value].output
      else if leaves != [] then steps[Latest(leaves, steps)].output
      else
        var verdict := FirstVerdict(SortLatestFirst(succeeded, steps), steps);
        if verdict.Some? then steps[verdict.value].output else None
  }

  // ── what the pick promises ───────────────────────────────────────────────

  /** The steps of `ids` that completed at time t, in order. */
  function AtStamp(ids: seq<nat>, steps: seq<RunStep>, t: int): (r: seq<nat>)
    requires InRange(ids, steps)
  {
    if ids == [] then []
    else if Stamp(steps[ids[0]]) == t then [ids[0]] + AtStamp(ids[1..], steps, t)
    else AtStamp(ids[1..], steps, t)
  }

  lemma AtStampOfCons(i: nat, ids: seq<nat>, steps: seq<RunStep>, t: int)
    requires i < |steps| && InRange(ids, steps)
    ensures Stamp(steps[i]) == t ==> AtStamp([i] + ids, steps, t) == [i] + AtStamp(ids, steps, t)
    ensures Stamp(steps[i]) != t ==> AtStamp([i] + ids, steps, t) == AtStamp(ids, steps, t)
  {
    assert ([i] + ids)[1..] == ids;
  }

  lemma {:induction false} InsertIsStable(i: nat, ids: seq<nat>, steps: seq<RunStep>, t: int)
    requires i < |steps| && InRange(ids, steps)
    ensures AtStamp(Insert(i, ids, steps), steps, t) == AtStamp([i] + ids, steps, t)
  {
    if ids != [] && Stamp(steps[i]) < Stamp(steps[ids[0]]) {
      var first, rest := ids[0], ids[1..];
      assert ids == [first] + rest;
      var inserted := Insert(i, rest, steps);
      InsertIsStable(i, rest, steps, t);
      AtStampOfCons(first, inserted, steps, t);
      AtStampOfCons(first, rest, steps, t);
      AtStampOfCons(i, rest, steps, t);
      AtStampOfCons(i, ids, steps, t);
    }
  }

  /** The sort is stable: steps that completed at the same time keep their order, so nothing is
      lost or repeated either. */
  lemma {:induction false} SortIsStable(order: seq<nat>, steps: seq<RunStep>, t: int)
    requires InRange(order, steps)
    ensures AtStamp(SortLatestFirst(order, steps), steps, t) == AtStamp(order, steps, t)
  {
    if order != [] {
      SortIsStable(order[1..], steps, t);
      InsertIsStable(order[0], SortLatestFirst(order[1..], steps), steps, t);
      AtStampOfCons(order[0], SortLatestFirst(order[1..], steps), steps, t);
    }
  }

  /** A succeeded step that no live edge leaves. */
  predicate Leaf(steps: seq<RunStep>, deps: seq<StepDep>, i: nat) {
    i < |steps| && steps[i].status.Succeeded? && !HasLiveOut(deps, i)
  }

  predicate VerdictLeaf(steps: seq<RunStep>, deps: seq<StepDep>, i: nat) {
    Leaf(steps, deps, i) && HasVerdict(steps[i])
  }

  /** The steps the result is chosen from: the verdict-bearing leaves if there are any, else the
      leaves, else the verdict-bearing succeeded steps. */
  ghost predicate Candidate(steps: seq<RunStep>, deps: seq<StepDep>, i: nat) {
    if exists j: nat :: VerdictLeaf(steps, deps, j) then VerdictLeaf(steps, deps, i)
    else if exists j: nat :: Leaf(steps, deps, j) then Leaf(steps, deps, i)
    else i < |steps| && steps[i].status.Succeeded? && HasVerdict(steps[i])
  }

  /** A latest candidate. */
  ghost predicate Winner(steps: seq<RunStep>, deps: seq<StepDep>, v: nat) {
    && Candidate(steps, deps, v) && v < |steps|
    && (forall i: nat :: Candidate(steps, deps, i) && i < |steps| ==> Stamp(steps[i]) <= Stamp(steps[v]))
  }

  ghost predicate SomeCandidate(steps: seq<RunStep>, deps: seq<StepDep>) {
    exists i: nat :: Candidate(steps, deps, i)
  }

  ghost predicate Everything(order: seq<nat>, n: nat) {
    && (forall p :: 0 <= p < |order| ==> order[p] < n)
    && (forall i :: 0 <= i < n ==> i in order)
  }

  ghost predicate Distinct(ids: seq<nat>) {
    forall p, q :: 0 <= p < q < |ids| ==> ids[p] != ids[q]
  }

  /** An order in which a query may return n rows. */
  ghost predicate Order(order: seq<nat>, n: nat) {
    Everything(order, n) && Distinct(order)
  }

  /** The succeeded steps that no live edge leaves. */
  ghost function Finals(steps: seq<RunStep>, deps: seq<StepDep>): set<nat> {
    set i: nat | i < |steps| && steps[i].status == Succeeded
                 && forall k :: 0 <= k < |deps| && deps[k].live ==> deps[k].from != i
  }

  /** The succeeded steps whose output binds "overall". */
  ghost function Deciding(steps: seq<RunStep>): set<nat> {
    set i: nat | i < |steps| && steps[i].status == Succeeded
                 && steps[i].output.Some? && "overall" in steps[i].output.value
  }

  /** Step a completed no later than step b; a step without a completion time counts as earliest. */
  predicate NoLater(a: RunStep, b: RunStep) {
    a.completedAt.None? || (b.completedAt.Some? && a.completedAt.value <= b.completedAt.value)
  }

  /** `r` is the output of a step of `ids` that completed last, or absent if there is none. */
  ghost predicate FromLast(steps: seq<RunStep>, ids: set<nat>, r: Option<Dict>) {
    if ids == {} then r.None?
    else exists v :: v in ids && v < |steps| && r == steps[v].output
                     && forall i :: i in ids && i < |steps| ==> NoLater(steps[i], steps[v])
  }

  /** The final steps that decide, else the final steps, else the deciding ones. */
  ghost function Contenders(steps: seq<RunStep>, deps: seq<StepDep>): set<nat> {
    var finals, deciding := Finals(steps, deps), Deciding(steps);
    if finals * deciding != {} then finals * deciding else if finals != {} then finals else deciding
  }

  ghost predicate RightResult(steps: seq<RunStep>, deps: seq<StepDep>, r: Option<Dict>) {
    FromLast(steps, Contenders(steps, deps), r)
  }

  lemma CandidatesAreContenders(steps: seq<RunStep>, deps: seq<StepDep>)
    ensures forall i :: i in Contenders(steps, deps) ==> i < |steps|
    ensures forall i: nat :: Candidate(steps, deps, i) <==> i in Contenders(steps, deps)
  {
    var finals, deciding := Finals(steps, deps), Deciding(steps);
    forall i: nat ensures Leaf(steps, deps, i) <==> i in finals {}
    forall i: nat ensures VerdictLeaf(steps, deps, i) <==> i in finals * deciding {}
    if finals * deciding != {} {
      var j :| j in finals * deciding;
      assert VerdictLeaf(steps, deps, j);
    } else if finals != {} {
      var j :| j in finals;
      assert Leaf(steps, deps, j);
    }
  }

  lemma WinnerIsRight(steps: seq<RunStep>, deps: seq<StepDep>, v: nat)
    requires Winner(steps, deps, v)
    ensures RightResult(steps, deps, steps[v].output)
  {
    CandidatesAreContenders(steps, deps);
  }

  lemma NoCandidateIsRight(steps: seq<RunStep>, deps: seq<StepDep>)
    requires !SomeCandidate(steps, deps)
    ensures RightResult(steps, deps, None)
  {
    CandidatesAreContenders(steps, deps);
    assert Contenders(steps, deps) == {};
  }

  lemma {:induction false} SucceededMembers(order: seq<nat>, steps: seq<RunStep>)
    requires InRange(order, steps)
    ensures forall i :: i in SucceededOf(order, steps) <==> i in order && steps[i].status.Succeeded?
  {
    if order != [] {
      SucceededMembers(order[1..], steps);
      assert order == [order[0]] + order[1..];
    }
  }

  lemma {:induction false} LeavesMembers(order: seq<nat>, steps: seq<RunStep>, deps: seq<StepDep>)
    requires InRange(order, steps)
    ensures forall i :: i in LeavesOf(order, steps, deps) <==> i in order && !HasLiveOut(deps, i)
  {
    if order != [] {
      LeavesMembers(order[1..], steps, deps);
      assert order == [order[0]] + order[1..];
    }
  }

  lemma PickedSets(order: seq<nat>, steps: seq<RunStep>, deps: seq<StepDep>)
    requires Everything(order, |steps|)
    ensures var succeeded := SucceededOf(order, steps);
            && (forall i: nat :: i in succeeded <==> i < |steps| && steps[i].status.Succeeded?)
            && (forall i: nat :: i in LeavesOf(succeeded, steps, deps) <==> Leaf(steps, deps, i))
  {
    SucceededMembers(order, steps);
    LeavesMembers(SucceededOf(order, steps), steps, deps);
  }

  /** `max` returns a latest one. */
  lemma {:induction false} LatestIsLatest(ids: seq<nat>, steps: seq<RunStep>)
    requires InRange(ids, steps) && ids != []
    ensures Latest(ids, steps) in ids
    ensures forall j :: j in ids ==> Stamp(steps[j]) <= Stamp(steps[Latest(ids, steps)])
  {
    if |ids| > 1 {
      LatestIsLatest(ids[1..], steps);
      assert ids == [ids[0]] + ids[1..];
    }
  }

  lemma {:induction false} FirstVerdictFound(ids: seq<nat>, steps: seq<RunStep>)
    requires InRange(ids, steps) && LatestFirst(ids, steps)
    ensures var r := FirstVerdict(ids, steps);
            && (r.None? <==> forall i :: i in ids ==> !HasVerdict(steps[i]))
            && (r.Some? ==> r.value in ids && HasVerdict(steps[r.value]))
            && (r.Some? ==> forall i :: i in ids && HasVerdict(steps[i]) ==> Stamp(steps[i]) <= Stamp(steps[r.value]))
  {
    if ids != [] {
      assert ids == [ids[0]] + ids[1..];
      if HasVerdict(steps[ids[0]]) {
        forall i | i in ids ensures Stamp(steps[i]) <= Stamp(steps[ids[0]]) {
          var p :| 0 <= p < |ids| && ids[p] == i;
        }
      } else {
        FirstVerdictFound(ids[1..], steps);
      }
    }
  }

  /** The first verdict of the sorted rows is a latest one. */
  lemma FirstVerdictIsLatest(ids: seq<nat>, steps: seq<RunStep>)
    requires InRange(ids, steps)
    ensures var r := FirstVerdict(SortLatestFirst(ids, steps), steps);
            && (r.None? <==> forall i :: i in ids ==> !HasVerdict(steps[i]))
            && (r.Some? ==> r.value in ids && HasVerdict(steps[r.value]))
            && (r.Some? ==> forall i :: i in ids && HasVerdict(steps[i]) ==> Stamp(steps[i]) <= Stamp(steps[r.value]))
  {
    SortRearranges(ids, steps);
    SortedMembers(ids, steps);
    FirstVerdictFound(SortLatestFirst(ids, steps), steps);
  }

  lemma SortedMembers(ids: seq<nat>, steps: seq<RunStep>)
    requires InRange(ids, steps)
    ensures forall i :: i in SortLatestFirst(ids, steps) <==> i in ids
  {
    SortRearranges(ids, steps);
    forall i ensures i in SortLatestFirst(ids, steps) <==> i in ids {
      assert i in multiset(SortLatestFirst(ids, steps)) <==> i in multiset(ids);
    }
  }

  lemma LatestVerdictLeafWins(steps: seq<RunStep>, deps: seq<StepDep>, v: nat)
    requires VerdictLeaf(steps, deps, v)
    requires forall i: nat :: VerdictLeaf(steps, deps, i) ==> Stamp(steps[i]) <= Stamp(steps[v])
    ensures Winner(steps, deps, v)
  {
  }

  lemma LatestLeafWins(steps: seq<RunStep>, deps: seq<StepDep>, v: nat)
    requires Leaf(steps, deps, v) && forall i: nat :: !VerdictLeaf(steps, deps, i)
    requires forall i: nat :: Leaf(steps, deps, i) ==> Stamp(steps[i]) <= Stamp(steps[v])
    ensures Winner(steps, deps, v)
  {
  }

  /** The result is the right one whatever the row order: the output of a latest candidate, and there
      is none exactly when there is no candidate. */
  lemma PickIsWinner(order: seq<nat>, steps: seq<RunStep>, deps: seq<StepDep>) returns (v: nat)
    requires Everything(order, |steps|)
    ensures SomeCandidate(steps, deps) ==>
              Winner(steps, deps, v) && PickResult(order, steps, deps) == steps[v].output
    ensures !SomeCandidate(steps, deps) ==> PickResult(order, steps, deps).None?
    ensures RightResult(steps, deps, PickResult(order, steps, deps))
  {
    v := BestIsPicked(order, steps, deps);
    if SomeCandidate(steps, deps) {
      WinnerIsRight(steps, deps, v);
    } else {
      NoCandidateIsRight(steps, deps);
    }
  }

  lemma BestIsPicked(order: seq<nat>, steps: seq<RunStep>, deps: seq<StepDep>) returns (v: nat)
    requires Everything(order, |steps|)
    ensures SomeCandidate(steps, deps) ==>
              Winner(steps, deps, v) && PickResult(order, steps, deps) == steps[v].output
    ensures !SomeCandidate(steps, deps) ==> PickResult(order, steps, deps).None?
  {
    var succeeded := SucceededOf(order, steps);
    var leaves := LeavesOf(succeeded, steps, deps);
    PickedSets(order, steps, deps);
    if leaves != [] {
      FirstVerdictIsLatest(leaves, steps);
      var verdict := FirstVerdict(SortLatestFirst(leaves, steps), steps);
      if verdict.Some? {
        v := verdict.value;
        forall i: nat | VerdictLeaf(steps, deps, i) ensures Stamp(steps[i]) <= Stamp(steps[v]) {
          assert i in leaves;
        }
        LatestVerdictLeafWins(steps, deps, v);
      } else {
        v := Latest(leaves, steps);
        LatestIsLatest(leaves, steps);
        forall i: nat | Leaf(steps, deps, i)
          ensures !VerdictLeaf(steps, deps, i) && Stamp(steps[i]) <= Stamp(steps[v])
        {
          assert i in leaves;
        }
        LatestLeafWins(steps, deps, v);
      }
    } else {
      assert forall i: nat :: !Leaf(steps, deps, i);
      v := BestVerdictWins(succeeded, steps, deps);
    }
  }

  lemma BestVerdictWins(succeeded: seq<nat>, steps: seq<RunStep>, deps: seq<StepDep>) returns (v: nat)
    requires InRange(succeeded, steps) && forall i: nat :: !Leaf(steps, deps, i)
    requires forall i: nat :: i in succeeded <==> i < |steps| && steps[i].status.Succeeded?
    ensures var verdict := FirstVerdict(SortLatestFirst(succeeded, steps), steps);
            if SomeCandidate(steps, deps) then Winner(steps, deps, v) && verdict == Some(v) else verdict.None?
  {
    FirstVerdictIsLatest(succeeded, steps);
    var verdict := FirstVerdict(SortLatestFirst(succeeded, steps), steps);
    v := if verdict.Some? then verdict.value else 0;
    assert verdict.Some? ==> Candidate(steps, deps, v);
  }

  lemma {:induction false} FirstVerdictIsStable(v: nat, ids: seq<nat>, steps: seq<RunStep>)
    requires v < |steps| && InRange(ids, steps) && HasVerdict(steps[v])
    requires forall i :: i in ids && HasVerdict(steps[i]) ==> Stamp(steps[i]) <= Stamp(steps[v])
    ensures FirstVerdict(Insert(v, ids, steps), steps) == Some(v)
  {
    if ids != [] && Stamp(steps[v]) < Stamp(steps[ids[0]]) {
      FirstVerdictIsStable(v, ids[1..], steps);
      assert Insert(v, ids, steps) == [ids[0]] + Insert(v, ids[1..], steps);
    }
  }

  /** A latest verdict bearer that comes first is the first verdict of the sorted rows. */
  lemma FirstVerdictIsFirst(ids: seq<nat>, steps: seq<RunStep>)
    requires InRange(ids, steps) && ids != [] && HasVerdict(steps[ids[0]])
    requires forall i :: i in ids && HasVerdict(steps[i]) ==> Stamp(steps[i]) <= Stamp(steps[ids[0]])
    ensures FirstVerdict(SortLatestFirst(ids, steps), steps) == Some(ids[0])
  {
    SortedMembers(ids[1..], steps);
    FirstVerdictIsStable(ids[0], SortLatestFirst(ids[1..], steps), steps);
  }

  lemma FirstStaysFirst(order: seq<nat>, steps: seq<RunStep>, deps: seq<StepDep>)
    requires InRange(order, steps) && order != [] && steps[order[0]].status.Succeeded?
    ensures var succeeded := SucceededOf(order, steps);
            && succeeded != [] && succeeded[0] == order[0]
            && var leaves := LeavesOf(succeeded, steps, deps);
               !HasLiveOut(deps, order[0]) ==> leaves != [] && leaves[0] == order[0]
  {
  }

  /** Every latest candidate is the result of some row order: the one that returns it first. */
  lemma WinnerCanBePicked(order: seq<nat>, steps: seq<RunStep>, deps: seq<StepDep>, v: nat)
    requires Everything(order, |steps|) && order != [] && order[0] == v && Winner(steps, deps, v)
    ensures PickResult(order, steps, deps) == steps[v].output
  {
    var succeeded := SucceededOf(order, steps);
    var leaves := LeavesOf(succeeded, steps, deps);
    PickedSets(order, steps, deps);
    FirstStaysFirst(order, steps, deps);
    if leaves == [] {
      assert !exists j: nat :: Leaf(steps, deps, j);
      FirstVerdictIsFirst(succeeded, steps);
    } else {
      assert Leaf(steps, deps, leaves[0]);
      LeafCanBePicked(leaves, steps, deps, v);
    }
  }

  lemma LeafCanBePicked(leaves: seq<nat>, steps: seq<RunStep>, deps: seq<StepDep>, v: nat)
    requires InRange(leaves, steps) && leaves != [] && Winner(steps, deps, v)
    requires forall i: nat :: i in leaves <==> Leaf(steps, deps, i)
    requires !HasLiveOut(deps, v) ==> leaves[0] == v
    ensures var verdict := FirstVerdict(SortLatestFirst(leaves, steps), steps);
            if verdict.Some? then verdict.value == v else Latest(leaves, steps) == v
  {
    assert Leaf(steps, deps, leaves[0]);
    if exists j: nat :: VerdictLeaf(steps, deps, j) {
      assert VerdictLeaf(steps, deps, v);
      forall i | i in leaves && HasVerdict(steps[i]) ensures Stamp(steps[i]) <= Stamp(steps[v]) {
        assert VerdictLeaf(steps, deps, i);
        assert Candidate(steps, deps, i);
      }
      FirstVerdictIsFirst(leaves, steps);
    } else {
      assert Leaf(steps, deps, v);
      forall i | i in leaves ensures Stamp(steps[i]) <= Stamp(steps[v]) && !HasVerdict(steps[i]) {
        assert !VerdictLeaf(steps, deps, i);
        assert Candidate(steps, deps, i);
      }
      NoVerdictLatest(leaves, steps);
    }
  }

  lemma NoVerdictLatest(ids: seq<nat>, steps: seq<RunStep>)
    requires InRange(ids, steps) && ids != []
    requires forall i :: i in ids ==> Stamp(steps[i]) <= Stamp(steps[ids[0]]) && !HasVerdict(steps[i])
    ensures FirstVerdict(SortLatestFirst(ids, steps), steps).None?
    ensures Latest(ids, steps) == ids[0]
  {
    FirstVerdictIsLatest(ids, steps);
    LatestIsFirst(ids, steps);
  }

  lemma LatestIsFirst(ids: seq<nat>, steps: seq<RunStep>)
    requires InRange(ids, steps) && ids != []
    requires forall i :: i in ids ==> Stamp(steps[i]) <= Stamp(steps[ids[0]])
    ensures Latest(ids, steps) == ids[0]
  {
    if |ids| > 1 {
      LatestIsLatest(ids[1..], steps);
      assert Latest(ids[1..], steps) in ids;
    }
  }

  /** The rows in an order that returns row v first. */
  lemma Leading(v: nat, n: nat) returns (order: seq<nat>)
    requires v < n
    ensures Order(order, n) && order != [] && order[0] == v
  {
    order := [v] + seq(v, i requires 0 <= i < v => i) + seq(n - v - 1, i requires 0 <= i < n - v - 1 => v + 1 + i);
    forall i | 0 <= i < n ensures i in order {
      assert order[if i == v then 0 else if i < v then i + 1 else i] == i;
    }
  }

  ghost predicate WinnersAgree(steps: seq<RunStep>, deps: seq<StepDep>) {
    forall v: nat, w: nat :: Winner(steps, deps, v) && Winner(steps, deps, w) ==> steps[v].output == steps[w].output
  }

  /** The result is the same for all row orders exactly when all latest candidates have the same
      output. */
  lemma PickIgnoresRowOrder(steps: seq<RunStep>, deps: seq<StepDep>)
    ensures (forall order, order' :: Order(order, |steps|) && Order(order', |steps|) ==>
               PickResult(order, steps, deps) == PickResult(order', steps, deps))
            <==> WinnersAgree(steps, deps)
  {
    forall order, order' | WinnersAgree(steps, deps) && Order(order, |steps|) && Order(order', |steps|)
      ensures PickResult(order, steps, deps) == PickResult(order', steps, deps)
    {
      var v := PickIsWinner(order, steps, deps);
      var v' := PickIsWinner(order', steps, deps);
    }
    if !WinnersAgree(steps, deps) {
      var v: nat, w: nat :| Winner(steps, deps, v) && Winner(steps, deps, w) && steps[v].output != steps[w].output;
      var order := Leading(v, |steps|);
      var order' := Leading(w, |steps|);
      WinnerCanBePicked(order, steps, deps, v);
      WinnerCanBePicked(order', steps, deps, w);
    }
  }
}
