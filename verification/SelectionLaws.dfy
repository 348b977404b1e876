/** What path selection promises: soundness, exactness of the error codes, independence of the order
    of evaluated candidates, the hysteresis margin, and the absence of flapping. */
module SelectionLaws {
  import opened Model
  import opened PathSelection

  /** A selected path is always a requested one that had no exclusion reason when it was looked at, whichever
      mode chose it and even when hysteresis kept it. */
  lemma ChosenIsSound(v: View, clock: Clock, sel: Selection, id: Id)
    requires v.Valid() && Choose(v, clock, sel) == Chosen(id)
    ensures v.Known(id)
    ensures if sel.mode == Explicit then id == sel.pathId && Eligible(v, sel.constraints, id, clock(0))
            else exists i :: 0 <= i < |sel.candidates| && sel.candidates[i] == id && Eligible(v, sel.constraints, id, clock(i))
  {
    if sel.mode == Priority { var n := PriorityDecision(v, clock, sel.constraints, sel.candidates, 0); }
  }

  /** Position `n` decides: everything before it is known and excluded, each by its own reading of the clock. */
  ghost predicate Passed(v: View, clock: Clock, c: Constraints, candidates: seq<Id>, n: nat)
    requires v.Valid()
  {
    n <= |candidates| && forall j :: 0 <= j < n ==> v.Known(candidates[j]) && !Eligible(v, c, candidates[j], clock(j))
  }

  /** Priority selection returns exactly the first candidate usable when it was looked at, fails with "not
      found" exactly when an unknown candidate comes before any usable one, and with "no candidate" exactly
      when every candidate is known and excluded. */
  lemma PriorityIsFirstUsable(v: View, clock: Clock, c: Constraints, candidates: seq<Id>)
    requires v.Valid()
    ensures forall id :: ChoosePriority(v, clock, c, candidates, 0) == Chosen(id) <==>
              exists n :: 0 <= n < |candidates| && Passed(v, clock, c, candidates, n) && Eligible(v, c, candidates[n], clock(n)) && candidates[n] == id
    ensures ChoosePriority(v, clock, c, candidates, 0) == Rejected(ErrNotFound) <==>
              exists n :: 0 <= n < |candidates| && Passed(v, clock, c, candidates, n) && !v.Known(candidates[n])
    ensures ChoosePriority(v, clock, c, candidates, 0) == Rejected(ErrNoCandidate) <==> Passed(v, clock, c, candidates, |candidates|)
  {
    var n := PriorityDecision(v, clock, c, candidates, 0);
    assert Passed(v, clock, c, candidates, n);
    forall m: nat | m < |candidates| && Passed(v, clock, c, candidates, m) && (Eligible(v, c, candidates[m], clock(m)) || !v.Known(candidates[m]))
      ensures m == n
    {
    }
  }

  /** Where priority selection, started at position `i`, is decided. */
  lemma {:induction false} PriorityDecision(v: View, clock: Clock, c: Constraints, candidates: seq<Id>, i: nat) returns (n: nat)
    requires v.Valid() && Passed(v, clock, c, candidates, i)
    ensures i <= n && Passed(v, clock, c, candidates, n)
    ensures n < |candidates| ==> !v.Known(candidates[n]) || Eligible(v, c, candidates[n], clock(n))
    ensures ChoosePriority(v, clock, c, candidates, i) ==
            if n == |candidates| then Rejected(ErrNoCandidate)
            else if v.Known(candidates[n]) then Chosen(candidates[n])
            else Rejected(ErrNotFound)
    decreases |candidates| - i
  {
    if i == |candidates| || !v.Known(candidates[i]) || Eligible(v, c, candidates[i], clock(i)) { return i; }
    n := PriorityDecision(v, clock, c, candidates, i + 1);
  }

  /** In evaluated mode "no candidate" means exactly that every candidate is known and excluded. */
  lemma EvaluatedNoCandidate(v: View, clock: Clock, sel: Selection)
    requires v.Valid() && sel.mode == Evaluated
    ensures Choose(v, clock, sel) == Rejected(ErrNoCandidate) <==>
              forall i :: 0 <= i < |sel.candidates| ==>
                v.Known(sel.candidates[i]) && !Eligible(v, sel.constraints, sel.candidates[i], clock(i))
  {
    if forall i :: 0 <= i < |sel.candidates| ==> !Eligible(v, sel.constraints, sel.candidates[i], clock(i)) {
      assert EligibleSet(v, clock, sel) == {};
    } else {
      var i :| 0 <= i < |sel.candidates| && Eligible(v, sel.constraints, sel.candidates[i], clock(i));
      assert sel.candidates[i] in EligibleSet(v, clock, sel);
    }
  }

  // ----- readings of the clock -----

  /** Only the side of the hold-down a reading falls on matters. */
  lemma EligibleBySide(v: View, c: Constraints, id: Id, t: int, t': int)
    requires v.Valid() && (HeldDown(v, c.holdDownMs, t) <==> HeldDown(v, c.holdDownMs, t'))
    ensures Eligible(v, c, id, t) <==> Eligible(v, c, id, t')
  {
  }

  /** Two clocks agree on the side of the hold-down for every candidate. */
  ghost predicate SameSides(v: View, holdDownMs: int, clock: Clock, clock': Clock, n: nat) {
    forall i: nat :: i < n ==> (HeldDown(v, holdDownMs, clock(i)) <==> HeldDown(v, holdDownMs, clock'(i)))
  }

  /** Selections by clocks that agree on the sides are the same. */
  lemma SidesDecide(v: View, clock: Clock, clock': Clock, sel: Selection)
    requires v.Valid() && SameSides(v, sel.constraints.holdDownMs, clock, clock', if sel.mode == Explicit then 1 else |sel.candidates|)
    ensures Choose(v, clock, sel) == Choose(v, clock', sel)
  {
    match sel.mode
    case Explicit => EligibleBySide(v, sel.constraints, sel.pathId, clock(0), clock'(0));
    case Priority => PriorityBySides(v, clock, clock', sel.constraints, sel.candidates, 0);
    case Evaluated =>
      forall i | 0 <= i < |sel.candidates|
        ensures Eligible(v, sel.constraints, sel.candidates[i], clock(i)) <==> Eligible(v, sel.constraints, sel.candidates[i], clock'(i))
      {
        EligibleBySide(v, sel.constraints, sel.candidates[i], clock(i), clock'(i));
      }
      assert EligibleSet(v, clock, sel) == EligibleSet(v, clock', sel);
  }

  lemma {:induction false} PriorityBySides(v: View, clock: Clock, clock': Clock, c: Constraints, candidates: seq<Id>, i: nat)
    requires v.Valid() && i <= |candidates| && SameSides(v, c.holdDownMs, clock, clock', |candidates|)
    ensures ChoosePriority(v, clock, c, candidates, i) == ChoosePriority(v, clock', c, candidates, i)
    decreases |candidates| - i
  {
    if i < |candidates| {
      EligibleBySide(v, c, candidates[i], clock(i), clock'(i));
      PriorityBySides(v, clock, clock', c, candidates, i + 1);
    }
  }

  /** No two of the first `n` readings lie on different sides of the hold-down. Without a usable active path,
      or without a hold-down, this always holds. */
  ghost predicate Unsplit(v: View, holdDownMs: int, clock: Clock, n: nat) {
    forall i: nat, j: nat :: i < n && j < n ==> (HeldDown(v, holdDownMs, clock(i)) <==> HeldDown(v, holdDownMs, clock(j)))
  }

  /** The clock that always reads `t`. */
  function Frozen(t: int): Clock { i => t }

  /** While the readings do not lie on both sides, selection is as if the clock had been read once. */
  lemma OneReadingSuffices(v: View, clock: Clock, sel: Selection, i: nat)
    requires v.Valid() && sel.mode != Explicit && Unsplit(v, sel.constraints.holdDownMs, clock, |sel.candidates|) && i < |sel.candidates|
    ensures Choose(v, clock, sel) == Choose(v, Frozen(clock(i)), sel)
  {
    SidesDecide(v, clock, Frozen(clock(i)), sel);
  }

  /** Permuting (or repeating) the candidates of an evaluated selection changes neither the selected path,
      hysteresis included, nor the error code, while no readings lie on different sides of the hold-down. */
  lemma EvaluatedIgnoresOrder(v: View, clock: Clock, sel: Selection, candidates: seq<Id>)
    requires v.Valid() && sel.mode == Evaluated
    requires forall id :: id in sel.candidates <==> id in candidates
    requires Unsplit(v, sel.constraints.holdDownMs, clock, if |sel.candidates| > |candidates| then |sel.candidates| else |candidates|)
    ensures Choose(v, clock, sel) == Choose(v, clock, sel.(candidates := candidates))
  {
    var other := sel.(candidates := candidates);
    EligibleMembers(v, clock, sel.constraints, sel.candidates, candidates);
    EligibleMembers(v, clock, sel.constraints, candidates, sel.candidates);
    assert EligibleSet(v, clock, sel) == EligibleSet(v, clock, other);
    assert AllKnown(v, sel.candidates) <==> AllKnown(v, candidates) by {
      if AllKnown(v, sel.candidates) {
        forall i | 0 <= i < |candidates| ensures v.Known(candidates[i]) { assert candidates[i] in sel.candidates; }
      }
      if AllKnown(v, candidates) {
        forall i | 0 <= i < |sel.candidates| ensures v.Known(sel.candidates[i]) { assert sel.candidates[i] in candidates; }
      }
    }
  }

  lemma EligibleMembers(v: View, clock: Clock, c: Constraints, a: seq<Id>, b: seq<Id>)
    requires v.Valid() && forall id :: id in a ==> id in b
    requires Unsplit(v, c.holdDownMs, clock, if |a| > |b| then |a| else |b|)
    ensures EligibleAmong(v, clock, c, a) <= EligibleAmong(v, clock, c, b)
  {
    forall i | 0 <= i < |a| && Eligible(v, c, a[i], clock(i)) ensures a[i] in EligibleAmong(v, clock, c, b) {
      assert a[i] in b;
      var j :| 0 <= j < |b| && b[j] == a[i];
      EligibleBySide(v, c, a[i], clock(i), clock(j));
    }
  }

  /** The improvement from one metric value to another reaches `percent` of the baseline. */
  predicate MarginReached(from: real, to: real, percent: real) {
    (from - to) * 100.0 >= percent * Baseline(from)
  }

  /** Hysteresis is exact: with an eligible, usable active path and a primary metric, selection leaves
      the active path for the better `best` if and only if the metric improves by at least the
      configured share of `max(|active|, 1)`. */
  lemma HysteresisMargin(v: View, clock: Clock, sel: Selection, active: Id, percent: real)
    requires v.Valid() && sel.mode == Evaluated && AllKnown(v, sel.candidates)
    requires active != "" && v.applied == Some(active)
    requires active in EligibleSet(v, clock, sel)
    requires v.Health(active).Some? && v.Health(active).value.state.Usable()
    requires sel.constraints.hysteresis == Some(percent)
    requires Keys(sel.comparisonOrder)[0] != ByPathId
    ensures var best := Best(v, sel.comparisonOrder, EligibleSet(v, clock, sel));
            var key := Keys(sel.comparisonOrder)[0];
            var from, to := MetricValue(v, active, key), MetricValue(v, best, key);
            best != active ==>
              && from.Finite? && to.Finite?
              && (Choose(v, clock, sel) == Chosen(best) <==> MarginReached(from.value, to.value, percent))
  {
    var best := Best(v, sel.comparisonOrder, EligibleSet(v, clock, sel));
    if best != active {
      var key := Keys(sel.comparisonOrder)[0];
      BestIsFinite(v, sel.comparisonOrder, best, active);
      var from, to := MetricValue(v, active, key), MetricValue(v, best, key);
      MarginByCrossMultiplication(from.value, to.value, percent);
      assert Retained(v, sel, true, best) <==> ImprovesLessThan(from.value, to, percent);
    }
  }

  /** What compares before a path with a known metric has a known metric too. */
  lemma BestIsFinite(v: View, order: seq<ComparisonKey>, best: Id, active: Id)
    requires Before(v, order, best, active) && Keys(order)[0] != ByPathId
    requires MetricValue(v, active, Keys(order)[0]).Finite?
    ensures MetricValue(v, best, Keys(order)[0]).Finite?
  {
  }

  lemma MarginByCrossMultiplication(from: real, to: real, percent: real)
    ensures ImprovesLessThan(from, Finite(to), percent) <==> !MarginReached(from, to, percent)
  {
    var b := Baseline(from);
    var q := (from - to) / b;
    assert q * b == from - to;
    if q * 100.0 < percent {
      Scale(q * 100.0, percent, b);
    } else {
      ScaleWeak(percent, q * 100.0, b);
    }
  }

  lemma Scale(x: real, y: real, b: real)
    requires x < y && b > 0.0
    ensures x * b < y * b
  {
  }

  lemma ScaleWeak(x: real, y: real, b: real)
    requires x <= y && b > 0.0
    ensures x * b <= y * b
  {
  }

  // ----- no flapping -----

  /** What a move to `b` leaves for the next selection: the same paths and telemetry, `b` applied, and
      no other path released from standby. The clock and the time of the move are arbitrary. */
  predicate Moved(v: View, v': View, b: Id) {
    && v.Valid() && v'.Valid()
    && v'.nodes == v.nodes && v'.paths == v.paths && v'.health == v.health
    && v'.applied == Some(b)
    && forall i :: 0 <= i < |v.paths| && v.paths[i].pathId != b && v.opState[i] == PathStandby ==>
         v'.opState[i] == PathStandby
  }

  /** A path eligible after the move was eligible before it at every reading outside the hold-down, and `b`
      still is, at every reading. */
  lemma EligibleShrinks(v: View, v': View, c: Constraints, b: Id, p: Id, before: int, now: int, after: int)
    requires Moved(v, v', b) && b != "" && !v.Active(b) && Eligible(v, c, b, before)
    ensures Eligible(v', c, b, after)
    ensures Eligible(v', c, p, after) && !HeldDown(v, c.holdDownMs, now) ==> Eligible(v, c, p, now)
  {
    hide PathNodesEnabled, PathSupportsCapabilities, FindPathFrom;
    if Eligible(v', c, p, after) && p != b && !HeldDown(v, c.holdDownMs, now) {
      if v.ActiveExists() && !v.Active(p) && v.StateOf(p) == PathStandby {
        assert v'.StateOf(p) == PathStandby;
      }
      assert ExclusionReason(v', c, p, after).None?;
      assert ExclusionReason(v, c, p, now).None?;
    }
  }

  /** No flapping: once selection has moved from any path, or from none, to `b`, it selects `b` again by
      whatever the clock reads later, while the telemetry stays the same, unless the readings of the move
      lay on both sides of the hold-down. */
  lemma NoFlapping(v: View, clock: Clock, v': View, clock': Clock, sel: Selection, b: Id)
    requires Moved(v, v', b) && b != "" && !v.Active(b)
    requires Choose(v, clock, sel) == Chosen(b) && Unsplit(v, sel.constraints.holdDownMs, clock, |sel.candidates|)
    ensures Choose(v', clock', sel) == Chosen(b)
  {
    ChosenIsSound(v, clock, sel, b);
    match sel.mode
    case Explicit => EligibleShrinks(v, v', sel.constraints, b, b, clock(0), clock(0), clock'(0));
    case Priority => PriorityStays(v, clock, v', clock', sel, b);
    case Evaluated => EvaluatedStays(v, clock, v', clock', sel, b);
  }

  /** Every candidate eligible after the move was eligible when it was looked at, and `b` is eligible anywhere. */
  lemma CandidatesShrink(v: View, clock: Clock, v': View, clock': Clock, sel: Selection, b: Id)
    requires Moved(v, v', b) && b != "" && !v.Active(b) && sel.mode != Explicit
    requires Choose(v, clock, sel) == Chosen(b) && Unsplit(v, sel.constraints.holdDownMs, clock, |sel.candidates|)
    ensures forall i, j :: 0 <= i < |sel.candidates| && 0 <= j < |sel.candidates| && Eligible(v', sel.constraints, sel.candidates[i], clock'(j)) ==>
              Eligible(v, sel.constraints, sel.candidates[i], clock(i))
    ensures forall j: nat :: Eligible(v', sel.constraints, b, clock'(j))
  {
    hide ExclusionReason;
    ChosenIsSound(v, clock, sel, b);
    var k :| 0 <= k < |sel.candidates| && sel.candidates[k] == b && Eligible(v, sel.constraints, b, clock(k));
    NotHeldDown(v, sel.constraints, b, clock(k));
    forall i, j: nat | 0 <= i < |sel.candidates|
      ensures Eligible(v', sel.constraints, sel.candidates[i], clock'(j)) ==> Eligible(v, sel.constraints, sel.candidates[i], clock(i))
      ensures Eligible(v', sel.constraints, b, clock'(j))
    {
      EligibleShrinks(v, v', sel.constraints, b, sel.candidates[i], clock(k), clock(i), clock'(j));
    }
  }

  lemma NotHeldDown(v: View, c: Constraints, b: Id, t: int)
    requires v.Valid() && !v.Active(b) && Eligible(v, c, b, t)
    ensures !HeldDown(v, c.holdDownMs, t)
  {
  }

  lemma PriorityStays(v: View, clock: Clock, v': View, clock': Clock, sel: Selection, b: Id)
    requires Moved(v, v', b) && b != "" && !v.Active(b) && sel.mode == Priority
    requires Choose(v, clock, sel) == Chosen(b) && Unsplit(v, sel.constraints.holdDownMs, clock, |sel.candidates|)
    ensures Choose(v', clock', sel) == Chosen(b)
  {
    hide Eligible;
    CandidatesShrink(v, clock, v', clock', sel, b);
    var n := PriorityDecision(v, clock, sel.constraints, sel.candidates, 0);
    var m := PriorityDecision(v', clock', sel.constraints, sel.candidates, 0);
    assert Eligible(v', sel.constraints, sel.candidates[n], clock'(n));
  }

  lemma EvaluatedStays(v: View, clock: Clock, v': View, clock': Clock, sel: Selection, b: Id)
    requires Moved(v, v', b) && b != "" && !v.Active(b) && sel.mode == Evaluated
    requires Choose(v, clock, sel) == Chosen(b) && Unsplit(v, sel.constraints.holdDownMs, clock, |sel.candidates|)
    ensures Choose(v', clock', sel) == Chosen(b)
  {
    hide Eligible;
    CandidatesShrink(v, clock, v', clock', sel, b);
    ChosenIsSound(v, clock, sel, b);
    var s, s' := EligibleSet(v, clock, sel), EligibleSet(v', clock', sel);
    assert b in s' && s' <= s;
    assert AllKnown(v', sel.candidates);
    assert Best(v, sel.comparisonOrder, s) == b;
    forall x | x in s' && x != b ensures Before(v', sel.comparisonOrder, b, x) {
      assert Before(v, sel.comparisonOrder, b, x);
      SameMetrics(v, v', Keys(sel.comparisonOrder), b, x);
    }
    EligibleAreKnown(v', clock', sel.constraints, sel.candidates);
    LeastIsUnique(v', sel.comparisonOrder, s', b, Best(v', sel.comparisonOrder, s'));
  }

  lemma {:induction false} SameMetrics(v: View, v': View, keys: seq<ComparisonKey>, a: Id, b: Id)
    requires v'.paths == v.paths && v'.health == v.health && v.Known(a) && v.Known(b)
    ensures CompareByKeys(v', keys, a, b) == CompareByKeys(v, keys, a, b)
  {
    if |keys| > 0 { SameMetrics(v, v', keys[1..], a, b); }
  }
}
