/** Exactly when the laws of selection survive a clock that is read anew for every candidate
    (src/path_selection.c:143-150): if and only if no two readings lie on different sides of the hold-down. */
module HoldDownLaws {
  import opened Model
  import opened PathSelection
  import opened SelectionLaws

  /** No two of the first `n` readings lie on different sides of the hold-down of a path applied at `sinceMs`. */
  ghost predicate SameSide(sinceMs: int, holdDownMs: int, clock: Clock, n: nat) {
    forall i: nat, j: nat :: i < n && j < n ==> (InHoldDown(sinceMs, holdDownMs, clock(i)) <==> InHoldDown(sinceMs, holdDownMs, clock(j)))
  }

  lemma SameSideIsUnsplit(v: View, holdDownMs: int, clock: Clock, n: nat)
    requires SameSide(v.appliedSinceMs, holdDownMs, clock, n)
    ensures Unsplit(v, holdDownMs, clock, n)
  {
  }

  // ----- the laws, over all controllers and selections with these readings -----

  /** A selection over `n` candidates with this hold-down, in a controller whose active path was applied then. */
  ghost predicate Asked(v: View, sel: Selection, sinceMs: int, holdDownMs: int, n: nat) {
    && v.Valid() && v.appliedSinceMs == sinceMs
    && sel.mode != Explicit && |sel.candidates| == n && sel.constraints.holdDownMs == holdDownMs
  }

  ghost predicate OnceIsEnough(sinceMs: int, holdDownMs: int, clock: Clock, n: nat) {
    forall v: View, sel: Selection, i: nat :: i < n && Asked(v, sel, sinceMs, holdDownMs, n) ==>
      Choose(v, clock, sel) == Choose(v, Frozen(clock(i)), sel)
  }

  ghost predicate FirstUsableAtOnce(sinceMs: int, holdDownMs: int, clock: Clock, n: nat) {
    forall v: View, sel: Selection, i: nat :: i < n && sel.mode == Priority && Asked(v, sel, sinceMs, holdDownMs, n) ==>
      Choose(v, clock, sel) == Choose(v, Frozen(clock(i)), sel)
  }

  ghost predicate OrderIsFree(sinceMs: int, holdDownMs: int, clock: Clock, n: nat) {
    forall v: View, sel: Selection, candidates: seq<Id> ::
      sel.mode == Evaluated && Asked(v, sel, sinceMs, holdDownMs, n) && multiset(candidates) == multiset(sel.candidates) ==>
        Choose(v, clock, sel) == Choose(v, clock, sel.(candidates := candidates))
  }

  ghost predicate NeverFlaps(sinceMs: int, holdDownMs: int, clock: Clock, n: nat) {
    forall v: View, v': View, clock': Clock, sel: Selection, b: Id ::
      Asked(v, sel, sinceMs, holdDownMs, n) && Moved(v, v', b) && b != "" && !v.Active(b) && Choose(v, clock, sel) == Chosen(b) ==>
        Choose(v', clock', sel) == Chosen(b)
  }

  // ----- a controller that tells the sides apart -----

  /** The name of the k-th path. */
  function Name(k: nat): Id { seq(k + 1, _ => 'x') }

  function Names(n: nat): seq<Id> { seq(n, (k: nat) => Name(k)) }

  /** `n` paths of which the `favourite` has the best priority. */
  function PathNamed(k: nat, favourite: nat): Path {
    Path(Name(k), "s", "d", "", "", "", [], [], false, [], if k == favourite then 0 else 1, AdminEnabled)
  }

  function Among(n: nat, favourite: nat): seq<Path> { seq(n, (k: nat) => PathNamed(k, favourite)) }

  const Healthy := Reading(HealthHealthy, 1.0, 0.0, 0, 3)

  /** A healthy active path "a", applied at `sinceMs`, beside the `n` paths. */
  function Beside(n: nat, favourite: nat, sinceMs: int): View {
    View([], Among(n, favourite), seq(n, _ => PathReady), map["a" := Healthy], Some("a"), sinceMs)
  }

  function ByPriority(mode: SelectionMode, candidates: seq<Id>, holdDownMs: int): Selection {
    Selection(mode, "", candidates, Constraints(None, None, None, 0, 0, holdDownMs, [], [], []), [ByAdminPriority])
  }

  lemma NamesDiffer(j: nat, k: nat)
    ensures Name(j) == Name(k) <==> j == k
    ensures Name(j) != "a" && Name(j) != ""
  {
    assert Name(j)[0] == 'x';
    assert |Name(j)| == j + 1 && |Name(k)| == k + 1;
  }

  lemma NamedAt(n: nat, favourite: nat, k: nat)
    requires k < n
    ensures FindPath(Among(n, favourite), Name(k)) == Some(k)
  {
    var paths := Among(n, favourite);
    assert paths[k].pathId == Name(k);
    var found := FindPath(paths, Name(k));
    if found.Some? { NamesDiffer(found.value, k); }
  }

  /** Any of the paths is eligible exactly outside the hold-down. */
  lemma NamedEligible(n: nat, favourite: nat, sinceMs: int, sel: Selection, k: nat, t: int)
    requires k < n && sel == ByPriority(sel.mode, sel.candidates, sel.constraints.holdDownMs)
    ensures var v := Beside(n, favourite, sinceMs);
            v.Known(Name(k)) && (Eligible(v, sel.constraints, Name(k), t) <==> !InHoldDown(sinceMs, sel.constraints.holdDownMs, t))
  {
    NamedAt(n, favourite, k);
    NamesDiffer(k, k);
  }

  /** After a move to one of the paths all of them are eligible, whatever the clock reads. */
  function MovedTo(n: nat, favourite: nat, sinceMs: int, b: Id): View {
    Beside(n, favourite, sinceMs).(applied := Some(b), appliedSinceMs := sinceMs + 1)
  }

  lemma NamedEligibleAfter(n: nat, favourite: nat, sinceMs: int, b: nat, sel: Selection, k: nat, t: int)
    requires k < n && b < n && sel == ByPriority(sel.mode, sel.candidates, sel.constraints.holdDownMs)
    ensures var v := MovedTo(n, favourite, sinceMs, Name(b));
            v.Known(Name(k)) && Eligible(v, sel.constraints, Name(k), t)
  {
    NamedAt(n, favourite, k);
    NamesDiffer(k, k);
    NamesDiffer(b, b);
  }

  /** Among known paths of the collection the favourite comes first. */
  lemma FavouriteIsLeast(v: View, n: nat, favourite: nat, k: nat)
    requires v.paths == Among(n, favourite) && favourite < n && k < n && k != favourite
    ensures Before(v, [ByAdminPriority], Name(favourite), Name(k))
  {
    NamedAt(n, favourite, favourite);
    NamedAt(n, favourite, k);
    assert v.PathOf(Name(favourite)).priority == 0 && v.PathOf(Name(k)).priority == 1;
    assert MetricValue(v, Name(favourite), ByAdminPriority).Less(MetricValue(v, Name(k), ByAdminPriority));
  }

  ghost predicate Named(id: Id, n: nat) { exists k: nat :: k < n && id == Name(k) }

  /** The candidates are `n` of the paths. */
  ghost predicate Lists(candidates: seq<Id>, n: nat) {
    |candidates| == n && forall i :: 0 <= i < n ==> Named(candidates[i], n)
  }

  /** What evaluated selection makes of them: the favourite if it is eligible, another one otherwise. */
  lemma EvaluatedPicks(v: View, clock: Clock, n: nat, favourite: nat, sel: Selection)
    requires v.Valid() && v.paths == Among(n, favourite) && favourite < n && Lists(sel.candidates, n)
    requires sel == ByPriority(Evaluated, sel.candidates, sel.constraints.holdDownMs)
    requires EligibleSet(v, clock, sel) != {}
    ensures Choose(v, clock, sel).Chosen? && Choose(v, clock, sel).path in EligibleSet(v, clock, sel)
    ensures Choose(v, clock, sel) == Chosen(Name(favourite)) <==> Name(favourite) in EligibleSet(v, clock, sel)
  {
    hide Eligible;
    var s := EligibleSet(v, clock, sel);
    forall i | 0 <= i < n ensures v.Known(sel.candidates[i]) {
      var k: nat :| k < n && sel.candidates[i] == Name(k);
      NamedAt(n, favourite, k);
    }
    EligibleAreKnown(v, clock, sel.constraints, sel.candidates);
    if Name(favourite) in s {
      forall x | x in s && x != Name(favourite) ensures Before(v, [ByAdminPriority], Name(favourite), x) {
        var i :| 0 <= i < n && sel.candidates[i] == x;
        var k: nat :| k < n && x == Name(k);
        FavouriteIsLeast(v, n, favourite, k);
      }
      LeastIsUnique(v, [ByAdminPriority], s, Name(favourite), Best(v, [ByAdminPriority], s));
    }
  }

  lemma NamesListed(n: nat)
    ensures Lists(Names(n), n)
  {
    forall i | 0 <= i < n ensures Named(Names(n)[i], n) {
      assert Names(n)[i] == Name(i);
    }
  }

  // ----- the laws hold exactly without a split -----

  /** With a held-down favourite at position `i` and a free path at `j`, selection takes another path. */
  lemma FavouriteHeld(sinceMs: int, holdDownMs: int, clock: Clock, n: nat, i: nat, j: nat)
    requires i < n && j < n && InHoldDown(sinceMs, holdDownMs, clock(i)) && !InHoldDown(sinceMs, holdDownMs, clock(j))
    ensures var v, sel := Beside(n, i, sinceMs), ByPriority(Evaluated, Names(n), holdDownMs);
            && Asked(v, sel, sinceMs, holdDownMs, n)
            && Choose(v, clock, sel).Chosen? && Choose(v, clock, sel) != Chosen(Name(i))
            && (exists b: nat :: b < n && Choose(v, clock, sel) == Chosen(Name(b)))
            && Choose(v, Frozen(clock(j)), sel) == Chosen(Name(i))
  {
    hide Eligible, ExclusionReason;
    var v, sel := Beside(n, i, sinceMs), ByPriority(Evaluated, Names(n), holdDownMs);
    NamesListed(n);
    forall k: nat | k < n
      ensures Eligible(v, sel.constraints, sel.candidates[k], clock(k)) <==> !InHoldDown(sinceMs, holdDownMs, clock(k))
      ensures Eligible(v, sel.constraints, sel.candidates[k], clock(j))
    {
      NamedEligible(n, i, sinceMs, sel, k, clock(k));
      NamedEligible(n, i, sinceMs, sel, k, clock(j));
    }
    var s := EligibleSet(v, clock, sel);
    assert sel.candidates[j] in s;
    assert Name(i) !in s by {
      forall k | 0 <= k < n && sel.candidates[k] == Name(i) ensures k == i { NamesDiffer(k, i); }
    }
    EvaluatedPicks(v, clock, n, i, sel);
    assert sel.candidates[i] in EligibleSet(v, Frozen(clock(j)), sel);
    EvaluatedPicks(v, Frozen(clock(j)), n, i, sel);
  }

  /** Selection is as if the clock had been read once, whenever it was: exactly without a split. */
  lemma OnceIsEnoughExactly(sinceMs: int, holdDownMs: int, clock: Clock, n: nat)
    ensures OnceIsEnough(sinceMs, holdDownMs, clock, n) <==> SameSide(sinceMs, holdDownMs, clock, n)
  {
    hide Choose;
    if SameSide(sinceMs, holdDownMs, clock, n) {
      forall v: View, sel: Selection, i: nat | i < n && Asked(v, sel, sinceMs, holdDownMs, n)
        ensures Choose(v, clock, sel) == Choose(v, Frozen(clock(i)), sel)
      {
        SameSideIsUnsplit(v, holdDownMs, clock, n);
        OneReadingSuffices(v, clock, sel, i);
      }
    } else {
      var i, j := Split(sinceMs, holdDownMs, clock, n);
      FavouriteHeld(sinceMs, holdDownMs, clock, n, i, j);
      assert !OnceIsEnough(sinceMs, holdDownMs, clock, n);
    }
  }

  lemma Split(sinceMs: int, holdDownMs: int, clock: Clock, n: nat) returns (i: nat, j: nat)
    requires !SameSide(sinceMs, holdDownMs, clock, n)
    ensures i < n && j < n && InHoldDown(sinceMs, holdDownMs, clock(i)) && !InHoldDown(sinceMs, holdDownMs, clock(j))
  {
    i, j :| i < n && j < n && (InHoldDown(sinceMs, holdDownMs, clock(i)) <==> !InHoldDown(sinceMs, holdDownMs, clock(j)));
    if !InHoldDown(sinceMs, holdDownMs, clock(i)) { i, j := j, i; }
  }

  /** Priority selection takes the first candidate usable at one and the same time: exactly without a split. */
  lemma FirstUsableExactly(sinceMs: int, holdDownMs: int, clock: Clock, n: nat)
    ensures FirstUsableAtOnce(sinceMs, holdDownMs, clock, n) <==> SameSide(sinceMs, holdDownMs, clock, n)
  {
    hide Choose;
    if SameSide(sinceMs, holdDownMs, clock, n) {
      OnceIsEnoughExactly(sinceMs, holdDownMs, clock, n);
    } else {
      var i, j := Split(sinceMs, holdDownMs, clock, n);
      NothingFreeAtOnce(sinceMs, holdDownMs, clock, n, i, j);
      assert !FirstUsableAtOnce(sinceMs, holdDownMs, clock, n);
    }
  }

  /** At the reading of position `i` every candidate is held down; by their own readings one is not. */
  lemma NothingFreeAtOnce(sinceMs: int, holdDownMs: int, clock: Clock, n: nat, i: nat, j: nat)
    requires i < n && j < n && InHoldDown(sinceMs, holdDownMs, clock(i)) && !InHoldDown(sinceMs, holdDownMs, clock(j))
    ensures var v, sel := Beside(n, i, sinceMs), ByPriority(Priority, Names(n), holdDownMs);
            Asked(v, sel, sinceMs, holdDownMs, n) && Choose(v, clock, sel) != Choose(v, Frozen(clock(i)), sel)
  {
    hide Eligible, ExclusionReason;
    var v, sel := Beside(n, i, sinceMs), ByPriority(Priority, Names(n), holdDownMs);
    forall k: nat | k < n
      ensures v.Known(sel.candidates[k]) && !Eligible(v, sel.constraints, sel.candidates[k], clock(i))
    {
      NamedEligible(n, i, sinceMs, sel, k, clock(i));
    }
    NamedEligible(n, i, sinceMs, sel, j, clock(j));
    assert Eligible(v, sel.constraints, sel.candidates[j], clock(j));
    PriorityIsFirstUsable(v, clock, sel.constraints, sel.candidates);
    PriorityIsFirstUsable(v, Frozen(clock(i)), sel.constraints, sel.candidates);
  }

  /** Evaluated selection does not depend on the order of the candidates: exactly without a split. */
  lemma OrderIsFreeExactly(sinceMs: int, holdDownMs: int, clock: Clock, n: nat)
    ensures OrderIsFree(sinceMs, holdDownMs, clock, n) <==> SameSide(sinceMs, holdDownMs, clock, n)
  {
    hide Choose;
    if SameSide(sinceMs, holdDownMs, clock, n) {
      forall v: View, sel: Selection, candidates: seq<Id> |
        sel.mode == Evaluated && Asked(v, sel, sinceMs, holdDownMs, n) && multiset(candidates) == multiset(sel.candidates)
        ensures Choose(v, clock, sel) == Choose(v, clock, sel.(candidates := candidates))
      {
        SameSideIsUnsplit(v, holdDownMs, clock, n);
        PermutationHasSameMembers(sel.candidates, candidates);
        EvaluatedIgnoresOrder(v, clock, sel, candidates);
      }
    } else {
      var i, j := Split(sinceMs, holdDownMs, clock, n);
      FavouriteHeld(sinceMs, holdDownMs, clock, n, i, j);
      FavouriteSwapped(sinceMs, holdDownMs, clock, n, i, j);
      Swapping(Names(n), i, j);
      assert !OrderIsFree(sinceMs, holdDownMs, clock, n);
    }
  }

  lemma PermutationHasSameMembers(a: seq<Id>, b: seq<Id>)
    requires multiset(a) == multiset(b)
    ensures |a| == |b| && forall id :: id in a <==> id in b
  {
    assert |a| == |multiset(a)| == |multiset(b)| == |b|;
    forall id ensures id in a <==> id in b {
      assert id in a <==> id in multiset(a);
      assert id in b <==> id in multiset(b);
    }
  }

  lemma Swapping(s: seq<Id>, i: nat, j: nat)
    requires i < |s| && j < |s|
    ensures multiset(s[i := s[j]][j := s[i]]) == multiset(s)
  {
  }

  /** With the favourite moved to the free position it is taken. */
  lemma FavouriteSwapped(sinceMs: int, holdDownMs: int, clock: Clock, n: nat, i: nat, j: nat)
    requires i < n && j < n && InHoldDown(sinceMs, holdDownMs, clock(i)) && !InHoldDown(sinceMs, holdDownMs, clock(j))
    ensures var names := Names(n);
            var v, sel := Beside(n, i, sinceMs), ByPriority(Evaluated, names[i := names[j]][j := names[i]], holdDownMs);
            Choose(v, clock, sel) == Chosen(Name(i))
  {
    hide Eligible, ExclusionReason;
    var names := Names(n);
    var v, sel := Beside(n, i, sinceMs), ByPriority(Evaluated, names[i := names[j]][j := names[i]], holdDownMs);
    assert Lists(sel.candidates, n) by {
      forall k | 0 <= k < n ensures Named(sel.candidates[k], n) {
        assert sel.candidates[k] == Name(if k == i then j else if k == j then i else k);
      }
    }
    NamedEligible(n, i, sinceMs, sel, i, clock(j));
    assert sel.candidates[j] == Name(i);
    assert sel.candidates[j] in EligibleSet(v, clock, sel);
    EvaluatedPicks(v, clock, n, i, sel);
  }

  /** Selection that has moved to a path keeps it under unchanged telemetry, whatever the clock reads later:
      exactly without a split. */
  lemma NeverFlapsExactly(sinceMs: int, holdDownMs: int, clock: Clock, n: nat)
    ensures NeverFlaps(sinceMs, holdDownMs, clock, n) <==> SameSide(sinceMs, holdDownMs, clock, n)
  {
    hide Choose;
    if SameSide(sinceMs, holdDownMs, clock, n) {
      forall v: View, v': View, clock': Clock, sel: Selection, b: Id |
        Asked(v, sel, sinceMs, holdDownMs, n) && Moved(v, v', b) && b != "" && !v.Active(b) && Choose(v, clock, sel) == Chosen(b)
        ensures Choose(v', clock', sel) == Chosen(b)
      {
        SameSideIsUnsplit(v, holdDownMs, clock, n);
        NoFlapping(v, clock, v', clock', sel, b);
      }
    } else {
      var i, j := Split(sinceMs, holdDownMs, clock, n);
      var v, sel := Beside(n, i, sinceMs), ByPriority(Evaluated, Names(n), holdDownMs);
      FavouriteHeld(sinceMs, holdDownMs, clock, n, i, j);
      var b: nat :| b < n && Choose(v, clock, sel) == Chosen(Name(b));
      FlapsBack(sinceMs, holdDownMs, n, i, b, sinceMs + 1 + holdDownMs);
      NamesDiffer(b, i);
      assert !NeverFlaps(sinceMs, holdDownMs, clock, n);
    }
  }

  /** After the move the favourite is free and selection goes on to it, at any time. */
  lemma FlapsBack(sinceMs: int, holdDownMs: int, n: nat, favourite: nat, b: nat, t: int)
    requires favourite < n && b < n
    ensures var v, v' := Beside(n, favourite, sinceMs), MovedTo(n, favourite, sinceMs, Name(b));
            && Moved(v, v', Name(b)) && !v.Active(Name(b))
            && Choose(v', Frozen(t), ByPriority(Evaluated, Names(n), holdDownMs)) == Chosen(Name(favourite))
  {
    hide Eligible, ExclusionReason;
    var v, v' := Beside(n, favourite, sinceMs), MovedTo(n, favourite, sinceMs, Name(b));
    var sel := ByPriority(Evaluated, Names(n), holdDownMs);
    NamesListed(n);
    NamesDiffer(b, b);
    NamedEligibleAfter(n, favourite, sinceMs, b, sel, favourite, t);
    assert sel.candidates[favourite] in EligibleSet(v', Frozen(t), sel);
    EvaluatedPicks(v', Frozen(t), n, favourite, sel);
  }

  /** A healthy path that is asked for nothing else is eligible exactly outside the hold-down. */
  lemma PlainEligible(v: View, c: Constraints, id: Id, i: nat, t: int)
    requires v.Valid() && v.nodes == [] && i < |v.paths| && v.paths[i] == PathAt(id)
    requires forall j :: 0 <= j < i ==> v.paths[j].pathId != id
    requires !v.Active(id) && (id in v.health ==> v.health[id].state == HealthHealthy && c.maxRtt.None?)
    requires c == Constraints(c.maxRtt, None, None, 0, 0, c.holdDownMs, [], [], [])
    ensures v.Known(id) && (Eligible(v, c, id, t) <==> !HeldDown(v, c.holdDownMs, t))
  {
    assert FindPath(v.paths, id) == Some(i);
  }

  /** Priority selection between two known candidates. */
  lemma OfTwo(v: View, clock: Clock, sel: Selection, a: Id, b: Id)
    requires v.Valid() && sel.mode == Priority && sel.candidates == [a, b] && v.Known(a) && v.Known(b)
    ensures Choose(v, clock, sel) ==
            if Eligible(v, sel.constraints, a, clock(0)) then Chosen(a)
            else if Eligible(v, sel.constraints, b, clock(1)) then Chosen(b)
            else Rejected(ErrNoCandidate)
  {
    hide Eligible;
    assert ChoosePriority(v, clock, sel.constraints, sel.candidates, 2) == Rejected(ErrNoCandidate);
    assert sel.candidates[0] == a && sel.candidates[1] == b;
    assert ChoosePriority(v, clock, sel.constraints, sel.candidates, 1) ==
           if Eligible(v, sel.constraints, b, clock(1)) then Chosen(b) else Rejected(ErrNoCandidate);
  }

  /** For example: "a" was applied at 1000, is healthy but too slow, and holds down the others for 5000 ms. "p"
      is looked at in its last held millisecond and "b" in the next one; "b" is taken, and given up again
      for "p" under the same telemetry. */
  lemma BoundaryExample(v: View, sel: Selection, clock: Clock)
    requires v == View([], [PathAt("a"), PathAt("p"), PathAt("b")], [PathActive, PathReady, PathReady],
                       map["a" := Reading(HealthHealthy, 50.0, 0.0, 0, 3)], Some("a"), 1000)
    requires sel == Selection(Priority, "", ["p", "b"], Constraints(Some(10.0), None, None, 0, 0, 5000, [], [], []), [])
    requires clock(0) == 5999 && clock(1) == 6000
    ensures Choose(v, clock, sel) == Chosen("b")
    ensures var v' := v.(opState := [PathStandby, PathReady, PathActive], applied := Some("b"), appliedSinceMs := 6001);
            Moved(v, v', "b") && Choose(v', Frozen(20000), sel) == Chosen("p")
    ensures Choose(v, Frozen(5999), sel) == Rejected(ErrNoCandidate) && Choose(v, Frozen(6000), sel) == Chosen("p")
  {
    hide Eligible, ExclusionReason, Choose, FindPath, HeldDown;
    var v' := v.(opState := [PathStandby, PathReady, PathActive], applied := Some("b"), appliedSinceMs := 6001);
    var c := sel.constraints;
    assert v.paths[0].pathId == "a" && v.paths[1].pathId == "p" && v.paths[2].pathId == "b";
    HeldUntil(v, 5999);
    HeldUntil(v, 6000);
    FreeWithoutHealth(v', c.holdDownMs, 20000);
    PlainEligible(v, c, "p", 1, 5999);
    PlainEligible(v, c, "p", 1, 6000);
    PlainEligible(v, c, "b", 2, 5999);
    PlainEligible(v, c, "b", 2, 6000);
    PlainEligible(v', c, "p", 1, 20000);
    OfTwo(v, clock, sel, "p", "b");
    OfTwo(v, Frozen(5999), sel, "p", "b");
    OfTwo(v, Frozen(6000), sel, "p", "b");
    OfTwo(v', Frozen(20000), sel, "p", "b");
  }

  lemma HeldUntil(v: View, t: int)
    requires v.applied == Some("a") && "a" in v.health && v.health["a"].state == HealthHealthy && v.appliedSinceMs == 1000
    ensures HeldDown(v, 5000, t) <==> 1000 <= t < 6000
  {
  }

  lemma FreeWithoutHealth(v: View, holdDownMs: int, t: int)
    requires v.applied.Some? && v.applied.value !in v.health
    ensures !HeldDown(v, holdDownMs, t)
  {
  }

  function PathAt(id: Id): Path { Path(id, "s", "d", "", "", "", [], [], false, [], 0, AdminEnabled) }
}
