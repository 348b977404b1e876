/** What evaluated selection prefers (src/path_selection.c:248-287), over the records: the first key on which two
    paths differ decides, and their names if none does. */
module Preference {
  import opened Model
  import opened Text
  import opened PathSelection

  /** One name comes before another: it is a part of it, or smaller where they first differ. */
  ghost predicate NameBefore(a: Id, b: Id) {
    exists n: nat :: n <= |a| && n <= |b| && a[..n] == b[..n] && n < |b| && (n == |a| || a[n] < b[n])
  }

  lemma {:induction false} StrCmpIsNameBefore(a: Id, b: Id)
    ensures StrCmp(a, b) < 0 <==> NameBefore(a, b)
  {
    if |a| == 0 {
      if |b| > 0 { assert a[..0] == b[..0]; }
    } else if |b| > 0 {
      if a[0] == b[0] {
        StrCmpIsNameBefore(a[1..], b[1..]);
        if NameBefore(a[1..], b[1..]) {
          var n: nat :| n <= |a[1..]| && n <= |b[1..]| && a[1..][..n] == b[1..][..n] && n < |b[1..]| && (n == |a[1..]| || a[1..][n] < b[1..][n]);
          assert a[..n + 1] == [a[0]] + a[1..][..n] && b[..n + 1] == [b[0]] + b[1..][..n];
        }
        if NameBefore(a, b) {
          var n: nat :| n <= |a| && n <= |b| && a[..n] == b[..n] && n < |b| && (n == |a| || a[n] < b[n]);
          assert n > 0;
          assert a[1..][..n - 1] == a[..n][1..] && b[1..][..n - 1] == b[..n][1..];
        }
      } else {
        if a[0] < b[0] { assert a[..0] == b[..0]; }
        forall n: nat | 0 < n <= |a| && n <= |b| ensures a[..n] != b[..n] { assert a[..n][0] != b[..n][0]; }
      }
    }
  }

  /** One path is better than another by this key: it loses less, answers faster, has fewer hops, a smaller
      priority number, or comes first by name. A path without health is worse than any with it. */
  ghost predicate Better(v: View, key: ComparisonKey, a: Id, b: Id)
    requires v.Known(a) && v.Known(b)
  {
    match key
    case ByPacketLoss => a in v.health && (b in v.health ==> v.health[a].packetLossPercent < v.health[b].packetLossPercent)
    case ByLatency => a in v.health && (b in v.health ==> v.health[a].rttMs < v.health[b].rttMs)
    case ByHopCount => |v.PathOf(a).waypoints| < |v.PathOf(b).waypoints|
    case ByAdminPriority => v.PathOf(a).priority < v.PathOf(b).priority
    case ByPathId => NameBefore(a, b)
  }

  /** By this key there is nothing to choose between them. */
  ghost predicate Alike(v: View, key: ComparisonKey, a: Id, b: Id)
    requires v.Known(a) && v.Known(b)
  {
    !Better(v, key, a, b) && !Better(v, key, b, a)
  }

  /** The first key on which they differ, or else their names, speaks for `a`. */
  ghost predicate Prefers(v: View, order: seq<ComparisonKey>, a: Id, b: Id)
    requires v.Known(a) && v.Known(b)
  {
    || (exists n :: 0 <= n < |order| && Better(v, order[n], a, b) && forall m :: 0 <= m < n ==> Alike(v, order[m], a, b))
    || (NameBefore(a, b) && forall m :: 0 <= m < |order| ==> Alike(v, order[m], a, b))
  }

  lemma BetterIsLess(v: View, key: ComparisonKey, a: Id, b: Id)
    requires v.Known(a) && v.Known(b)
    ensures key != ByPathId ==> (Better(v, key, a, b) <==> MetricValue(v, a, key).Less(MetricValue(v, b, key)))
    ensures key == ByPathId ==> (Better(v, key, a, b) <==> StrCmp(a, b) < 0)
  {
    StrCmpIsNameBefore(a, b);
  }

  lemma PrefersStep(v: View, order: seq<ComparisonKey>, a: Id, b: Id)
    requires v.Known(a) && v.Known(b) && |order| > 0
    ensures Prefers(v, order, a, b) <==>
            Better(v, order[0], a, b) || (Alike(v, order[0], a, b) && Prefers(v, order[1..], a, b))
  {
    hide Better;
    if Alike(v, order[0], a, b) && Prefers(v, order[1..], a, b) {
      if n :| 0 <= n < |order[1..]| && Better(v, order[1..][n], a, b) && forall m :: 0 <= m < n ==> Alike(v, order[1..][m], a, b) {
        assert Better(v, order[n + 1], a, b);
        assert forall m :: 0 < m < n + 1 ==> order[m] == order[1..][m - 1];
      } else {
        assert forall m :: 0 < m < |order| ==> order[m] == order[1..][m - 1];
      }
    }
    if Prefers(v, order, a, b) && !Better(v, order[0], a, b) {
      if n :| 0 <= n < |order| && Better(v, order[n], a, b) && forall m :: 0 <= m < n ==> Alike(v, order[m], a, b) {
        assert Better(v, order[1..][n - 1], a, b);
        assert forall m :: 0 <= m < n - 1 ==> order[1..][m] == order[m + 1];
      } else {
        assert forall m :: 0 <= m < |order| - 1 ==> order[1..][m] == order[m + 1];
      }
    }
  }

  lemma {:induction false} CompareIsPrefers(v: View, keys: seq<ComparisonKey>, a: Id, b: Id)
    requires v.Known(a) && v.Known(b)
    ensures CompareByKeys(v, keys, a, b) < 0 <==> Prefers(v, keys, a, b)
  {
    hide Better, MetricValue;
    StrCmpIsNameBefore(a, b);
    StrCmpAntisymmetric(a, b);
    if |keys| > 0 {
      PrefersStep(v, keys, a, b);
      BetterIsLess(v, keys[0], a, b);
      BetterIsLess(v, keys[0], b, a);
      CompareIsPrefers(v, keys[1..], a, b);
    }
  }

  /** The comparison of the source is this preference. */
  lemma BeforeIsPrefers(v: View, order: seq<ComparisonKey>, a: Id, b: Id)
    requires v.Known(a) && v.Known(b)
    ensures Before(v, order, a, b) <==> Prefers(v, order, a, b)
  {
    CompareIsPrefers(v, Keys(order), a, b);
    if |order| == 0 {
      PrefersStep(v, [ByPathId], a, b);
      StrCmpIsNameBefore(a, b);
    }
  }

  /** What evaluated selection chooses without hysteresis is preferred to every other candidate that met all
      rules when it was looked at. */
  lemma BestIsPreferred(v: View, clock: Clock, sel: Selection, b: Id, k: nat)
    requires v.Valid() && sel.mode == Evaluated && Choose(v, clock, sel) == Chosen(b) && !Overruled(v, clock, sel)
    requires k < |sel.candidates| && sel.candidates[k] != b && MeetsAll(v, sel.constraints, sel.candidates[k], clock(k))
    ensures v.Known(b) && v.Known(sel.candidates[k]) && Prefers(v, sel.comparisonOrder, b, sel.candidates[k])
  {
    hide MeetsAll, ExclusionReason, Prefers;
    var x := sel.candidates[k];
    assert v.Known(x);
    ReasonIsFirstBroken(v, sel.constraints, x, clock(k));
    assert x in EligibleSet(v, clock, sel);
    EligibleAreKnown(v, clock, sel.constraints, sel.candidates);
    assert IsLeast(v, sel.comparisonOrder, b, EligibleSet(v, clock, sel));
    BeforeIsPrefers(v, sel.comparisonOrder, b, x);
  }

  /** By the primary key nothing that met all rules is better than what is chosen without hysteresis: no other
      path loses less, answers faster, has fewer hops or a smaller priority number. */
  lemma NothingBetter(v: View, clock: Clock, sel: Selection, b: Id, k: nat)
    requires v.Valid() && sel.mode == Evaluated && Choose(v, clock, sel) == Chosen(b) && !Overruled(v, clock, sel)
    requires k < |sel.candidates| && MeetsAll(v, sel.constraints, sel.candidates[k], clock(k)) && |sel.comparisonOrder| > 0
    ensures v.Known(b) && v.Known(sel.candidates[k]) && !Better(v, sel.comparisonOrder[0], sel.candidates[k], b)
  {
    if sel.candidates[k] == b {
      NotBeforeItself(b);
    } else {
      BestIsPreferred(v, clock, sel, b, k);
      PrefersStep(v, sel.comparisonOrder, b, sel.candidates[k]);
      BetterIsLess(v, sel.comparisonOrder[0], b, sel.candidates[k]);
      BetterIsLess(v, sel.comparisonOrder[0], sel.candidates[k], b);
      StrCmpAntisymmetric(b, sel.candidates[k]);
    }
  }

  lemma NotBeforeItself(a: Id)
    ensures !NameBefore(a, a)
  {
  }
}
