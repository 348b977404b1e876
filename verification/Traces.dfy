/** What one path switch does to the outside world, read off the calls it makes.

    `Observe` folds a trace of adapter calls into a `Progress`: which tunnels are known to be up, whether
    the target has been validated, installed and confirmed, and how many calls were spent. Its field
    `legal` says that every call respected the switching discipline at the moment it was made;
    `MakeBeforeBreak` below spells out what that means for the trace itself. */
module Traces {
  import opened Model
  import opened Backends

  /** One switch of a traffic key from a previous path ("" if none) to a target path. */
  datatype Switch = Switch(
    key: Id,
    target: Id,
    targetTunnels: set<Id>,
    previous: Id,
    previousTunnels: set<Id>,
    queries: bool)

  datatype Progress = Progress(
    legal: bool,
    ensured: set<Id>,
    validated: bool,
    served: bool,
    confirmed: bool,
    withdrawn: bool,
    cleared: bool,
    restored: bool,
    installs: nat,
    attempts: nat,
    slept: nat)

  const START := Progress(true, {}, false, false, false, false, false, false, 0, 0, 0)

  /** May this call be made now? The previous path is broken only once the target is confirmed, no tunnel
      shared by the two paths is ever removed, and a path is installed only on tunnels that are up. */
  predicate Allowed(sw: Switch, p: Progress, call: Call) {
    match call
    case Ensured(t, _, _) => t in sw.targetTunnels + sw.previousTunnels
    case TunnelRemoved(t, _) =>
      && t in sw.targetTunnels + sw.previousTunnels
      && t !in sw.targetTunnels * sw.previousTunnels
      && (t in sw.previousTunnels ==> p.confirmed)
    case Validated(path, _) => path == sw.target
    case Installed(key, path, _) =>
      && key == sw.key
      && (if path == sw.target then p.validated && sw.targetTunnels <= p.ensured
          else path == sw.previous && sw.previousTunnels <= p.ensured)
    case Withdrawn(key, path, _) =>
      && key == sw.key
      && (path == sw.target || (path == sw.previous && p.confirmed))
    case Queried(key, _) => key == sw.key
    case Slept(_) => true
    case Stamped(_) => true
  }

  /** What is known after one more call. */
  function Advance(sw: Switch, p: Progress, call: Call): Progress {
    match call
    case Ensured(t, ok, _) => p.(ensured := if ok then p.ensured + {t} else p.ensured, attempts := p.attempts + 1)
    case TunnelRemoved(t, ok) => p.(ensured := if ok then p.ensured - {t} else p.ensured)
    case Validated(_, usable) => p.(validated := usable)
    case Installed(_, path, ok) =>
      p.(installs := p.installs + 1,
         served := p.served || (ok && path == sw.target),
         confirmed := p.confirmed || (ok && path == sw.target && !sw.queries),
         restored := p.restored || (ok && path != sw.target))
    case Withdrawn(_, path, ok) =>
      p.(withdrawn := p.withdrawn || (ok && path == sw.target), cleared := p.cleared || (ok && path != sw.target))
    case Queried(_, answer) => p.(confirmed := p.confirmed || (p.served && answer == Some(sw.target)))
    case Slept(ms) => p.(slept := p.slept + ms)
    case Stamped(_) => p
  }

  function Next(sw: Switch, p: Progress, call: Call): Progress {
    Advance(sw, p, call).(legal := p.legal && Allowed(sw, p, call))
  }

  ghost function Observe(sw: Switch, trace: seq<Call>): Progress {
    if |trace| == 0 then START else Next(sw, Observe(sw, trace[..|trace| - 1]), trace[|trace| - 1])
  }

  lemma ObserveStep(sw: Switch, trace: seq<Call>, call: Call)
    ensures Observe(sw, trace + [call]) == Next(sw, Observe(sw, trace), call)
  {
    assert (trace + [call])[..|trace|] == trace;
  }

  lemma ObserveLast(sw: Switch, trace: seq<Call>)
    requires |trace| > 0
    ensures Observe(sw, trace) == Next(sw, Observe(sw, trace[..|trace| - 1]), trace[|trace| - 1])
  {
  }

  lemma ObserveStart(sw: Switch)
    ensures Observe(sw, []) == START
  {
  }

  /** What a single call can have brought about. */
  lemma NextFacts(sw: Switch, p: Progress, call: Call)
    ensures var q := Next(sw, p, call);
            && (q.legal ==> p.legal && Allowed(sw, p, call))
            && (q.legal && call.Installed? ==> call.key == sw.key)
            && (q.legal && call.Validated? ==> call.path == sw.target)
            && (q.legal && call.Queried? ==> call.key == sw.key)
            && (q.served && !p.served ==> call.Installed? && call.path == sw.target && call.ok)
            && (q.confirmed && !p.confirmed ==>
                  if call.Queried? then p.served && call.answer == Some(sw.target)
                  else call.Installed? && call.path == sw.target && call.ok && !sw.queries)
            && (q.validated ==> if call.Validated? then call.usable else p.validated)
            && (forall t :: t in q.ensured && t !in p.ensured ==> call.Ensured? && call.tunnel == t && call.ok)
  {
  }

  // ----- what a legal trace looks like -----

  /** The call breaks the previous path. */
  predicate Breaks(sw: Switch, call: Call) {
    || (call.Withdrawn? && call.path == sw.previous && sw.previous != sw.target)
    || (call.TunnelRemoved? && call.tunnel in sw.previousTunnels)
  }

  /** Before position `i` the target was installed and, if the backend can be asked, reported active. */
  ghost predicate MadeBefore(sw: Switch, trace: seq<Call>, i: nat)
    requires i <= |trace|
  {
    exists j :: 0 <= j < i && trace[j] == Installed(sw.key, sw.target, true) &&
      (sw.queries ==> exists q :: j < q < i && trace[q] == Queried(sw.key, Some(sw.target)))
  }

  /** Every call of a legal trace was allowed by what had happened before it. */
  lemma {:induction false} LegalPrefix(sw: Switch, trace: seq<Call>, n: nat)
    requires Observe(sw, trace).legal && n < |trace|
    ensures Observe(sw, trace[..n]).legal
    ensures Allowed(sw, Observe(sw, trace[..n]), trace[n])
  {
    hide Observe, Next, Allowed;
    var m := |trace| - 1;
    ObserveLast(sw, trace);
    NextFacts(sw, Observe(sw, trace[..m]), trace[m]);
    if n < m {
      LegalPrefix(sw, trace[..m], n);
      assert trace[..m][..n] == trace[..n];
    }
  }

  /** Make before break, on every legal trace: whatever breaks the previous path comes after the target
      was installed and confirmed, and breaks nothing the target shares. */
  lemma MakeBeforeBreak(sw: Switch, trace: seq<Call>, i: nat)
    requires Observe(sw, trace).legal && i < |trace|
    ensures Breaks(sw, trace[i]) ==> MadeBefore(sw, trace, i)
    ensures trace[i].TunnelRemoved? ==> trace[i].tunnel !in sw.targetTunnels * sw.previousTunnels
  {
    LegalPrefix(sw, trace, i);
    if Breaks(sw, trace[i]) {
      ConfirmedMeansMade(sw, trace[..i]);
      MadeInPrefix(sw, trace, i);
    }
  }

  lemma MadeInPrefix(sw: Switch, trace: seq<Call>, n: nat)
    requires n <= |trace| && MadeBefore(sw, trace[..n], n)
    ensures MadeBefore(sw, trace, n)
    ensures MadeBefore(sw, trace, |trace|)
  {
    var before := trace[..n];
    var j :| 0 <= j < n && before[j] == Installed(sw.key, sw.target, true) &&
      (sw.queries ==> exists q :: j < q < n && before[q] == Queried(sw.key, Some(sw.target)));
    assert trace[j] == before[j];
    if sw.queries {
      var q :| j < q < n && before[q] == Queried(sw.key, Some(sw.target));
      assert trace[q] == before[q];
    }
  }

  lemma {:induction false} ServedMeansInstalled(sw: Switch, trace: seq<Call>) returns (j: nat)
    requires Observe(sw, trace).legal && Observe(sw, trace).served
    ensures j < |trace| && trace[j] == Installed(sw.key, sw.target, true)
    decreases |trace|
  {
    hide Observe, Next, Allowed;
    ObserveStart(sw);
    var n := |trace| - 1;
    assert |trace| == 0 ==> trace == [];
    ObserveLast(sw, trace);
    NextFacts(sw, Observe(sw, trace[..n]), trace[n]);
    if Observe(sw, trace[..n]).served { j := ServedMeansInstalled(sw, trace[..n]); } else { j := n; }
  }

  lemma {:induction false} ConfirmedMeansMade(sw: Switch, trace: seq<Call>)
    requires Observe(sw, trace).legal && Observe(sw, trace).confirmed
    ensures MadeBefore(sw, trace, |trace|)
    decreases |trace|
  {
    hide Observe, Next, Allowed;
    ObserveStart(sw);
    var n := |trace| - 1;
    assert |trace| == 0 ==> trace == [];
    ObserveLast(sw, trace);
    NextFacts(sw, Observe(sw, trace[..n]), trace[n]);
    if Observe(sw, trace[..n]).confirmed {
      ConfirmedMeansMade(sw, trace[..n]);
      MadeInPrefix(sw, trace, n);
    } else if trace[n].Queried? {
      var j := ServedMeansInstalled(sw, trace[..n]);
      assert trace[j] == Installed(sw.key, sw.target, true) && trace[n] == Queried(sw.key, Some(sw.target));
    } else {
      assert trace[n] == Installed(sw.key, sw.target, true) && !sw.queries;
    }
  }

  /** Some call brought this tunnel up. */
  ghost predicate BroughtUp(trace: seq<Call>, t: Id) {
    exists k :: 0 <= k < |trace| && trace[k].Ensured? && trace[k].tunnel == t && trace[k].ok
  }

  /** Traffic is never moved onto a path before all its tunnels were brought up and, for the target, before
      the path was validated as usable. */
  lemma InstalledOnReadyPath(sw: Switch, trace: seq<Call>, i: nat)
    requires Observe(sw, trace).legal && i < |trace| && trace[i].Installed?
    ensures trace[i].key == sw.key
    ensures trace[i].path == sw.target ==>
              && Validated(sw.target, true) in trace[..i]
              && forall t :: t in sw.targetTunnels ==> BroughtUp(trace[..i], t)
    ensures trace[i].path != sw.target ==>
              && trace[i].path == sw.previous
              && forall t :: t in sw.previousTunnels ==> BroughtUp(trace[..i], t)
  {
    LegalPrefix(sw, trace, i);
    var p := Observe(sw, trace[..i]);
    if p.validated { ValidatedMeansCalled(sw, trace[..i]); }
    forall t | t in p.ensured ensures BroughtUp(trace[..i], t) {
      EnsuredMeansCalled(sw, trace[..i], t);
    }
  }

  lemma {:induction false} ValidatedMeansCalled(sw: Switch, trace: seq<Call>)
    requires Observe(sw, trace).legal && Observe(sw, trace).validated
    ensures Validated(sw.target, true) in trace
    decreases |trace|
  {
    hide Observe, Next, Allowed;
    ObserveStart(sw);
    var n := |trace| - 1;
    assert |trace| == 0 ==> trace == [];
    ObserveLast(sw, trace);
    NextFacts(sw, Observe(sw, trace[..n]), trace[n]);
    if !trace[n].Validated? { ValidatedMeansCalled(sw, trace[..n]); }
  }

  lemma {:induction false} EnsuredMeansCalled(sw: Switch, trace: seq<Call>, t: Id)
    requires t in Observe(sw, trace).ensured
    ensures BroughtUp(trace, t)
    decreases |trace|
  {
    hide Observe, Next, Allowed;
    ObserveStart(sw);
    var n := |trace| - 1;
    assert |trace| == 0 ==> trace == [];
    ObserveLast(sw, trace);
    NextFacts(sw, Observe(sw, trace[..n]), trace[n]);
    if t in Observe(sw, trace[..n]).ensured {
      EnsuredMeansCalled(sw, trace[..n], t);
      var k :| 0 <= k < n && trace[..n][k].Ensured? && trace[..n][k].tunnel == t && trace[..n][k].ok;
      assert trace[k] == trace[..n][k];
    }
  }

  /** What the trace of a legal switch shows of its progress: the target was installed, withdrawn, or the
      previous path put back, exactly if a call that did it is there and succeeded. */
  lemma {:induction false} ProgressIsCalls(sw: Switch, trace: seq<Call>)
    requires Observe(sw, trace).legal && sw.previous != sw.target
    ensures Observe(sw, trace).served <==> Installed(sw.key, sw.target, true) in trace
    ensures Observe(sw, trace).withdrawn <==> Withdrawn(sw.key, sw.target, true) in trace
    ensures Observe(sw, trace).restored <==> Installed(sw.key, sw.previous, true) in trace
    decreases |trace|
  {
    hide Observe, Next, Allowed;
    ObserveStart(sw);
    if |trace| == 0 {
      assert trace == [];
    } else {
      var n := |trace| - 1;
      ObserveLast(sw, trace);
      CallFacts(sw, Observe(sw, trace[..n]), trace[n]);
      ProgressIsCalls(sw, trace[..n]);
      assert trace == trace[..n] + [trace[n]];
    }
  }

  /** What one legal call adds to them. */
  lemma CallFacts(sw: Switch, p: Progress, call: Call)
    requires Next(sw, p, call).legal && sw.previous != sw.target
    ensures var q := Next(sw, p, call);
            && p.legal
            && (q.served <==> p.served || call == Installed(sw.key, sw.target, true))
            && (q.withdrawn <==> p.withdrawn || call == Withdrawn(sw.key, sw.target, true))
            && (q.restored <==> p.restored || call == Installed(sw.key, sw.previous, true))
  {
    match call
    case Installed(key, path, ok) =>
      assert key == sw.key && path in {sw.target, sw.previous};
    case Withdrawn(key, path, ok) =>
      assert key == sw.key && path in {sw.target, sw.previous};
    case _ =>
  }

  // ----- time spent waiting -----

  /** The waits of `n` retries with a linearly growing backoff. */
  function Backoffs(backoff: nat, n: nat): nat {
    if n == 0 then 0 else Backoffs(backoff, n - 1) + backoff * n
  }

  /** `attempts` rounds of `n` calls. */
  function Times(n: nat, attempts: nat): nat {
    if attempts == 0 then 0 else Times(n, attempts - 1) + n
  }

  lemma {:induction false} TimesIsProduct(n: nat, attempts: nat)
    ensures Times(n, attempts) == attempts * n
  {
    if attempts > 0 { TimesIsProduct(n, attempts - 1); }
  }

  lemma {:induction false} TimesMonotone(n: nat, a: nat, b: nat)
    requires a <= b
    ensures Times(n, a) <= Times(n, b)
  {
    if a < b { TimesMonotone(n, a, b - 1); }
  }

  lemma ProductMonotone(a: nat, b: nat, n: nat)
    requires a <= b
    ensures a * n <= b * n
  {
  }

  lemma {:induction false} BackoffsClosedForm(backoff: nat, n: nat)
    ensures 2 * Backoffs(backoff, n) == backoff * (n * (n + 1))
  {
    if n > 0 {
      BackoffsClosedForm(backoff, n - 1);
      assert (n - 1) * n + 2 * n == n * (n + 1);
      Distribute(backoff, (n - 1) * n, 2 * n);
      assert backoff * (2 * n) == 2 * (backoff * n);
    }
  }

  lemma Distribute(a: int, x: int, y: int)
    ensures a * (x + y) == a * x + a * y
  {
  }

  lemma {:induction false} BackoffsMonotone(backoff: nat, n: nat, m: nat)
    requires n <= m
    ensures Backoffs(backoff, n) <= Backoffs(backoff, m)
  {
    if n < m {
      BackoffsMonotone(backoff, n, m - 1);
      assert backoff * m >= 0;
    }
  }
}
