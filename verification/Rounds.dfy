/** The retry discipline of a switch (src/transition.c:92-143), read off the calls it makes: which rounds a phase
    went through, how long it waited between them, and when it gave up. */
module Rounds {
  import opened Model
  import opened Backends
  import opened Traces

  /** What a switch is asked to do, and what it can ask for: for each segment of the path the tunnel that is
      wanted. There is `room` if the table of observed tunnels can take all of them; the probe is `steady` if
      it never fails to answer. */
  datatype Setting = Setting(sw: Switch, wanted: seq<Tunnel>, policy: Policy, offers: Offers, room: bool, steady: bool)

  /** The phases that are retried, in their order. */
  datatype Phase = PreparePhase | ReadyPhase | CommitPhase | ConfirmPhase

  function PhaseAt(n: nat): Phase
    requires n < 4
  {
    if n == 0 then PreparePhase else if n == 1 then ReadyPhase else if n == 2 then CommitPhase else ConfirmPhase
  }

  // ----- one round -----

  /** The calls for the first `|r|` wanted tunnels, all successful but possibly the last one. */
  ghost predicate IsPrepareRound(wanted: seq<Tunnel>, room: bool, r: seq<Call>, ok: bool) {
    && |r| <= |wanted|
    && (forall i :: 0 <= i < |r| ==> r[i] == Ensured(wanted[i].tunnelId, true, wanted[i]) ||
                                     (i == |r| - 1 && !ok && r[i] == Ensured(wanted[i].tunnelId, false, wanted[i])))
    && (if ok then |r| == |wanted| else |r| > 0 && (room ==> !r[|r| - 1].ok))
  }

  ghost predicate IsReadyRound(s: Setting, r: seq<Call>, ok: bool) {
    if s.offers.validatePath then r == [Validated(s.sw.target, ok)] else r == [] && !ok
  }

  function Sleeping(ms: int): seq<Call> {
    if ms > 0 then [Slept(ms)] else []
  }

  /** What a graceful switch waits for traffic to pause and to drain. */
  function Pauses(policy: Policy): seq<Call> {
    if policy.strategy == Graceful then Sleeping(policy.maxPauseMs as int) + Sleeping(policy.drainTimeoutMs as int) else []
  }

  /** An install, and the reading of the clock that is recorded with it. */
  ghost predicate IsInstall(key: Id, path: Id, r: seq<Call>, ok: bool) {
    if ok then |r| == 2 && r[0] == Installed(key, path, true) && r[1].Stamped? else r == [Installed(key, path, false)]
  }

  ghost predicate IsCommitRound(s: Setting, r: seq<Call>, ok: bool) {
    if s.policy.strategy == FlowPreserve then r == [] && !ok
    else if !s.offers.installPath then r == Pauses(s.policy) && !ok
    else
      var n := |Pauses(s.policy)|;
      |r| >= n && r[..n] == Pauses(s.policy) && IsInstall(s.sw.key, s.sw.target, r[n..], ok)
  }

  ghost predicate IsConfirmRound(s: Setting, r: seq<Call>, ok: bool) {
    if !s.offers.activePath then r == [] && ok
    else |r| == 1 && r[0].Queried? && r[0].key == s.sw.key && (ok <==> r[0].answer == Some(s.sw.target))
  }

  /** These are the calls of one round of this phase, and this is how it ended. */
  ghost predicate IsRound(s: Setting, phase: Phase, r: seq<Call>, ok: bool) {
    match phase
    case PreparePhase => IsPrepareRound(s.wanted, s.room, r, ok)
    case ReadyPhase => IsReadyRound(s, r, ok)
    case CommitPhase => IsCommitRound(s, r, ok)
    case ConfirmPhase => IsConfirmRound(s, r, ok)
  }

  // ----- all rounds of a phase -----

  /** The wait after the `n`-th failed round: so many times the backoff, but no more than an `int` holds. */
  function WaitAfter(policy: Policy, n: nat): seq<Call> {
    var ms := policy.retryBackoffMs as int * n;
    Sleeping(if ms > 0x7fff_ffff then 0x7fff_ffff else ms)
  }

  /** Failed rounds, each followed by its wait. */
  function Waiting(policy: Policy, failed: seq<seq<Call>>): seq<Call> {
    if |failed| == 0 then []
    else
      var n := |failed| - 1;
      Waiting(policy, failed[..n]) + failed[n] + WaitAfter(policy, n + 1)
  }

  ghost predicate AllFailed(s: Setting, phase: Phase, failed: seq<seq<Call>>) {
    forall i :: 0 <= i < |failed| ==> IsRound(s, phase, failed[i], false)
  }

  /** The phase went through these failed rounds, with their waits, and then through one last round. It gave up
      only after one round and `retryCount` more. */
  ghost predicate WentThrough(s: Setting, phase: Phase, before: seq<Call>, after: seq<Call>, failed: seq<seq<Call>>, last: seq<Call>, ok: bool) {
    && |failed| <= s.policy.retryCount as int
    && (!ok ==> |failed| == s.policy.retryCount as int)
    && AllFailed(s, phase, failed) && IsRound(s, phase, last, ok)
    && after == before + Waiting(s.policy, failed) + last
  }

  ghost predicate Ran(s: Setting, phase: Phase, before: seq<Call>, after: seq<Call>, ok: bool) {
    exists failed, last :: WentThrough(s, phase, before, after, failed, last, ok)
  }

  /** Still trying: so many rounds have failed and been waited for. */
  ghost predicate Trying(s: Setting, phase: Phase, before: seq<Call>, now: seq<Call>, failed: seq<seq<Call>>) {
    AllFailed(s, phase, failed) && now == before + Waiting(s.policy, failed)
  }

  lemma StartTrying(s: Setting, phase: Phase, before: seq<Call>)
    ensures Trying(s, phase, before, before, [])
  {
  }

  lemma TryAgain(s: Setting, phase: Phase, before: seq<Call>, now: seq<Call>, failed: seq<seq<Call>>, round: seq<Call>)
    requires Trying(s, phase, before, now, failed) && IsRound(s, phase, round, false)
    ensures Trying(s, phase, before, now + round + WaitAfter(s.policy, |failed| + 1), failed + [round])
  {
    var all := failed + [round];
    assert all[..|all| - 1] == failed;
  }

  lemma LastRound(s: Setting, phase: Phase, before: seq<Call>, now: seq<Call>, failed: seq<seq<Call>>, round: seq<Call>, ok: bool)
    requires Trying(s, phase, before, now, failed) && IsRound(s, phase, round, ok)
    requires |failed| <= s.policy.retryCount as int && (!ok ==> |failed| == s.policy.retryCount as int)
    ensures Ran(s, phase, before, now + round, ok)
  {
    assert WentThrough(s, phase, before, now + round, failed, round, ok);
  }

  lemma RanExtends(s: Setting, phase: Phase, before: seq<Call>, after: seq<Call>, ok: bool)
    requires Ran(s, phase, before, after, ok)
    ensures before <= after
  {
  }

  // ----- the whole switch -----

  /** The first `n` phases succeeded one after the other; `marks` are the calls up to each of them. */
  ghost predicate Marked(s: Setting, n: nat, marks: seq<seq<Call>>)
    requires n <= 4
  {
    |marks| == n + 1 && marks[0] == [] && forall k :: 0 <= k < n ==> Ran(s, PhaseAt(k), marks[k], marks[k + 1], true)
  }

  /** The first `n` phases succeeded, and these were their calls. */
  ghost predicate Passed(s: Setting, n: nat, trace: seq<Call>)
    requires n <= 4
  {
    exists marks :: Marked(s, n, marks) && marks[n] == trace
  }

  /** The phase after the first `n` gave up. */
  ghost predicate GaveUp(s: Setting, n: nat, trace: seq<Call>)
    requires n < 4
  {
    exists before :: Passed(s, n, before) && Ran(s, PhaseAt(n), before, trace, false)
  }

  lemma PassNone(s: Setting)
    ensures Passed(s, 0, [])
  {
    assert Marked(s, 0, [[]]);
  }

  lemma PassOne(s: Setting, n: nat, before: seq<Call>, trace: seq<Call>, ok: bool)
    requires n < 4 && Passed(s, n, before) && Ran(s, PhaseAt(n), before, trace, ok)
    ensures if ok then Passed(s, n + 1, trace) else GaveUp(s, n, trace)
  {
    if ok {
      var marks :| Marked(s, n, marks) && marks[n] == before;
      assert Marked(s, n + 1, marks + [trace]);
    }
  }

  /** What breaks the previous path: its forwarding and its tunnels. */
  predicate IsCleanup(sw: Switch, call: Call, ok: bool) {
    call == Withdrawn(sw.key, sw.previous, ok) || (call.TunnelRemoved? && call.tunnel in sw.previousTunnels - sw.targetTunnels && call.ok == ok)
  }

  /** Some of these tunnels were removed, until the first failure. */
  ghost predicate IsRemoval(tunnels: set<Id>, r: seq<Call>, ok: bool) {
    && (!ok ==> |r| > 0)
    && forall i :: 0 <= i < |r| ==> r[i].TunnelRemoved? && r[i].tunnel in tunnels && (r[i].ok <==> ok || i < |r| - 1)
  }

  lemma RemovedOneMore(tunnels: set<Id>, r: seq<Call>, tunnel: Id, ok: bool)
    requires IsRemoval(tunnels, r, true) && tunnel in tunnels
    ensures IsRemoval(tunnels, r + [TunnelRemoved(tunnel, ok)], ok)
  {
  }

  lemma CleanupOf(sw: Switch, withdrawn: bool, r: seq<Call>, ok: bool)
    requires IsRemoval(sw.previousTunnels - sw.targetTunnels, r, ok)
    ensures IsCleanupRound(sw, (if withdrawn then [Withdrawn(sw.key, sw.previous, true)] else []) + r, ok)
  {
  }

  lemma CleanupFails(sw: Switch)
    ensures IsCleanupRound(sw, [Withdrawn(sw.key, sw.previous, false)], false)
    ensures IsCleanupRound(sw, [], true)
  {
  }

  /** Calls of the clean-up, which stops at its first failure. */
  ghost predicate IsCleanupRound(sw: Switch, r: seq<Call>, ok: bool) {
    if ok then forall i :: 0 <= i < |r| ==> IsCleanup(sw, r[i], true)
    else |r| > 0 && IsCleanup(sw, r[|r| - 1], false) && forall i :: 0 <= i < |r| - 1 ==> IsCleanup(sw, r[i], true)
  }

  /** All phases succeeded, and then this came of cleaning up. */
  ghost predicate CleanedUpAfter(s: Setting, trace: seq<Call>, ok: bool) {
    exists before, r :: Passed(s, 4, before) && trace == before + r && IsCleanupRound(s.sw, r, ok)
  }

  /** The error a phase gives up with. What the tunnel backend reports is passed on, and so is what the probe
      reports; a full table is an invalid argument, and whatever goes wrong with forwarding is one error. */
  ghost predicate IsErrorOf(s: Setting, n: nat, trace: seq<Call>, err: ErrorCode) {
    && err != ErrNone
    && (n == 0 && |trace| > 0 && trace[|trace| - 1].Ensured? && trace[|trace| - 1].ok ==> err == ErrInvalidArgument)
    && (n == 1 && !s.offers.validatePath ==> err == ErrInvalidArgument)
    && (n == 1 && s.offers.validatePath && s.steady ==> err == ErrPathValidationFailed)
    && (n >= 2 ==> err == ErrForwardingUpdateFailed)
  }

  /** The error of a failed clean-up. */
  ghost predicate IsCleanupError(trace: seq<Call>, err: ErrorCode) {
    |trace| > 0 && err == if trace[|trace| - 1].Withdrawn? then ErrForwardingUpdateFailed else ErrTunnelEstablishTimeout
  }

  /** Why an attempt failed, and with what error: a phase gave up, or the clean-up failed. */
  ghost predicate Broken(s: Setting, trace: seq<Call>, err: ErrorCode) {
    || (exists n: nat :: n < 4 && GaveUp(s, n, trace) && IsErrorOf(s, n, trace, err))
    || (CleanedUpAfter(s, trace, false) && IsCleanupError(trace, err))
  }

  lemma GivingUpBreaks(s: Setting, n: nat, trace: seq<Call>, err: ErrorCode)
    requires n < 4 && GaveUp(s, n, trace) && IsErrorOf(s, n, trace, err)
    ensures Broken(s, trace, err)
  {
  }

  lemma CleaningUp(s: Setting, before: seq<Call>, r: seq<Call>, err: ErrorCode)
    requires Passed(s, 4, before) && IsCleanupRound(s.sw, r, err == ErrNone) && (err != ErrNone ==> IsCleanupError(r, err))
    ensures if err == ErrNone then CleanedUpAfter(s, before + r, true) else Broken(s, before + r, err)
  {
    if err != ErrNone { assert (before + r)[|before + r| - 1] == r[|r| - 1]; }
  }

  /** These are the calls of an attempt and, if it failed, of the rollback after it; and this is its error. */
  ghost predicate Conducted(s: Setting, trace: seq<Call>, err: ErrorCode) {
    if err == ErrNone then CleanedUpAfter(s, trace, true) else exists attempt :: attempt <= trace && Broken(s, attempt, err)
  }

  lemma ConductedTo(s: Setting, attempt: seq<Call>, trace: seq<Call>, err: ErrorCode)
    requires if err == ErrNone then CleanedUpAfter(s, attempt, true) && trace == attempt else Broken(s, attempt, err) && attempt <= trace
    ensures Conducted(s, trace, err)
  {
  }

  // ----- few failures do not matter -----

  /** A call that makes a round of this phase fail. */
  predicate Fails(sw: Switch, phase: Phase, call: Call) {
    match phase
    case PreparePhase => call.Ensured? && !call.ok
    case ReadyPhase => call.Validated? && !call.usable
    case CommitPhase => call == Installed(sw.key, sw.target, false)
    case ConfirmPhase => call.Queried? && call.answer != Some(sw.target)
  }

  /** How many of them there are. */
  ghost function Failures(sw: Switch, phase: Phase, trace: seq<Call>): nat {
    if |trace| == 0 then 0
    else Failures(sw, phase, trace[..|trace| - 1]) + (if Fails(sw, phase, trace[|trace| - 1]) then 1 else 0)
  }

  lemma {:induction false} FailuresConcat(sw: Switch, phase: Phase, a: seq<Call>, b: seq<Call>)
    ensures Failures(sw, phase, a + b) == Failures(sw, phase, a) + Failures(sw, phase, b)
  {
    if |b| == 0 {
      assert a + b == a;
    } else {
      FailuresConcat(sw, phase, a, b[..|b| - 1]);
      assert (a + b)[..|a + b| - 1] == a + b[..|b| - 1];
    }
  }

  lemma {:induction false} FailureCounts(sw: Switch, phase: Phase, r: seq<Call>, i: nat)
    requires i < |r| && Fails(sw, phase, r[i])
    ensures Failures(sw, phase, r) >= 1
  {
    if i < |r| - 1 { FailureCounts(sw, phase, r[..|r| - 1], i); }
  }

  /** Nothing but calls that fail can make the phase fail. */
  predicate Conducive(s: Setting, phase: Phase) {
    match phase
    case PreparePhase => s.room
    case ReadyPhase => s.offers.validatePath
    case CommitPhase => s.offers.installPath && s.policy.strategy != FlowPreserve
    case ConfirmPhase => true
  }

  lemma FailedRoundCounts(s: Setting, phase: Phase, r: seq<Call>)
    requires IsRound(s, phase, r, false) && Conducive(s, phase)
    ensures Failures(s.sw, phase, r) >= 1
  {
    FailureCounts(s.sw, phase, r, |r| - 1);
  }

  lemma {:induction false} FailedRoundsCount(s: Setting, phase: Phase, failed: seq<seq<Call>>)
    requires AllFailed(s, phase, failed) && Conducive(s, phase)
    ensures Failures(s.sw, phase, Waiting(s.policy, failed)) >= |failed|
  {
    if |failed| > 0 {
      var n := |failed| - 1;
      FailedRoundsCount(s, phase, failed[..n]);
      FailedRoundCounts(s, phase, failed[n]);
      FailuresConcat(s.sw, phase, Waiting(s.policy, failed[..n]), failed[n]);
      FailuresConcat(s.sw, phase, Waiting(s.policy, failed[..n]) + failed[n], WaitAfter(s.policy, n + 1));
    }
  }

  /** A phase gives up only after more than `retryCount` failures. */
  lemma GivingUpCounts(s: Setting, phase: Phase, before: seq<Call>, trace: seq<Call>)
    requires Ran(s, phase, before, trace, false) && Conducive(s, phase)
    ensures Failures(s.sw, phase, trace) > s.policy.retryCount as int
  {
    var failed, last :| WentThrough(s, phase, before, trace, failed, last, false);
    FailedRoundsCount(s, phase, failed);
    FailedRoundCounts(s, phase, last);
    FailuresConcat(s.sw, phase, before, Waiting(s.policy, failed));
    FailuresConcat(s.sw, phase, before + Waiting(s.policy, failed), last);
  }

  /** An attempt breaks only when a phase has met more failures than it has retries, or could not succeed at
      all, or a call of the clean-up has failed. */
  lemma BrokenMeans(s: Setting, attempt: seq<Call>, trace: seq<Call>, err: ErrorCode)
    requires Broken(s, attempt, err) && attempt <= trace
    ensures || (exists phase :: !Conducive(s, phase) || Failures(s.sw, phase, trace) > s.policy.retryCount as int)
            || (exists i :: 0 <= i < |trace| && IsCleanup(s.sw, trace[i], false))
  {
    hide Ran, Conducive;
    if n: nat :| n < 4 && GaveUp(s, n, attempt) {
      var before :| Passed(s, n, before) && Ran(s, PhaseAt(n), before, attempt, false);
      FailuresConcat(s.sw, PhaseAt(n), attempt, trace[|attempt|..]);
      assert attempt + trace[|attempt|..] == trace;
      if Conducive(s, PhaseAt(n)) { GivingUpCounts(s, PhaseAt(n), before, attempt); }
    } else {
      var before, r :| Passed(s, 4, before) && attempt == before + r && IsCleanupRound(s.sw, r, false);
      assert trace[|attempt| - 1] == r[|r| - 1];
    }
  }

  /** A switch in which no phase met more failures than it has retries, and no call of the clean-up failed,
      is done. */
  lemma RetriesSuffice(s: Setting, trace: seq<Call>, err: ErrorCode)
    requires Conducted(s, trace, err)
    requires forall phase :: Conducive(s, phase) && Failures(s.sw, phase, trace) <= s.policy.retryCount as int
    requires forall i :: 0 <= i < |trace| ==> !IsCleanup(s.sw, trace[i], false)
    ensures err == ErrNone
  {
    hide Broken, Conducive, IsCleanup;
    if err != ErrNone {
      var attempt :| attempt <= trace && Broken(s, attempt, err);
      BrokenMeans(s, attempt, trace, err);
    }
  }

  // ----- when a path was applied -----

  /** Right after this path was installed the clock read `now`. */
  ghost predicate Recorded(trace: seq<Call>, key: Id, path: Id, now: int) {
    exists i :: 0 <= i < |trace| - 1 && trace[i] == Installed(key, path, true) && trace[i + 1] == Stamped(now)
  }

  /** Among the times of the applied paths only that of the key may have changed, to what the clock read right
      after an install. */
  ghost predicate Clocked(before: map<Id, int>, after: map<Id, int>, key: Id, trace: seq<Call>) {
    || after == before
    || (key in after && after == before[key := after[key]] && exists path :: Recorded(trace, key, path, after[key]))
  }

  lemma RecordedStays(trace: seq<Call>, longer: seq<Call>, key: Id, path: Id, now: int)
    requires trace <= longer && Recorded(trace, key, path, now)
    ensures Recorded(longer, key, path, now)
  {
    var i :| 0 <= i < |trace| - 1 && trace[i] == Installed(key, path, true) && trace[i + 1] == Stamped(now);
    assert longer[i] == trace[i] && longer[i + 1] == trace[i + 1];
  }

  lemma ClockedStays(before: map<Id, int>, after: map<Id, int>, key: Id, trace: seq<Call>, longer: seq<Call>)
    requires trace <= longer && Clocked(before, after, key, trace)
    ensures Clocked(before, after, key, longer)
  {
    if after != before {
      var path :| Recorded(trace, key, path, after[key]);
      RecordedStays(trace, longer, key, path, after[key]);
    }
  }

  lemma ClockedTwice(a: map<Id, int>, b: map<Id, int>, d: map<Id, int>, key: Id, trace: seq<Call>, longer: seq<Call>)
    requires trace <= longer && Clocked(a, b, key, trace) && Clocked(b, d, key, longer)
    ensures Clocked(a, d, key, longer)
  {
    ClockedStays(a, b, key, trace, longer);
  }

  lemma InstallRecords(before: seq<Call>, round: seq<Call>, key: Id, path: Id)
    requires IsInstall(key, path, round, true)
    ensures Recorded(before + round, key, path, round[1].at)
  {
    var i := |before|;
    assert (before + round)[i] == round[0] && (before + round)[i + 1] == round[1];
  }
}
