/** One supervised worker (supervisor/supervisor.py): running a target, restarting it after a
    crash within a budget, and telling it once that it will not run again. */
module Supervisor {
  /** How one call of the target ends: it returns, raises an Exception, exits with SystemExit, or
      is unwound by some other BaseException. */
  datatype Outcome = Returned | Raised | Exited | Unwound

  datatype Policy = Policy(enabled: bool, maxRestarts: int, backoff: real, maxBackoff: real) {
    predicate Sane() {
      maxRestarts >= 0 && backoff >= 0.0 && maxBackoff >= 0.0
    }
  }

  /** A value of the configuration's `runtime` block: left out, not a value of its kind (a text that
      is no number, a number that is not finite), or one. */
  datatype Setting<T> = Missing | Unusable | Given(value: T)

  datatype Runtime = Runtime(restart: Setting<bool>, maxRestarts: Setting<int>, backoff: Setting<real>,
                             maxBackoff: Setting<real>)

  const DEFAULTS: Policy := Policy(true, 5, 1.0, 60.0)

  /** What the supervised thread does, in the order it does it. */
  datatype Deed = CalledTarget(run: nat) | WaitedBackoff(delay: real) | CalledRetire | SetFinished

  /** What the thread meets: the outcome of each run, and whether a stop is seen after run i
      crashed, or during the backoff after it. */
  datatype Env = Env(outcome: nat -> Outcome, stopAfter: nat -> bool, stopDuring: nat -> bool)

  /** Why the worker does not run again after run `i`. */
  datatype Verdict = Completed | GaveUpExit | StoppedAfterCrash | RestartDisabled | BudgetSpent
                   | StoppedInBackoff | UnwoundThrough

  // --- the policy ------------------------------------------------------------

  function BoolOption(setting: Setting<bool>, default: bool): (r: bool)
    ensures r == default || setting == Given(r)
    ensures setting.Given? ==> setting == Given(r)
  {
    if setting.Given? then setting.value else default
  }

  /** Anything unusable, and anything below zero, is the default. */
  function IntOption(setting: Setting<int>, default: nat): (r: nat)
    ensures r == default || setting == Given(r)
    ensures setting.Given? && setting.value >= 0 ==> setting == Given(r)
  {
    if setting.Given? && setting.value >= 0 then setting.value else default
  }

  function FloatOption(setting: Setting<real>, default: real): (r: real)
    requires default >= 0.0
    ensures r >= 0.0 && (r == default || setting == Given(r))
    ensures setting.Given? && setting.value >= 0.0 ==> setting == Given(r)
  {
    if setting.Given? && setting.value >= 0.0 then setting.value else default
  }

  /** `from_runtime`, the only way the program builds a policy. Each part is its own setting or its
      own default. */
  function FromRuntime(r: Runtime): (p: Policy)
    ensures p.Sane()
    ensures match r.restart case Given(b) => p.enabled == b case _ => p.enabled
    ensures p.maxRestarts == if r.maxRestarts.Given? && r.maxRestarts.value >= 0 then r.maxRestarts.value else 5
    ensures p.backoff == if r.backoff.Given? && r.backoff.value >= 0.0 then r.backoff.value else 1.0
    ensures p.maxBackoff == if r.maxBackoff.Given? && r.maxBackoff.value >= 0.0 then r.maxBackoff.value else 60.0
  {
    Policy(BoolOption(r.restart, DEFAULTS.enabled), IntOption(r.maxRestarts, DEFAULTS.maxRestarts),
           FloatOption(r.backoff, DEFAULTS.backoff), FloatOption(r.maxBackoff, DEFAULTS.maxBackoff))
  }

  // --- the reference ---------------------------------------------------------

  function Delay(p: Policy, i: nat): real {
    if i == 0 then p.backoff else Min(Delay(p, i - 1) * 2.0, p.maxBackoff)
  }

  function Min(a: real, b: real): real {
    if a <= b then a else b
  }

  /** `x * 2^i`. */
  function Doubled(x: real, i: nat): real {
    if i == 0 then x else 2.0 * Doubled(x, i - 1)
  }

  /** The runs before `i`, each crashed and followed by its backoff. */
  function Deeds(p: Policy, i: nat): seq<Deed> {
    if i == 0 then [] else Deeds(p, i - 1) + [CalledTarget(i - 1), WaitedBackoff(Delay(p, i - 1))]
  }

  // --- the object --------------------------------------------------------------

  class SupervisedWorker {
    const policy: Policy
    var restarts: nat
    var crashes: nat
    var completedCleanly: bool
    var finished: bool
    ghost var deeds: seq<Deed>

    constructor (policy: Policy)
      ensures this.policy == policy
      ensures restarts == 0 && crashes == 0 && !completedCleanly && !finished && deeds == []
    {
      this.policy := policy;
      restarts, crashes, completedCleanly, finished := 0, 0, false, false;
      deeds := [];
    }

    /** `_run`: the target runs until a run does not raise, a stop is seen after it or in its backoff,
        restarts are disabled, or `max_restarts` restarts are spent, and not a run less. The worker is
        retired once after the last run and before it is marked finished, it completed cleanly exactly
        when the last run returned, and the counters account for why it ended. */
    method Run(e: Env) returns (last: nat, why: Verdict)
      requires restarts == 0 && crashes == 0 && !completedCleanly && !finished && deeds == []
      modifies this
      ensures finished
      ensures forall i: nat :: i < last ==>
        e.outcome(i).Raised? && !e.stopAfter(i) && policy.enabled && i < policy.maxRestarts && !e.stopDuring(i)
      ensures why == Completed <==> e.outcome(last).Returned?
      ensures why == GaveUpExit <==> e.outcome(last).Exited?
      ensures why == UnwoundThrough <==> e.outcome(last).Unwound?
      ensures why == StoppedAfterCrash <==> e.outcome(last).Raised? && e.stopAfter(last)
      ensures why == RestartDisabled <==> e.outcome(last).Raised? && !e.stopAfter(last) && !policy.enabled
      ensures why == BudgetSpent <==>
              e.outcome(last).Raised? && !e.stopAfter(last) && policy.enabled && last >= policy.maxRestarts
      ensures why == StoppedInBackoff <==>
              e.outcome(last).Raised? && !e.stopAfter(last) && policy.enabled && last < policy.maxRestarts
              && e.stopDuring(last)
      ensures why == BudgetSpent && policy.maxRestarts >= 0 ==> restarts == policy.maxRestarts
      ensures policy.maxRestarts < 0 || !policy.enabled ==> last == 0
      ensures completedCleanly <==> e.outcome(last) == Returned
      ensures restarts == last + if why == StoppedInBackoff then 1 else 0
      ensures crashes == last + if e.outcome(last).Raised? || e.outcome(last).Exited? then 1 else 0
      ensures crashes - restarts == if why in {Completed, UnwoundThrough, StoppedInBackoff} then 0 else 1
      ensures deeds == Deeds(policy, last) + [CalledTarget(last)]
        + (if why == StoppedInBackoff then [WaitedBackoff(Delay(policy, last))] else [])
        + [CalledRetire, SetFinished]
    {
      hide Delay, Deeds, Min;
      var delay := policy.backoff;
      last := 0;
      NothingDone(policy);
      while true
        invariant restarts == crashes == last
        invariant !completedCleanly && !finished
        invariant delay == Delay(policy, last)
        invariant deeds == Deeds(policy, last)
        invariant forall i: nat :: i < last ==>
          e.outcome(i).Raised? && !e.stopAfter(i) && policy.enabled && i < policy.maxRestarts && !e.stopDuring(i)
        invariant last > 0 ==> policy.enabled && last <= policy.maxRestarts
        decreases policy.maxRestarts - last
      {
        deeds := deeds + [CalledTarget(last)];
        match e.outcome(last) {
          case Returned =>
            completedCleanly := true;
            why := Completed;
            break;
          case Exited =>
            crashes := crashes + 1;
            why := GaveUpExit;
            break;
          case Unwound =>
            why := UnwoundThrough;
            break;
          case Raised =>
            crashes := crashes + 1;
        }
        if e.stopAfter(last) {
          why := StoppedAfterCrash;
          break;
        }
        if !policy.enabled {
          why := RestartDisabled;
          break;
        }
        if restarts >= policy.maxRestarts {
          why := BudgetSpent;
          break;
        }
        restarts := restarts + 1;
        deeds := deeds + [WaitedBackoff(delay)];
        if e.stopDuring(last) {
          why := StoppedInBackoff;
          break;
        }
        OneMoreRestart(policy, last);
        delay := Min(delay * 2.0, policy.maxBackoff);
        last := last + 1;
      }
      deeds := deeds + [CalledRetire];
      deeds := deeds + [SetFinished];
      finished := true;
    }
  }

  lemma NothingDone(p: Policy)
    ensures Delay(p, 0) == p.backoff && Deeds(p, 0) == []
  {
  }

  lemma OneMoreRestart(p: Policy, i: nat)
    ensures Delay(p, i + 1) == Min(Delay(p, i) * 2.0, p.maxBackoff)
    ensures Deeds(p, i + 1) == Deeds(p, i) + [CalledTarget(i)] + [WaitedBackoff(Delay(p, i))]
  {
  }

  // --- what the reference means ------------------------------------------------------

  /** Backoff i is the configured one for i = 0 and its i-th doubling, capped, after that. */
  lemma {:induction false} BackoffDoubles(p: Policy, i: nat)
    requires p.Sane() && i > 0
    ensures Delay(p, i) == Min(Doubled(p.backoff, i), p.maxBackoff)
  {
    if i == 1 {
      assert Doubled(p.backoff, 1) == 2.0 * Doubled(p.backoff, 0);
      assert Delay(p, 1) == Min(Delay(p, 0) * 2.0, p.maxBackoff);
    } else {
      BackoffDoubles(p, i - 1);
    }
  }

  /** So under every configuration a worker that was restarted `n` times has called its target and
      waited in turn, the first wait the configured one, each later one doubled and capped. */
  lemma {:induction false} RestartsBackOff(r: Runtime, n: nat, k: nat)
    requires k < n
    ensures var p := FromRuntime(r);
      && |Deeds(p, n)| == 2 * n
      && Deeds(p, n)[2 * k] == CalledTarget(k)
      && Deeds(p, n)[2 * k + 1] ==
         WaitedBackoff(if k == 0 then p.backoff else Min(Doubled(p.backoff, k), p.maxBackoff))
  {
    var p := FromRuntime(r);
    hide FromRuntime, Delay, Doubled;
    if n > 1 {
      RestartsBackOff(r, n - 1, if k < n - 1 then k else 0);
    }
    if k == n - 1 {
      if k > 0 { BackoffDoubles(p, k); } else { FirstDelay(p); }
    }
  }

  lemma FirstDelay(p: Policy)
    ensures Delay(p, 0) == p.backoff
  {
  }

  // --- winding everybody down ----------------------------------------------------------

  datatype Wind = AskedToStop(worker: int) | Joined(worker: int)

  /** `stop_all`, from time `begin`; worker `i`'s thread ends at `ends[i]`. Everybody is asked
      before anybody is waited for. Whatever the order of the workers, it returns within the shared
      grace period, and reports exactly those that outlive it. */
  method StopAll(ends: seq<int>, begin: int, timeout: int) returns (alive: seq<nat>, clock: int, deeds: seq<Wind>)
    ensures deeds == seq(|ends|, i => AskedToStop(i)) + seq(|ends|, i => Joined(i))
    ensures begin <= clock <= begin + if timeout < 0 then 0 else timeout
    ensures forall i, j :: 0 <= i < j < |alive| ==> alive[i] < alive[j]
    ensures forall i: nat :: i in alive <==> i < |ends| && ends[i] > begin + if timeout < 0 then 0 else timeout
  {
    deeds := [];
    for i := 0 to |ends|
      invariant deeds == seq(i, k => AskedToStop(k))
    {
      deeds := deeds + [AskedToStop(i)];
    }
    ghost var asked := deeds;
    var deadline := begin + timeout;
    ghost var limit := if timeout < 0 then begin else deadline;
    clock := begin;
    for i := 0 to |ends|
      invariant begin <= clock <= limit
      invariant deeds == asked + seq(i, k => Joined(k))
      invariant forall k :: 0 <= k < i && ends[k] <= limit ==> ends[k] <= clock
    {
      var wait := if deadline - clock < 0 then 0 else deadline - clock;
      if clock + wait < ends[i] {
        clock := clock + wait;
      } else if clock < ends[i] {
        clock := ends[i];
      }
      deeds := deeds + [Joined(i)];
    }
    alive := [];
    for i := 0 to |ends|
      invariant forall k, l :: 0 <= k < l < |alive| ==> alive[k] < alive[l]
      invariant forall k :: 0 <= k < |alive| ==> alive[k] < i
      invariant forall k: nat :: k in alive <==> k < i && ends[k] > limit
    {
      assert ends[i] > clock <==> ends[i] > limit;
      if ends[i] > clock {
        assert forall k: nat :: k in alive + [i] <==> k in alive || k == i;
        alive := alive + [i];
      }
    }
  }
}
