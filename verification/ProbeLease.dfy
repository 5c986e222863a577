/** The API-key circuit breaker's half-open probe of internal/server/apikey_health.go: who may try a key
    whose circuit is not verified, and which answers may close the circuit. Every method holds the health
    mutex for its whole body, so an interleaving of request goroutines is a sequence of steps. */
module ProbeLease {
  type Key = string
  type Time = int

  datatype Condition = Healthy | HalfOpen | Open | Disabled

  // What HealthState reports of a key.
  datatype Health = Health(serving: bool, state: Condition, strikes: nat, lastFailure: Time, retryAfter: nat)

  // A release closure: it acts once (sync.OnceFunc), however often it is called.
  datatype Lease = Lease(key: Key, fired: bool)

  datatype World = World(probes: set<Key>, recovery: set<Key>, leases: seq<Lease>, health: map<Key, Health>)

  datatype Grant =
    | Denied(wait: nat)
    | Ordinary            // an attempt on a verified key; its release does nothing
    | Probe(lease: nat)   // the one half-open attempt

  datatype Step =
    | Begin(key: Key)
    | Release(lease: nat)                                // explicit or deferred, once or many times
    | Failure(key: Key, after: Health)                   // `after` is what the pool's mark leaves behind
    | Success(key: Key, started: Time, after: Health)
    | Sweep(gone: set<Key>)                              // keys the pool no longer holds
    | Drift(key: Key, after: Health)                     // time passes; an operator switches a key off or on

  const BUSY_WAIT: nat := 1

  // The faults of the credential itself, by classifyUpstreamStatus of internal/server/upstream_health.go.
  predicate CredentialFault(status: int) {
    status == 401 || status == 402 || status == 403
  }

  // The three ways in which a failure is put down to a key. A rate limit has a counter of its own.
  datatype Mark = RateLimited | Hard | Soft

  function MarkOf(status: int, pooled: bool): (mark: Mark)
    ensures mark.Hard? <==> status in {401, 402, 403}
    ensures mark.RateLimited? <==> status == 429 && pooled
  {
    if status == 429 && pooled then RateLimited
    else if CredentialFault(status) then Hard
    else Soft
  }

  // ---------------------------------------------------------------- one step

  function Granted(w: World, key: Key): Grant
    requires key in w.health
  {
    var report := w.health[key];
    if !report.serving then Denied(report.retryAfter)
    else if key in w.probes then Denied(BUSY_WAIT)
    else if report.state != HalfOpen && key !in w.recovery then Ordinary
    else Probe(|w.leases|)
  }

  // The circuit is open or unverified, and the response belongs to a request that was already under way.
  predicate TooOld(w: World, key: Key, started: Time)
    requires key in w.health
  {
    var report := w.health[key];
    report.state == Disabled || ((report.strikes > 0 || key in w.recovery) && started <= report.lastFailure)
  }

  predicate Settled(w: World, key: Key, gone: set<Key>)
    requires key in w.health
  {
    w.health[key].state == Disabled || w.health[key].state == Healthy || key in gone
  }

  // Steps name known keys and leases, and nothing moves a key's last failure back in time.
  predicate Lawful(w: World, step: Step) {
    match step
    case Begin(key) => key in w.health
    case Release(lease) => lease < |w.leases|
    case Failure(key, after) => key in w.health && w.health[key].lastFailure <= after.lastFailure
    case Success(key, _, _) => key in w.health
    case Sweep(_) => w.recovery <= w.health.Keys
    case Drift(key, after) => key in w.health && w.health[key].lastFailure <= after.lastFailure
  }

  function Apply(w: World, step: Step): World
    requires Lawful(w, step)
  {
    match step
    case Begin(key) =>
      if Granted(w, key).Probe?
      then w.(probes := w.probes + {key}, leases := w.leases + [Lease(key, false)])
      else w
    case Release(lease) =>
      if w.leases[lease].fired then w
      else w.(probes := w.probes - {w.leases[lease].key},
              leases := w.leases[lease := w.leases[lease].(fired := true)])
    case Failure(key, after) =>
      if w.health[key].state == Disabled then w
      else w.(health := w.health[key := after], recovery := w.recovery + if after.serving then {} else {key})
    case Success(key, started, after) =>
      if TooOld(w, key, started) then w
      else w.(health := w.health[key := after], recovery := w.recovery - {key})
    case Sweep(gone) =>
      w.(recovery := set key | key in w.recovery && !Settled(w, key, gone))
    case Drift(key, after) => w.(health := w.health[key := after])
  }

  // ---------------------------------------------------------------- runs

  predicate Start(w: World) {
    w.probes == {} && w.recovery == {} && w.leases == []
  }

  ghost predicate Run(w: World, steps: seq<Step>)
    decreases |steps|, 0
  {
    steps != [] ==> Run(w, steps[..|steps| - 1]) && Lawful(After(w, steps[..|steps| - 1]), steps[|steps| - 1])
  }

  ghost function After(w: World, steps: seq<Step>): World
    requires Run(w, steps)
    decreases |steps|, 1
  {
    if steps == [] then w else Apply(After(w, steps[..|steps| - 1]), steps[|steps| - 1])
  }

  lemma {:induction false} RunPrefix(w: World, steps: seq<Step>, n: nat)
    requires Run(w, steps) && n <= |steps|
    ensures Run(w, steps[..n])
    ensures n < |steps| ==> Lawful(After(w, steps[..n]), steps[n]) &&
                            Run(w, steps[..n + 1]) && After(w, steps[..n + 1]) == Apply(After(w, steps[..n]), steps[n])
    decreases |steps|
  {
    if n == |steps| {
      assert steps[..n] == steps;
    } else if n == |steps| - 1 {
      assert steps[..n + 1] == steps;
    } else {
      var shorter := steps[..|steps| - 1];
      RunPrefix(w, shorter, n);
      assert shorter[..n] == steps[..n] && shorter[..n + 1] == steps[..n + 1];
    }
  }

  ghost predicate Live(w: World, i: nat, key: Key) {
    i < |w.leases| && w.leases[i] == Lease(key, false)
  }

  // The probe table lists exactly the keys that have a live lease, and no key has two.
  ghost predicate Inv(w: World) {
    (forall i, key | Live(w, i, key) :: key in w.probes) &&
    (forall key | key in w.probes :: exists i :: Live(w, i, key)) &&
    (forall i, j, key | Live(w, i, key) && Live(w, j, key) :: i == j) &&
    w.recovery <= w.health.Keys
  }

  lemma StepKeepsInv(w: World, step: Step)
    requires Inv(w) && Lawful(w, step)
    ensures Inv(Apply(w, step))
  {
    var w' := Apply(w, step);
    match step
    case Begin(key) =>
      if Granted(w, key).Probe? {
        assert Live(w', |w.leases|, key);
        forall k | k in w'.probes ensures exists i :: Live(w', i, k) {
          if k != key {
            var i :| Live(w, i, k);
            assert Live(w', i, k);
          }
        }
        forall i: nat, k | Live(w', i, k) && i < |w.leases| ensures Live(w, i, k) {
        }
      }
    case Release(lease) =>
      if !w.leases[lease].fired {
        var key := w.leases[lease].key;
        assert Live(w, lease, key);
        forall i: nat, k | Live(w', i, k) ensures Live(w, i, k) && k != key {
          assert i != lease && Live(w, i, k);
        }
        forall k | k in w'.probes ensures exists i :: Live(w', i, k) {
          var i :| Live(w, i, k);
          assert Live(w', i, k);
        }
      }
    case Failure(_, _) => SameLeases(w, w');
    case Success(_, _, _) => SameLeases(w, w');
    case Sweep(_) => SameLeases(w, w');
    case Drift(_, _) => SameLeases(w, w');
  }

  lemma SameLeases(w: World, w': World)
    requires Inv(w) && w'.leases == w.leases && w'.probes == w.probes && w'.recovery <= w'.health.Keys
    ensures Inv(w')
  {
    forall i: nat, key | Live(w', i, key) ensures Live(w, i, key) {
    }
    forall key | key in w'.probes ensures exists i :: Live(w', i, key) {
      var i :| Live(w, i, key);
      assert Live(w', i, key);
    }
  }

  // In every interleaving a key has at most one live probe.
  lemma {:induction false} OneLiveProbe(w: World, steps: seq<Step>)
    requires Start(w) && Run(w, steps)
    ensures Inv(After(w, steps))
    decreases |steps|
  {
    if steps != [] {
      OneLiveProbe(w, steps[..|steps| - 1]);
      StepKeepsInv(After(w, steps[..|steps| - 1]), steps[|steps| - 1]);
    }
  }

  lemma LeaseSurvives(w: World, step: Step, key: Key, lease: nat)
    requires Lawful(w, step) && Live(w, lease, key) && step != Release(lease)
    ensures Live(Apply(w, step), lease, key)
  {
  }

  lemma FiredSurvives(w: World, step: Step, lease: nat)
    requires Lawful(w, step) && lease < |w.leases| && w.leases[lease].fired
    ensures lease < |Apply(w, step).leases| && Apply(w, step).leases[lease].fired
  {
  }

  lemma {:induction false} LeaseLivesOn(w: World, steps: seq<Step>, i: nat, j: nat, key: Key, lease: nat)
    requires Run(w, steps) && i <= j <= |steps| && Run(w, steps[..i]) && Run(w, steps[..j])
    requires Live(After(w, steps[..i]), lease, key)
    requires forall m | i <= m < j :: steps[m] != Release(lease)
    ensures Live(After(w, steps[..j]), lease, key)
    decreases j
  {
    hide *;
    if i < j {
      RunPrefix(w, steps, j - 1);
      LeaseLivesOn(w, steps, i, j - 1, key, lease);
      LeaseSurvives(After(w, steps[..j - 1]), steps[j - 1], key, lease);
    }
  }

  // While a probe is out, nobody else is let through to that key: not as a second probe, and not as
  // ordinary traffic should the key look healthy in the meantime.
  lemma ProbeIsExclusive(w: World, steps: seq<Step>, i: nat, j: nat, key: Key)
    requires Start(w) && Run(w, steps) && i < j < |steps| && Run(w, steps[..i]) && Run(w, steps[..j])
    requires steps[i] == Begin(key) && key in After(w, steps[..i]).health && Granted(After(w, steps[..i]), key).Probe?
    requires steps[j] == Begin(key) && key in After(w, steps[..j]).health
    requires forall m | i < m < j :: steps[m] != Release(Granted(After(w, steps[..i]), key).lease)
    ensures Granted(After(w, steps[..j]), key).Denied?
  {
    var lease := Granted(After(w, steps[..i]), key).lease;
    RunPrefix(w, steps, i);
    assert Live(After(w, steps[..i + 1]), lease, key);
    LeaseLivesOn(w, steps, i + 1, j, key, lease);
    OneLiveProbe(w, steps[..j]);
  }

  lemma {:induction false} FiredStaysFired(w: World, steps: seq<Step>, i: nat, j: nat, lease: nat)
    requires Run(w, steps) && i <= j <= |steps| && Run(w, steps[..i]) && Run(w, steps[..j])
    requires lease < |After(w, steps[..i]).leases| && After(w, steps[..i]).leases[lease].fired
    ensures lease < |After(w, steps[..j]).leases| && After(w, steps[..j]).leases[lease].fired
    decreases j
  {
    hide *;
    if i < j {
      RunPrefix(w, steps, j - 1);
      FiredStaysFired(w, steps, i, j - 1, lease);
      FiredSurvives(After(w, steps[..j - 1]), steps[j - 1], lease);
    }
  }

  // The deferred release that follows an explicit one changes nothing, whoever holds the key by then.
  lemma SecondReleaseIsHarmless(w: World, steps: seq<Step>, i: nat, j: nat, lease: nat)
    requires Run(w, steps) && i < j < |steps| && Run(w, steps[..j]) && Run(w, steps[..j + 1])
    requires steps[i] == Release(lease) && steps[j] == Release(lease)
    ensures After(w, steps[..j + 1]) == After(w, steps[..j])
  {
    RunPrefix(w, steps, i);
    FiredStaysFired(w, steps, i + 1, j, lease);
    RunPrefix(w, steps, j);
  }

  // ---------------------------------------------------------------- which answers close a circuit

  // The last failure on record when the circuit last opened, unless an answer to a later request closed it
  // while the key was not switched off, or a sweep found it healthy, switched off or gone.
  ghost function OpenSince(w: World, steps: seq<Step>, key: Key): (t: seq<Time>)
    requires Run(w, steps)
    decreases |steps|
    ensures |t| <= 1
  {
    if steps == [] then []
    else
      var before := After(w, steps[..|steps| - 1]);
      var t := OpenSince(w, steps[..|steps| - 1], key);
      match steps[|steps| - 1]
      case Failure(k, after) =>
        if k == key && before.health[k].state != Disabled && !after.serving then [after.lastFailure] else t
      case Success(k, started, _) =>
        if k == key && before.health[k].state != Disabled && started > before.health[k].lastFailure then [] else t
      case Sweep(gone) =>
        if key in before.health && (key in gone || before.health[key].state in {Healthy, Disabled}) then [] else t
      case _ => t
  }

  // The recovery table is exactly the record of circuits opened and not closed since.
  lemma {:induction false} RecoveryTracksTheCircuit(w: World, steps: seq<Step>, key: Key)
    requires Start(w) && Run(w, steps)
    ensures key in After(w, steps).recovery <==> OpenSince(w, steps, key) != []
    ensures OpenSince(w, steps, key) != [] ==>
            key in After(w, steps).health && OpenSince(w, steps, key)[0] <= After(w, steps).health[key].lastFailure
    decreases |steps|
  {
    if steps != [] {
      RecoveryTracksTheCircuit(w, steps[..|steps| - 1], key);
    }
  }

  // While a circuit is open, an answer to a request that started no later than the key's last failure
  // neither closes it nor touches the key, whatever else happened; that failure is no older than the one
  // that opened the circuit. And nothing ever overrides a manual switch-off.
  lemma StaleAnswerIsIgnored(w: World, steps: seq<Step>, key: Key, started: Time, after: Health)
    requires Start(w) && Run(w, steps) && Lawful(After(w, steps), Success(key, started, after))
    requires (OpenSince(w, steps, key) != [] && started <= After(w, steps).health[key].lastFailure) ||
             After(w, steps).health[key].state == Disabled
    ensures Apply(After(w, steps), Success(key, started, after)) == After(w, steps)
    ensures OpenSince(w, steps, key) != [] ==>
              OpenSince(w, steps, key)[0] <= After(w, steps).health[key].lastFailure
  {
    RecoveryTracksTheCircuit(w, steps, key);
  }

  // An answer to a request that started after the key's last failure closes its circuit, whatever happened
  // before, unless the key is switched off: it leaves recovery with the health the answer gives it.
  lemma FreshAnswerClosesTheCircuit(w: World, steps: seq<Step>, key: Key, started: Time, after: Health)
    requires Start(w) && Run(w, steps) && Lawful(After(w, steps), Success(key, started, after))
    requires After(w, steps).health[key].state != Disabled && started > After(w, steps).health[key].lastFailure
    ensures var done := steps + [Success(key, started, after)];
      Run(w, done) && OpenSince(w, done, key) == [] && key !in After(w, done).recovery &&
      After(w, done).health == After(w, steps).health[key := after]
  {
    var done := steps + [Success(key, started, after)];
    assert done[..|done| - 1] == steps;
    RecoveryTracksTheCircuit(w, done, key);
  }

  // An answer changes exactly that, or nothing: nothing if the key is switched off, or if it has strikes or
  // an open circuit and the request started no later than its last failure.
  lemma AnswerCountsExactly(w: World, steps: seq<Step>, key: Key, started: Time, after: Health)
    requires Start(w) && Run(w, steps) && Lawful(After(w, steps), Success(key, started, after))
    ensures var before := After(w, steps); var h := before.health[key];
      Apply(before, Success(key, started, after)) ==
        if h.state == Disabled || ((h.strikes > 0 || OpenSince(w, steps, key) != []) && started <= h.lastFailure)
        then before
        else before.(health := before.health[key := after], recovery := before.recovery - {key})
  {
    RecoveryTracksTheCircuit(w, steps, key);
  }

  ghost predicate ProbeIsOut(w: World, key: Key) {
    exists i :: Live(w, i, key)
  }

  // Who is let through to a key: nobody while it is out of service, or while its probe is out; one probe if
  // it is half open or its circuit is; and everybody else to any other key.
  lemma GrantedExactly(w: World, steps: seq<Step>, key: Key)
    requires Start(w) && Run(w, steps) && key in After(w, steps).health
    ensures var now := After(w, steps); var h := now.health[key];
      match Granted(now, key)
      case Denied(wait) => (!h.serving && wait == h.retryAfter) || (h.serving && ProbeIsOut(now, key) && wait == 1)
      case Probe(lease) => h.serving && !ProbeIsOut(now, key) && lease == |now.leases| &&
                           (h.state == HalfOpen || OpenSince(w, steps, key) != [])
      case Ordinary => h.serving && !ProbeIsOut(now, key) && h.state != HalfOpen && OpenSince(w, steps, key) == []
  {
    RecoveryTracksTheCircuit(w, steps, key);
    OneLiveProbe(w, steps);
  }

  // A circuit that opened lets nothing but a probe through until it is closed or settled.
  lemma UnverifiedKeyIsOnlyProbed(w: World, steps: seq<Step>, key: Key)
    requires Start(w) && Run(w, steps) && key in After(w, steps).health
    requires OpenSince(w, steps, key) != []
    ensures !Granted(After(w, steps), key).Ordinary?
  {
    RecoveryTracksTheCircuit(w, steps, key);
  }

  // ---------------------------------------------------------------- the tables

  class HealthTables {
    var apiKeyProbes: set<Key>
    var apiKeyRecovery: set<Key>
    var leases: seq<Lease>
    var health: map<Key, Health>

    ghost function View(): World
      reads this
    {
      World(apiKeyProbes, apiKeyRecovery, leases, health)
    }

    constructor (health: map<Key, Health>)
      ensures Start(View()) && this.health == health
    {
      apiKeyProbes, apiKeyRecovery, leases := {}, {}, [];
      this.health := health;
    }

    method BeginAPIKeyAttempt(a: Key) returns (grant: Grant)
      requires Lawful(View(), Begin(a))
      modifies this
      ensures grant == Granted(old(View()), a)
      ensures View() == Apply(old(View()), Begin(a))
    {
      var report := health[a];
      if !report.serving {
        return Denied(report.retryAfter);
      }
      if a in apiKeyProbes {
        return Denied(BUSY_WAIT);
      }
      if report.state != HalfOpen && a !in apiKeyRecovery {
        return Ordinary;
      }
      apiKeyProbes := apiKeyProbes + {a};
      leases := leases + [Lease(a, false)];
      return Probe(|leases| - 1);
    }

    method ReleaseProbe(lease: nat)
      requires Lawful(View(), Release(lease))
      modifies this
      ensures View() == Apply(old(View()), Release(lease))
    {
      if !leases[lease].fired {
        apiKeyProbes := apiKeyProbes - {leases[lease].key};
        leases := leases[lease := leases[lease].(fired := true)];
      }
    }

    // `marked` is what each mark leaves behind.
    method RecordAPIKeyFailure(a: Key, status: int, pooled: bool, marked: Mark -> Health)
      requires Lawful(View(), Failure(a, marked(MarkOf(status, pooled))))
      modifies this
      ensures View() == Apply(old(View()), Failure(a, marked(MarkOf(status, pooled))))
    {
      if health[a].state == Disabled {
        return;
      }
      if status == 429 && pooled {
        health := health[a := marked(RateLimited)];
      } else if CredentialFault(status) {
        health := health[a := marked(Hard)];
      } else {
        health := health[a := marked(Soft)];
      }
      if !health[a].serving {
        apiKeyRecovery := apiKeyRecovery + {a};
      }
    }

    method RecordAPIKeySuccess(a: Key, started: Time, after: Health)
      requires Lawful(View(), Success(a, started, after))
      modifies this
      ensures View() == Apply(old(View()), Success(a, started, after))
    {
      var report := health[a];
      if report.state == Disabled
         || ((report.strikes > 0 || a in apiKeyRecovery) && !(started > report.lastFailure)) {
        return;
      }
      health := health[a := after];
      apiKeyRecovery := apiKeyRecovery - {a};
    }

    // The first half of acquireWithAPIKeyRecovery: forget settled keys, list those owed a probe now.
    method SweepRecovery(gone: set<Key>, accepts: Key -> bool) returns (due: set<Key>)
      requires Lawful(View(), Sweep(gone))
      modifies this
      ensures View() == Apply(old(View()), Sweep(gone))
      ensures due == set a | a in apiKeyRecovery && health[a].serving && a !in apiKeyProbes && accepts(a)
    {
      due := {};
      var todo := apiKeyRecovery;
      ghost var was := View();
      while todo != {}
        invariant apiKeyProbes == was.probes && leases == was.leases && health == was.health
        invariant todo <= apiKeyRecovery <= was.recovery
        invariant forall a | a in was.recovery - todo :: a in apiKeyRecovery <==> !Settled(was, a, gone)
        invariant due == set a | a in apiKeyRecovery - todo && health[a].serving && a !in apiKeyProbes && accepts(a)
        decreases todo
      {
        var a :| a in todo;
        todo := todo - {a};
        var r := health[a];
        if r.state == Disabled || r.state == Healthy || a in gone {
          apiKeyRecovery := apiKeyRecovery - {a};
        } else if r.serving && a !in apiKeyProbes && accepts(a) {
          due := due + {a};
        }
      }
      assert apiKeyRecovery - todo == apiKeyRecovery;
    }
  }
}
