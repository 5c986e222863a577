/** The per-user fixed-window limiter of the SSO endpoint (internal/saas/adapter/sso.go). */
module Limiter {
  type Time = int

  datatype Window = Window(start: Time, count: nat)

  const CROWDED: nat := 4096

  datatype User = User(id: int)

  datatype Call = Call(user: User, now: Time)

  type Windows = map<User, Window>

  predicate Over(w: Window, now: Time, window: Time) {
    now - w.start >= window
  }

  function Evicted(ws: Windows, now: Time, window: Time): Windows {
    map k | k in ws && !Over(ws[k], now, window) :: ws[k]
  }

  // One call on the table as it is, without the eviction.
  function Decide(ws: Windows, c: Call, limit: int, window: Time): (Windows, bool) {
    if limit <= 0 then (ws, true)
    else if c.user !in ws || Over(ws[c.user], c.now, window) then (ws[c.user := Window(c.now, 1)], true)
    else if ws[c.user].count >= limit then (ws, false)
    else (ws[c.user := ws[c.user].(count := ws[c.user].count + 1)], true)
  }

  function Allow(ws: Windows, c: Call, limit: int, window: Time): (Windows, bool) {
    if limit <= 0 then (ws, true)
    else Decide(if |ws| > CROWDED then Evicted(ws, c.now, window) else ws, c, limit, window)
  }

  // A run of calls from an empty table: the table it leaves and the answers it gave …
  function Serve(calls: seq<Call>, limit: int, window: Time): (r: (Windows, seq<bool>))
    ensures |r.1| == |calls|
  {
    if calls == [] then (map[], [])
    else
      var (ws, answers) := Serve(calls[..|calls| - 1], limit, window);
      var (ws', ok) := Allow(ws, calls[|calls| - 1], limit, window);
      (ws', answers + [ok])
  }

  // … and the same run without the eviction.
  function ServePlain(calls: seq<Call>, limit: int, window: Time): (r: (Windows, seq<bool>))
    ensures |r.1| == |calls|
  {
    if calls == [] then (map[], [])
    else
      var (ws, answers) := ServePlain(calls[..|calls| - 1], limit, window);
      var (ws', ok) := Decide(ws, calls[|calls| - 1], limit, window);
      (ws', answers + [ok])
  }

  predicate Monotone(calls: seq<Call>) {
    forall i, j | 0 <= i < j < |calls| :: calls[i].now <= calls[j].now
  }

  // ---------------------------------------------------------------- the eviction is invisible

  // Two tables agree at a time if they hold the same windows that are still running then.
  ghost predicate Alike(a: Windows, b: Windows, now: Time, window: Time) {
    forall k :: Running(a, k, now, window) == Running(b, k, now, window)
  }

  function Running(ws: Windows, k: User, now: Time, window: Time): Window {
    if k in ws && !Over(ws[k], now, window) then ws[k] else Window(now - window, 0)
  }

  lemma DecideAlike(a: Windows, b: Windows, c: Call, limit: int, window: Time)
    requires window > 0 && limit > 0 && Alike(a, b, c.now, window)
    ensures Decide(a, c, limit, window).1 == Decide(b, c, limit, window).1
    ensures Alike(Decide(a, c, limit, window).0, Decide(b, c, limit, window).0, c.now, window)
  {
    assert Running(a, c.user, c.now, window) == Running(b, c.user, c.now, window);
    var a', b' := Decide(a, c, limit, window).0, Decide(b, c, limit, window).0;
    forall k ensures Running(a', k, c.now, window) == Running(b', k, c.now, window) {
      assert Running(a, k, c.now, window) == Running(b, k, c.now, window);
    }
  }

  lemma EvictionAlike(a: Windows, now: Time, window: Time)
    ensures Alike(Evicted(a, now, window), a, now, window)
  {
  }

  lemma AlikeLater(a: Windows, b: Windows, now: Time, later: Time, window: Time)
    requires Alike(a, b, now, window) && now <= later && window > 0
    ensures Alike(a, b, later, window)
  {
    forall k ensures Running(a, k, later, window) == Running(b, k, later, window) {
      assert Running(a, k, now, window) == Running(b, k, now, window);
    }
  }

  lemma AlikeThrough(a: Windows, b: Windows, c: Windows, now: Time, window: Time)
    requires Alike(a, b, now, window) && Alike(b, c, now, window)
    ensures Alike(a, c, now, window)
  {
    forall k ensures Running(a, k, now, window) == Running(c, k, now, window) {
      assert Running(a, k, now, window) == Running(b, k, now, window);
      assert Running(b, k, now, window) == Running(c, k, now, window);
    }
  }

  lemma CallAlike(a: Windows, b: Windows, c: Call, limit: int, window: Time)
    requires window > 0 && limit > 0 && Alike(a, b, c.now, window)
    ensures Allow(a, c, limit, window).1 == Decide(b, c, limit, window).1
    ensures Alike(Allow(a, c, limit, window).0, Decide(b, c, limit, window).0, c.now, window)
  {
    hide Alike, Decide, Evicted;
    EvictionAlike(a, c.now, window);
    var kept := if |a| > CROWDED then Evicted(a, c.now, window) else a;
    if |a| > CROWDED {
      AlikeThrough(kept, a, b, c.now, window);
    }
    DecideAlike(kept, b, c, limit, window);
  }

  // However crowded the table gets, evicting stale windows never changes an answer.
  lemma {:induction false} EvictionIsInvisible(calls: seq<Call>, limit: int, window: Time)
    requires window > 0 && Monotone(calls)
    ensures Serve(calls, limit, window).1 == ServePlain(calls, limit, window).1
    ensures limit > 0 && calls != [] ==>
              Alike(Serve(calls, limit, window).0, ServePlain(calls, limit, window).0, calls[|calls| - 1].now, window)
  {
    hide Alike, Decide, Allow;
    if calls != [] {
      var fewer, c := calls[..|calls| - 1], calls[|calls| - 1];
      EvictionIsInvisible(fewer, limit, window);
      var a, b := Serve(fewer, limit, window).0, ServePlain(fewer, limit, window).0;
      if limit <= 0 {
        Unlimited(a, c, limit, window);
        Unlimited(b, c, limit, window);
      } else {
        if fewer == [] {
          AlikeSelf(map[], c.now, window);
        } else {
          AlikeLater(a, b, fewer[|fewer| - 1].now, c.now, window);
        }
        CallAlike(a, b, c, limit, window);
      }
    }
  }

  lemma AlikeSelf(a: Windows, now: Time, window: Time)
    ensures Alike(a, a, now, window)
  {
  }

  lemma Unlimited(ws: Windows, c: Call, limit: int, window: Time)
    requires limit <= 0
    ensures Decide(ws, c, limit, window) == (ws, true) && Allow(ws, c, limit, window) == (ws, true)
  {
  }

  function Users(calls: seq<Call>): set<User> {
    set c | c in calls :: c.user
  }

  // In whatever order the calls arrive, nothing is ever evicted while the users are few enough.
  lemma {:induction false} FewUsersAreNeverEvicted(calls: seq<Call>, limit: int, window: Time)
    requires |Users(calls)| <= CROWDED
    ensures Serve(calls, limit, window) == ServePlain(calls, limit, window)
    ensures Serve(calls, limit, window).0.Keys <= Users(calls)
  {
    if calls != [] {
      var fewer, c := calls[..|calls| - 1], calls[|calls| - 1];
      assert Users(calls) == Users(fewer) + {c.user} by {
        assert calls == fewer + [c];
      }
      SubsetSize(Users(fewer), Users(calls));
      FewUsersAreNeverEvicted(fewer, limit, window);
      var ws := Serve(fewer, limit, window).0;
      SubsetSize(ws.Keys, Users(calls));
      assert |ws| == |ws.Keys|;
    }
  }

  lemma {:induction false} SubsetSize<T>(a: set<T>, b: set<T>)
    requires a <= b
    ensures |a| <= |b|
  {
    if a != {} {
      var x :| x in a;
      SubsetSize(a - {x}, b - {x});
    }
  }

  // ---------------------------------------------------------------- the bound

  // Calls of one user admitted at a time in [lo, hi).
  function Admitted(calls: seq<Call>, answers: seq<bool>, user: User, lo: Time, hi: Time): nat
    requires |answers| == |calls|
  {
    if calls == [] then 0
    else
      var c := calls[|calls| - 1];
      Admitted(calls[..|calls| - 1], answers[..|calls| - 1], user, lo, hi) +
      if answers[|calls| - 1] && c.user == user && lo <= c.now < hi then 1 else 0
  }

  lemma {:induction false} AdmittedSplits(calls: seq<Call>, answers: seq<bool>, user: User, lo: Time, mid: Time,
          hi: Time)
    requires |answers| == |calls| && lo <= mid <= hi
    ensures Admitted(calls, answers, user, lo, hi) ==
            Admitted(calls, answers, user, lo, mid) + Admitted(calls, answers, user, mid, hi)
  {
    if calls != [] {
      AdmittedSplits(calls[..|calls| - 1], answers[..|calls| - 1], user, lo, mid, hi);
    }
  }

  lemma AdmittedWithin(calls: seq<Call>, answers: seq<bool>, user: User, lo: Time, hi: Time, lo': Time, hi': Time)
    requires |answers| == |calls| && lo' <= lo <= hi <= hi'
    ensures Admitted(calls, answers, user, lo, hi) <= Admitted(calls, answers, user, lo', hi')
  {
    AdmittedSplits(calls, answers, user, lo', lo, hi');
    AdmittedSplits(calls, answers, user, lo, hi, hi');
  }

  lemma {:induction false} NoneBefore(calls: seq<Call>, answers: seq<bool>, user: User, lo: Time, hi: Time)
    requires |answers| == |calls|
    requires forall i | 0 <= i < |calls| && answers[i] && calls[i].user == user :: calls[i].now < lo
    ensures Admitted(calls, answers, user, lo, hi) == 0
  {
    if calls != [] {
      NoneBefore(calls[..|calls| - 1], answers[..|calls| - 1], user, lo, hi);
    }
  }

  // Calls admitted in the window's length from t on.
  function InSpan(calls: seq<Call>, answers: seq<bool>, user: User, t: Time, window: Time): nat
    requires |answers| == |calls|
  {
    Admitted(calls, answers, user, t, t + window)
  }

  // The user's window after a run: who it has admitted, and that the window before it was over in time.
  ghost predicate Tally(ws: Windows, calls: seq<Call>, answers: seq<bool>, user: User, limit: int, window: Time) {
    |answers| == |calls| &&
    (forall t :: InSpan(calls, answers, user, t, window) <= 2 * limit - 1) &&
    if user in ws then
      var w := ws[user];
      1 <= w.count <= limit &&
      Admitted(calls, answers, user, w.start, w.start + window) == w.count &&
      Admitted(calls, answers, user, w.start, w.start + 1) >= 1 &&
      Admitted(calls, answers, user, w.start - window + 1, w.start) <= limit - 1 &&
      (forall i | 0 <= i < |calls| && answers[i] && calls[i].user == user :: calls[i].now < w.start + window) &&
      calls != [] && w.start <= calls[|calls| - 1].now
    else forall i | 0 <= i < |calls| && answers[i] :: calls[i].user != user
  }

  lemma AdmittedNext(calls: seq<Call>, answers: seq<bool>, c: Call, ok: bool, user: User, lo: Time, hi: Time)
    requires |answers| == |calls|
    ensures Admitted(calls + [c], answers + [ok], user, lo, hi) ==
            Admitted(calls, answers, user, lo, hi) + if ok && c.user == user && lo <= c.now < hi then 1 else 0
  {
    assert (calls + [c])[..|calls|] == calls && (answers + [ok])[..|calls|] == answers;
  }

  lemma CallKeepsTally(ws: Windows, calls: seq<Call>, answers: seq<bool>, c: Call, user: User, limit: int, window: Time)
    requires limit > 0 && window > 0 && Tally(ws, calls, answers, user, limit, window)
    requires forall i | 0 <= i < |calls| :: calls[i].now <= c.now
    ensures var (ws', ok) := Decide(ws, c, limit, window); Tally(ws', calls + [c], answers + [ok], user, limit, window)
  {
    var (ws', ok) := Decide(ws, c, limit, window);
    if c.user != user || !ok {
      SameTally(ws, ws', calls, answers, c, ok, user, limit, window);
    } else if user !in ws || Over(ws[user], c.now, window) {
      NewWindow(ws, ws', calls, answers, c, user, limit, window);
    } else {
      assert calls[|calls| - 1].now <= c.now;
      SameWindow(ws, ws', calls, answers, c, user, limit, window);
    }
  }

  lemma SameTally(ws: Windows, ws': Windows, calls: seq<Call>, answers: seq<bool>, c: Call, ok: bool,
          user: User, limit: int, window: Time)
    requires Tally(ws, calls, answers, user, limit, window) && (c.user != user || !ok)
    requires (user in ws' <==> user in ws) && (user in ws ==> ws'[user] == ws[user])
    requires forall i | 0 <= i < |calls| :: calls[i].now <= c.now
    ensures Tally(ws', calls + [c], answers + [ok], user, limit, window)
  {
    hide Admitted;
    var calls', answers' := calls + [c], answers + [ok];
    forall lo, hi ensures Admitted(calls', answers', user, lo, hi) == Admitted(calls, answers, user, lo, hi) {
      AdmittedNext(calls, answers, c, ok, user, lo, hi);
    }
    forall t ensures InSpan(calls', answers', user, t, window) == InSpan(calls, answers, user, t, window) {
    }
    if user in ws {
      assert calls[|calls| - 1].now <= c.now;
    }
    forall i | 0 <= i < |calls'| && answers'[i] && calls'[i].user == user
      ensures i < |calls| && answers[i] && calls[i].user == user && calls'[i].now == calls[i].now
    {
    }
  }

  lemma NewWindow(ws: Windows, ws': Windows, calls: seq<Call>, answers: seq<bool>, c: Call, user: User,
          limit: int, window: Time)
    requires limit > 0 && window > 0 && Tally(ws, calls, answers, user, limit, window) && c.user == user
    requires user in ws ==> Over(ws[user], c.now, window)
    requires user in ws' && ws'[user] == Window(c.now, 1)
    requires forall i | 0 <= i < |calls| :: calls[i].now <= c.now
    ensures Tally(ws', calls + [c], answers + [true], user, limit, window)
  {
    hide Admitted;
    var calls', answers' := calls + [c], answers + [true];
    NoneBefore(calls, answers, user, c.now, c.now + window);
    forall lo, hi | c.now - window < lo <= hi ensures Admitted(calls, answers, user, lo, hi) <= limit - 1 {
      if user in ws {
        var s := ws[user].start;
        var end := if hi > s + window then hi else s + window;
        NoneBefore(calls, answers, user, s + window, end);
        AdmittedSplits(calls, answers, user, s, s + window, end);
        AdmittedSplits(calls, answers, user, s, s + 1, end);
        AdmittedWithin(calls, answers, user, lo, hi, s + 1, end);
      } else {
        NoneBefore(calls, answers, user, lo, hi);
      }
    }
    forall t ensures InSpan(calls', answers', user, t, window) <= 2 * limit - 1 {
      assert InSpan(calls, answers, user, t, window) <= 2 * limit - 1;
      AdmittedNext(calls, answers, c, true, user, t, t + window);
    }
    AdmittedNext(calls, answers, c, true, user, c.now, c.now + window);
    AdmittedNext(calls, answers, c, true, user, c.now, c.now + 1);
    AdmittedNext(calls, answers, c, true, user, c.now - window + 1, c.now);
    forall i | 0 <= i < |calls'| && answers'[i] && calls'[i].user == user
      ensures i == |calls| || (answers[i] && calls[i].user == user && calls'[i].now == calls[i].now)
    {
    }
  }

  lemma SameWindow(ws: Windows, ws': Windows, calls: seq<Call>, answers: seq<bool>, c: Call, user: User,
          limit: int, window: Time)
    requires limit > 0 && window > 0 && Tally(ws, calls, answers, user, limit, window) && c.user == user
    requires user in ws && !Over(ws[user], c.now, window) && ws[user].count < limit
    requires user in ws' && ws'[user] == Window(ws[user].start, ws[user].count + 1)
    requires ws[user].start <= c.now && forall i | 0 <= i < |calls| :: calls[i].now <= c.now
    ensures Tally(ws', calls + [c], answers + [true], user, limit, window)
  {
    hide Admitted;
    var calls', answers' := calls + [c], answers + [true];
    var s := ws[user].start;
    forall t ensures InSpan(calls', answers', user, t, window) <= 2 * limit - 1 {
      assert InSpan(calls, answers, user, t, window) <= 2 * limit - 1;
      AdmittedNext(calls, answers, c, true, user, t, t + window);
      if t <= c.now < t + window {
        var hi := if t > s then t + window else s + window;
        AdmittedWithin(calls, answers, user, t, t + window, s - window + 1, hi);
        AdmittedSplits(calls, answers, user, s - window + 1, s, hi);
        AdmittedSplits(calls, answers, user, s, s + window, hi);
        NoneBefore(calls, answers, user, s + window, hi);
      }
    }
    AdmittedNext(calls, answers, c, true, user, s, s + window);
    AdmittedNext(calls, answers, c, true, user, s, s + 1);
    AdmittedNext(calls, answers, c, true, user, s - window + 1, s);
    forall i | 0 <= i < |calls'| && answers'[i] && calls'[i].user == user
      ensures i == |calls| || (answers[i] && calls[i].user == user && calls'[i].now == calls[i].now)
    {
    }
  }

  lemma {:induction false} RunTally(calls: seq<Call>, user: User, limit: int, window: Time)
    requires limit > 0 && window > 0 && Monotone(calls)
    ensures Tally(ServePlain(calls, limit, window).0, calls, ServePlain(calls, limit, window).1, user, limit, window)
  {
    hide Decide;
    if calls != [] {
      var fewer, c := calls[..|calls| - 1], calls[|calls| - 1];
      RunTally(fewer, user, limit, window);
      hide Tally;
      var (ws, answers) := ServePlain(fewer, limit, window);
      CallKeepsTally(ws, fewer, answers, c, user, limit, window);
      assert fewer + [c] == calls;
    }
  }

  // With a monotone clock, any half-open interval of one window's length admits fewer than twice the
  // limit: the interval that reaches into a second window has lost the call that opened the first.
  lemma FewerThanTwiceTheLimit(calls: seq<Call>, user: User, t: Time, limit: int, window: Time)
    requires limit > 0 && window > 0 && Monotone(calls)
    ensures Admitted(calls, Serve(calls, limit, window).1, user, t, t + window) <= 2 * limit - 1
  {
    EvictionIsInvisible(calls, limit, window);
    RunTally(calls, user, limit, window);
    assert InSpan(calls, ServePlain(calls, limit, window).1, user, t, window) <= 2 * limit - 1;
  }

  lemma ServeNext(calls: seq<Call>, c: Call, ws: Windows, answers: seq<bool>, calls': seq<Call>, ws': Windows,
          answers': seq<bool>)
    requires Serve(calls, 2, 10) == (ws, answers) && |ws| <= 1 && calls' == calls + [c]
    requires Decide(ws, c, 2, 10).0 == ws' && answers' == answers + [Decide(ws, c, 2, 10).1]
    ensures Serve(calls', 2, 10) == (ws', answers')
  {
    assert (calls + [c])[..|calls|] == calls;
  }

  lemma NoCalls()
    ensures Serve([], 2, 10) == (map[], [])
  {
  }

  // The bound is reached.
  lemma TheBoundIsReached()
    ensures var calls := [Call(User(7), 0), Call(User(7), 9), Call(User(7), 10), Call(User(7), 10)];
      Serve(calls, 2, 10).1 == [true, true, true, true] &&
      Admitted(calls, [true, true, true, true], User(7), 1, 11) == 2 * 2 - 1
  {
    var c0, c1, c2 := Call(User(7), 0), Call(User(7), 9), Call(User(7), 10);
    assert [c0, c1, c2, c2][..3] == [c0, c1, c2] && [c0, c1, c2][..2] == [c0, c1];
    assert [c0, c1][..1] == [c0] && [c0][..0] == [];
    hide Serve;
    NoCalls();
    var none: Windows := map[];
    var s1, s2, s3, s4 := none[User(7) := Window(0, 1)], none[User(7) := Window(0, 2)],
        none[User(7) := Window(10, 1)], none[User(7) := Window(10, 2)];
    ServeNext([], c0, none, [], [c0], s1, [true]);
    ServeNext([c0], c1, s1, [true], [c0, c1], s2, [true, true]);
    ServeNext([c0, c1], c2, s2, [true, true], [c0, c1, c2], s3, [true, true, true]);
    ServeNext([c0, c1, c2], c2, s3, [true, true, true], [c0, c1, c2, c2], s4, [true, true, true, true]);
    var yes := [true, true, true, true];
    assert yes[..3] == [true, true, true] && yes[..3][..2] == [true, true] && yes[..3][..2][..1] == [true];
    assert Admitted([c0], [true], User(7), 1, 11) == 0;
    assert Admitted([c0, c1], [true, true], User(7), 1, 11) == 1;
    assert Admitted([c0, c1, c2], [true, true, true], User(7), 1, 11) == 2;
  }

  // The clock is read before the mutex is taken, and calls that reach the table out of clock order are under
  // no bound at all: an old reading is counted in whichever window is open when it gets there. Here k
  // windows of a limit of 2 each take in one call that read the clock at 12.
  function Skewed(k: nat): seq<Call> {
    if k == 0 then [] else Skewed(k - 1) + [Call(User(7), 10 + 10 * k)] + [Call(User(7), 12)]
  }

  lemma NoBoundOutOfOrder(k: nat)
    ensures Admitted(Skewed(k), Serve(Skewed(k), 2, 10).1, User(7), 12, 12 + 10) >= k
  {
    SkewedIsServed(k);
    SkewedIsAdmitted(k);
  }

  lemma {:induction false} SkewedIsServed(k: nat)
    ensures |Skewed(k)| == 2 * k && Serve(Skewed(k), 2, 10).1 == Yes(2 * k)
    ensures Serve(Skewed(k), 2, 10).0 == if k == 0 then map[] else map[User(7) := Window(10 + 10 * k, 2)]
  {
    hide Serve;
    if k == 0 {
      NoCalls();
    } else {
      SkewedIsServed(k - 1);
      var u, none: Windows := User(7), map[];
      var opens, late := Call(u, 10 + 10 * k), Call(u, 12);
      var before := Serve(Skewed(k - 1), 2, 10).0;
      assert before[u := Window(opens.now, 1)] == none[u := Window(opens.now, 1)];
      ServeMore(Skewed(k - 1), opens, before, 2 * k - 2, none[u := Window(opens.now, 1)]);
      assert none[u := Window(opens.now, 1)][u := Window(opens.now, 2)] == map[u := Window(opens.now, 2)];
      var justOpen := none[u := Window(opens.now, 1)];
      ServeMore(Skewed(k - 1) + [opens], late, justOpen, 2 * k - 1, map[u := Window(opens.now, 2)]);
    }
  }

  lemma {:induction false} SkewedIsAdmitted(k: nat)
    ensures |Skewed(k)| == 2 * k && Admitted(Skewed(k), Yes(2 * k), User(7), 12, 22) >= k
  {
    hide Admitted;
    if k == 0 {
      NoneAdmitted(User(7));
    } else {
      SkewedIsAdmitted(k - 1);
      AdmitMore(Skewed(k - 1), Call(User(7), 10 + 10 * k), User(7));
      AdmitMore(Skewed(k - 1) + [Call(User(7), 10 + 10 * k)], Call(User(7), 12), User(7));
    }
  }

  function Yes(n: nat): seq<bool> {
    seq(n, i => true)
  }

  // One more admitted call, and the one entry of the table afterwards.
  lemma ServeMore(calls: seq<Call>, c: Call, ws: Windows, n: nat, ws': Windows)
    requires Serve(calls, 2, 10).0 == ws && Serve(calls, 2, 10).1 == Yes(n) && ws.Keys <= {c.user}
    requires Decide(ws, c, 2, 10).0 == ws' && Decide(ws, c, 2, 10).1
    ensures Serve(calls + [c], 2, 10).0 == ws' && Serve(calls + [c], 2, 10).1 == Yes(n + 1) && ws'.Keys <= {c.user}
  {
    assert Yes(n) + [true] == Yes(n + 1);
    assert |ws| == |ws.Keys|;
    if c.user in ws {
      assert ws.Keys == {c.user};
    } else {
      assert ws.Keys == {};
    }
    ServeNext(calls, c, ws, Yes(n), calls + [c], ws', Yes(n + 1));
  }

  lemma NoneAdmitted(u: User)
    ensures Admitted([], Yes(0), u, 12, 22) == 0
  {
  }

  lemma AdmitMore(calls: seq<Call>, c: Call, u: User)
    requires c.user == u
    ensures Admitted(calls + [c], Yes(|calls| + 1), u, 12, 22) ==
            Admitted(calls, Yes(|calls|), u, 12, 22) + if 12 <= c.now < 22 then 1 else 0
  {
    assert Yes(|calls|) + [true] == Yes(|calls| + 1);
    AdmittedNext(calls, Yes(|calls|), c, true, u, 12, 22);
  }

  // ---------------------------------------------------------------- the bound under a skewed clock

  // A call reaches the table at most d after a later reading did.
  predicate AlmostInOrder(calls: seq<Call>, d: Time) {
    forall i, j | 0 <= i < j < |calls| :: calls[i].now <= calls[j].now + d
  }

  predicate Reached(calls: seq<Call>, now: Time) {
    exists i :: 0 <= i < |calls| && calls[i].now >= now
  }

  // One window of the user: how many calls it took in, and how many of them read the clock in a given span.
  datatype Opened = Opened(start: Time, count: nat, hits: nat)

  // The span [lo, hi), and the skew d.
  datatype Span = Span(lo: Time, hi: Time, d: Time)

  function Hit(sp: Span, now: Time): nat {
    if sp.lo <= now < sp.hi then 1 else 0
  }

  predicate Fits(o: Opened, sp: Span, limit: int, window: Time) {
    1 <= o.count <= limit && o.hits <= o.count && (o.hits > 0 ==> sp.lo - window < o.start < sp.hi + sp.d)
  }

  predicate AllFit(hist: seq<Opened>, sp: Span, limit: int, window: Time) {
    forall i | 0 <= i < |hist| :: Fits(hist[i], sp, limit, window)
  }

  function Hits(hist: seq<Opened>): nat {
    if hist == [] then 0 else Hits(hist[..|hist| - 1]) + hist[|hist| - 1].hits
  }

  // Each window opens at least the gap after the one before it.
  predicate Spaced(hist: seq<Opened>, gap: Time) {
    |hist| <= 1 ||
    (Spaced(hist[..|hist| - 1], gap) && hist[|hist| - 2].start + gap <= hist[|hist| - 1].start)
  }

  // The windows that the user has had so far.
  ghost predicate Explains(hist: seq<Opened>, ws: Windows, calls: seq<Call>, answers: seq<bool>, user: User,
          sp: Span, limit: int, window: Time)
  {
    |answers| == |calls| && Admitted(calls, answers, user, sp.lo, sp.hi) == Hits(hist) &&
    AllFit(hist, sp, limit, window) && Spaced(hist, window - sp.d) && Stands(hist, ws, calls, user, window)
  }

  // The table has the last of them, or had it until some call was past its end.
  ghost predicate Stands(hist: seq<Opened>, ws: Windows, calls: seq<Call>, user: User, window: Time) {
    if hist == [] then user !in ws
    else
      var last := hist[|hist| - 1];
      Reached(calls, last.start) &&
      if user in ws then ws[user] == Window(last.start, last.count) else Reached(calls, last.start + window)
  }

  lemma ReachedMore(calls: seq<Call>, c: Call, now: Time)
    ensures Reached(calls, now) || c.now >= now ==> Reached(calls + [c], now)
  {
    var calls' := calls + [c];
    if Reached(calls, now) {
      var i :| 0 <= i < |calls| && calls[i].now >= now;
      assert calls'[i].now >= now;
    }
    assert calls'[|calls|] == c;
  }

  lemma NotMuchEarlier(calls: seq<Call>, c: Call, now: Time, d: Time)
    requires AlmostInOrder(calls + [c], d) && Reached(calls, now)
    ensures c.now >= now - d
  {
    var i :| 0 <= i < |calls| && calls[i].now >= now;
    assert (calls + [c])[i] == calls[i] && (calls + [c])[|calls|] == c;
  }

  lemma SpacedMore(hist: seq<Opened>, o: Opened, gap: Time)
    requires Spaced(hist, gap) && (hist != [] ==> hist[|hist| - 1].start + gap <= o.start)
    ensures Spaced(hist + [o], gap) && Hits(hist + [o]) == Hits(hist) + o.hits
  {
    assert (hist + [o])[..|hist|] == hist;
  }

  lemma SpacedSame(hist: seq<Opened>, o: Opened, gap: Time)
    requires Spaced(hist, gap) && hist != [] && o.start == hist[|hist| - 1].start
    ensures var hist' := hist[|hist| - 1 := o];
      Spaced(hist', gap) && Hits(hist') + hist[|hist| - 1].hits == Hits(hist) + o.hits
  {
    assert hist[|hist| - 1 := o][..|hist| - 1] == hist[..|hist| - 1];
  }

  lemma CallIsExplained(hist: seq<Opened>, ws: Windows, calls: seq<Call>, answers: seq<bool>, c: Call, user: User,
          sp: Span, limit: int, window: Time)
    returns (hist': seq<Opened>)
    requires limit > 0 && 0 <= sp.d < window && AlmostInOrder(calls + [c], sp.d)
    requires Explains(hist, ws, calls, answers, user, sp, limit, window)
    ensures var (ws', ok) := Allow(ws, c, limit, window);
      Explains(hist', ws', calls + [c], answers + [ok], user, sp, limit, window)
  {
    hide Admitted, Spaced, Hits, AlmostInOrder, Fits, AllFit, Allow, Stands, Joins;
    var (ws', ok) := Allow(ws, c, limit, window);
    AdmittedNext(calls, answers, c, ok, user, sp.lo, sp.hi);
    StandsOn(hist, ws, calls, c, user, limit, window);
    if c.user != user || !ok {
      hist' := hist;
    } else if Joins(ws, c, window) {
      StandsFor(hist, ws, calls, c, window);
      FitsAt(hist, sp, limit, window, |hist| - 1);
      var o := JoinsTheLast(hist, ws, calls, c, sp, limit, window);
      SpacedSame(hist, o, window - sp.d);
      AllFitSame(hist, o, sp, limit, window);
      hist' := hist[|hist| - 1 := o];
    } else {
      var o := OpensLater(hist, ws, calls, c, sp, limit, window);
      SpacedMore(hist, o, window - sp.d);
      AllFitMore(hist, o, sp, limit, window);
      hist' := hist + [o];
    }
  }

  lemma StandsFor(hist: seq<Opened>, ws: Windows, calls: seq<Call>, c: Call, window: Time)
    requires Stands(hist, ws, calls, c.user, window) && Joins(ws, c, window)
    ensures hist != []
  {
  }

  lemma FitsAt(hist: seq<Opened>, sp: Span, limit: int, window: Time, i: nat)
    requires AllFit(hist, sp, limit, window) && i < |hist|
    ensures Fits(hist[i], sp, limit, window)
  {
  }

  lemma AllFitMore(hist: seq<Opened>, o: Opened, sp: Span, limit: int, window: Time)
    requires AllFit(hist, sp, limit, window) && Fits(o, sp, limit, window)
    ensures AllFit(hist + [o], sp, limit, window)
  {
    hide Fits;
  }

  lemma AllFitSame(hist: seq<Opened>, o: Opened, sp: Span, limit: int, window: Time)
    requires hist != [] && AllFit(hist, sp, limit, window) && Fits(o, sp, limit, window)
    ensures AllFit(hist[|hist| - 1 := o], sp, limit, window)
  {
    hide Fits;
  }

  // The call is counted in the window that the table has.
  predicate Joins(ws: Windows, c: Call, window: Time) {
    c.user in ws && !Over(ws[c.user], c.now, window)
  }

  lemma StandsOn(hist: seq<Opened>, ws: Windows, calls: seq<Call>, c: Call, user: User, limit: int, window: Time)
    requires limit > 0 && Stands(hist, ws, calls, user, window)
    ensures var (ws', ok) := Allow(ws, c, limit, window); c.user != user || !ok ==>
              Stands(hist, ws', calls + [c], user, window)
  {
    hide Reached;
    if hist != [] {
      var last := hist[|hist| - 1];
      ReachedMore(calls, c, last.start);
      ReachedMore(calls, c, last.start + window);
    }
  }

  lemma JoinsTheLast(hist: seq<Opened>, ws: Windows, calls: seq<Call>, c: Call, sp: Span, limit: int, window: Time)
    returns (o: Opened)
    requires limit > 0 && 0 <= sp.d && AlmostInOrder(calls + [c], sp.d) && Stands(hist, ws, calls, c.user, window)
    requires hist != [] && Joins(ws, c, window) && Allow(ws, c, limit, window).1
    requires Fits(hist[|hist| - 1], sp, limit, window)
    ensures var last := hist[|hist| - 1];
      o.start == last.start && o.hits == last.hits + Hit(sp, c.now) && Fits(o, sp, limit, window)
    ensures Stands(hist[|hist| - 1 := o], Allow(ws, c, limit, window).0, calls + [c], c.user, window)
  {
    hide Reached, AlmostInOrder;
    var last := hist[|hist| - 1];
    NotMuchEarlier(calls, c, last.start, sp.d);
    ReachedMore(calls, c, last.start);
    o := last.(count := last.count + 1, hits := last.hits + Hit(sp, c.now));
  }

  lemma OpensLater(hist: seq<Opened>, ws: Windows, calls: seq<Call>, c: Call, sp: Span, limit: int, window: Time)
    returns (o: Opened)
    requires limit > 0 && 0 <= sp.d < window && AlmostInOrder(calls + [c], sp.d)
    requires Stands(hist, ws, calls, c.user, window) && !Joins(ws, c, window)
    ensures o.hits == Hit(sp, c.now) && Fits(o, sp, limit, window)
    ensures hist != [] ==> hist[|hist| - 1].start + (window - sp.d) <= o.start
    ensures Stands(hist + [o], Allow(ws, c, limit, window).0, calls + [c], c.user, window)
  {
    hide Reached, AlmostInOrder;
    ReachedMore(calls, c, c.now);
    if hist != [] && c.user !in ws {
      NotMuchEarlier(calls, c, hist[|hist| - 1].start + window, sp.d);
    }
    o := Opened(c.now, 1, Hit(sp, c.now));
  }

  lemma {:induction false} RunIsExplained(calls: seq<Call>, user: User, sp: Span, limit: int, window: Time)
    returns (hist: seq<Opened>)
    requires limit > 0 && 0 <= sp.d < window && AlmostInOrder(calls, sp.d)
    ensures Explains(hist, Serve(calls, limit, window).0, calls, Serve(calls, limit, window).1, user, sp, limit, window)
  {
    hide Allow, Explains;
    if calls == [] {
      hist := [];
      NothingToExplain(user, sp, limit, window);
    } else {
      var fewer, c := calls[..|calls| - 1], calls[|calls| - 1];
      assert fewer + [c] == calls;
      hist := RunIsExplained(fewer, user, sp, limit, window);
      var (ws, answers) := Serve(fewer, limit, window);
      hist := CallIsExplained(hist, ws, fewer, answers, c, user, sp, limit, window);
    }
  }

  lemma NothingToExplain(user: User, sp: Span, limit: int, window: Time)
    ensures Explains([], map[], [], [], user, sp, limit, window)
  {
  }

  // All windows before the last one opened at least the gap before it.
  lemma {:induction false} OpenedBefore(hist: seq<Opened>, gap: Time, i: nat)
    requires Spaced(hist, gap) && gap >= 0 && i < |hist| - 1
    ensures hist[i].start + gap <= hist[|hist| - 1].start
    decreases |hist|
  {
    if i < |hist| - 2 {
      OpenedBefore(hist[..|hist| - 1], gap, i);
    }
  }

  // Windows that open in a stretch of m gaps are m at most, so they take in at most m times the limit.
  lemma {:induction false} HitsAreBounded(hist: seq<Opened>, gap: Time, limit: int, from: Time, top: Time, m: nat)
    requires Spaced(hist, gap) && gap > 0 && limit > 0 && top <= from + m * gap
    requires forall i | 0 <= i < |hist| && hist[i].hits > 0 :: from <= hist[i].start < top && hist[i].hits <= limit
    ensures Hits(hist) <= m * limit
    decreases |hist|
  {
    if hist != [] {
      var fewer, last := hist[..|hist| - 1], hist[|hist| - 1];
      if last.hits == 0 {
        HitsAreBounded(fewer, gap, limit, from, top, m);
      } else {
        assert m != 0;
        forall i | 0 <= i < |fewer| ensures hist[i].start + gap <= last.start {
          OpenedBefore(hist, gap, i);
        }
        assert (m - 1) * gap == m * gap - gap && (m - 1) * limit == m * limit - limit;
        HitsAreBounded(fewer, gap, limit, from, top - gap, m - 1);
      }
    }
  }

  // When calls are out of clock order by at most d, which is less than a window, any window's length admits
  // at most n times the limit, where n is the number of gaps of window - d that cover 2 * window + d - 1. The
  // eviction is part of this: it can forget a window up to d early for a call with an older reading.
  lemma BoundUnderSkew(calls: seq<Call>, user: User, t: Time, limit: int, window: Time, d: Time, n: nat)
    requires limit > 0 && 0 <= d < window && AlmostInOrder(calls, d)
    requires n * (window - d) >= 2 * window + d - 1
    ensures Admitted(calls, Serve(calls, limit, window).1, user, t, t + window) <= n * limit
  {
    hide Serve, Admitted, AlmostInOrder, Stands;
    var hist := RunIsExplained(calls, user, Span(t, t + window, d), limit, window);
    HitsAreBounded(hist, window - d, limit, t - window + 1, t + window + d, n);
  }

  // A skew of a whole window is too much: each call of another user then forgets the window of this one, so k
  // calls that read the clock at the same moment are all admitted, whatever the limit.
  function Crowd(n: nat, window: Time): seq<Call> {
    if n == 0 then [] else Crowd(n - 1, window) + [Call(User(n), window)]
  }

  function Burst(k: nat, window: Time): seq<Call> {
    if k == 0 then Crowd(CROWDED + 1, window)
    else Burst(k - 1, window) + [Call(User(0), 0)] + [Call(User(1), window)]
  }

  lemma NoBoundAtAWindow(k: nat, limit: int, window: Time)
    requires limit > 0 && window > 0
    ensures AlmostInOrder(Burst(k, window), window)
    ensures Admitted(Burst(k, window), Serve(Burst(k, window), limit, window).1, User(0), 0, window) >= k
  {
    BurstTimes(k, window);
    BurstIsAdmitted(k, limit, window);
  }

  predicate AtEitherEnd(calls: seq<Call>, window: Time) {
    forall i | 0 <= i < |calls| :: calls[i].now == 0 || calls[i].now == window
  }

  lemma {:induction false} CrowdTimes(n: nat, window: Time)
    ensures AtEitherEnd(Crowd(n, window), window)
  {
    if n > 0 {
      CrowdTimes(n - 1, window);
    }
  }

  lemma {:induction false} BurstTimes(k: nat, window: Time)
    ensures AtEitherEnd(Burst(k, window), window)
  {
    if k == 0 {
      CrowdTimes(CROWDED + 1, window);
    } else {
      BurstTimes(k - 1, window);
    }
  }

  // The windows of n users, opened together.
  ghost predicate Crowded(ws: Windows, n: nat, window: Time) {
    |ws| == n && forall u | u in ws :: 1 <= u.id <= n && ws[u].start == window
  }

  // More of them than the table keeps without looking, and none of the first user's.
  ghost predicate Packed(ws: Windows, window: Time) {
    |ws| > CROWDED && User(0) !in ws && forall u | u in ws :: ws[u].start == window
  }

  lemma OneMore(ws: Windows, u: User, w: Window)
    ensures |ws[u := w]| == if u in ws then |ws| else |ws| + 1
  {
    var ws' := ws[u := w];
    assert |ws'| == |ws'.Keys| && |ws| == |ws.Keys|;
    assert ws'.Keys == ws.Keys + {u};
  }

  lemma {:induction false} CrowdIsServed(n: nat, limit: int, window: Time)
    requires limit > 0 && window > 0
    ensures Crowded(Serve(Crowd(n, window), limit, window).0, n, window)
  {
    hide Allow;
    if n > 0 {
      CrowdIsServed(n - 1, limit, window);
      var calls, c := Crowd(n - 1, window), Call(User(n), window);
      assert (calls + [c])[..|calls|] == calls;
      CrowdGrows(Serve(calls, limit, window).0, n - 1, limit, window);
    }
  }

  lemma CrowdGrows(ws: Windows, n: nat, limit: int, window: Time)
    requires limit > 0 && window > 0 && Crowded(ws, n, window)
    ensures Crowded(Allow(ws, Call(User(n + 1), window), limit, window).0, n + 1, window)
  {
    assert Evicted(ws, window, window) == ws;
    OneMore(ws, User(n + 1), Window(window, 1));
  }

  // One round of the burst: the first user is let in, and the next call of another forgets it.
  lemma RoundOfBurst(ws: Windows, limit: int, window: Time)
    requires limit > 0 && window > 0 && Packed(ws, window)
    ensures var (ws1, ok) := Allow(ws, Call(User(0), 0), limit, window);
      ok && Packed(Allow(ws1, Call(User(1), window), limit, window).0, window)
  {
    assert Evicted(ws, 0, window) == ws;
    var ws1 := ws[User(0) := Window(0, 1)];
    OneMore(ws, User(0), Window(0, 1));
    assert Evicted(ws1, window, window) == ws;
    var w := if User(1) in ws then ws[User(1)].(count := ws[User(1)].count + 1) else Window(window, 1);
    OneMore(ws, User(1), w);
  }

  lemma {:induction false} BurstIsAdmitted(k: nat, limit: int, window: Time)
    requires limit > 0 && window > 0
    ensures Packed(Serve(Burst(k, window), limit, window).0, window)
    ensures Admitted(Burst(k, window), Serve(Burst(k, window), limit, window).1, User(0), 0, window) >= k
  {
    hide Allow, Admitted, Crowd;
    if k == 0 {
      CrowdIsServed(CROWDED + 1, limit, window);
    } else {
      BurstIsAdmitted(k - 1, limit, window);
      var calls, c, other := Burst(k - 1, window), Call(User(0), 0), Call(User(1), window);
      var (ws, answers) := Serve(calls, limit, window);
      RoundOfBurst(ws, limit, window);
      assert (calls + [c])[..|calls|] == calls && (calls + [c] + [other])[..|calls| + 1] == calls + [c];
      var (ws1, ok) := Allow(ws, c, limit, window);
      AdmittedNext(calls, answers, c, ok, User(0), 0, window);
      AdmittedNext(calls + [c], answers + [ok], other, Allow(ws1, other, limit, window).1, User(0), 0, window);
    }
  }

  // Without the eviction the same calls meet the limit: so out of clock order it does change answers.
  lemma EvictionIsVisible(limit: int, window: Time)
    requires limit > 0 && window > 0
    ensures var calls := Burst(limit + 1, window); Serve(calls, limit, window).1 != ServePlain(calls, limit, window).1
  {
    hide Admitted, Serve, ServePlain;
    BurstIsAdmitted(limit + 1, limit, window);
    BurstMeetsTheLimit(limit + 1, limit, window);
  }

  lemma {:induction false} CrowdIsServedPlainly(n: nat, limit: int, window: Time)
    requires limit > 0
    ensures User(0) !in ServePlain(Crowd(n, window), limit, window).0
    ensures Admitted(Crowd(n, window), ServePlain(Crowd(n, window), limit, window).1, User(0), 0, window) == 0
  {
    if n > 0 {
      CrowdIsServedPlainly(n - 1, limit, window);
      var calls, c := Crowd(n - 1, window), Call(User(n), window);
      assert (calls + [c])[..|calls|] == calls;
      var (ws, answers) := ServePlain(calls, limit, window);
      AdmittedNext(calls, answers, c, Decide(ws, c, limit, window).1, User(0), 0, window);
    }
  }

  // Without the eviction the first user's window stays, and fills up.
  lemma RoundMeetsTheLimit(ws: Windows, limit: int, window: Time)
    requires limit > 0 && window > 0 && (User(0) in ws ==> ws[User(0)].start == 0)
    ensures var (ws1, ok) := Decide(ws, Call(User(0), 0), limit, window);
      var ws2 := Decide(ws1, Call(User(1), window), limit, window).0;
      var count := if User(0) in ws then ws[User(0)].count else 0;
      (ok <==> count < limit) && User(0) in ws2 && ws2[User(0)] == Window(0, if ok then count + 1 else count)
  {
  }

  lemma {:induction false} BurstMeetsTheLimit(k: nat, limit: int, window: Time)
    requires limit > 0 && window > 0
    ensures var (ws, answers) := ServePlain(Burst(k, window), limit, window);
      var admitted := Admitted(Burst(k, window), answers, User(0), 0, window);
      admitted <= limit && if User(0) in ws then ws[User(0)] == Window(0, admitted) else admitted == 0
  {
    hide Admitted, Crowd, Decide;
    if k == 0 {
      CrowdIsServedPlainly(CROWDED + 1, limit, window);
    } else {
      BurstMeetsTheLimit(k - 1, limit, window);
      var calls, c, other := Burst(k - 1, window), Call(User(0), 0), Call(User(1), window);
      var (ws, answers) := ServePlain(calls, limit, window);
      assert (calls + [c])[..|calls|] == calls && (calls + [c] + [other])[..|calls| + 1] == calls + [c];
      var (ws1, ok) := Decide(ws, c, limit, window);
      AdmittedNext(calls, answers, c, ok, User(0), 0, window);
      AdmittedNext(calls + [c], answers + [ok], other, Decide(ws1, other, limit, window).1, User(0), 0, window);
      RoundMeetsTheLimit(ws, limit, window);
    }
  }

  // ---------------------------------------------------------------- the limiter

  class UserRateLimiter {
    var windows: Windows

    constructor ()
      ensures windows == map[]
    {
      windows := map[];
    }

    method Admit(c: Call, limit: int, window: Time) returns (ok: bool)
      modifies this
      ensures (windows, ok) == Allow(old(windows), c, limit, window)
    {
      if limit <= 0 {
        return true;
      }
      if |windows| > CROWDED {
        Evict(c.now, window);
      }
      if c.user !in windows || c.now - windows[c.user].start >= window {
        windows := windows[c.user := Window(c.now, 1)];
        return true;
      }
      var w := windows[c.user];
      if w.count >= limit {
        return false;
      }
      windows := windows[c.user := w.(count := w.count + 1)];
      return true;
    }

    method Evict(now: Time, window: Time)
      modifies this
      ensures windows == Evicted(old(windows), now, window)
    {
      var left := windows.Keys;
      ghost var was := windows;
      while left != {}
        invariant left <= was.Keys
        invariant windows.Keys <= was.Keys
        invariant forall id | id in was ::
                    (id in windows <==> id in left || !Over(was[id], now, window)) &&
                    (id in windows ==> windows[id] == was[id])
        decreases left
      {
        var id :| id in left;
        left := left - {id};
        if now - windows[id].start >= window {
          windows := windows - {id};
        }
      }
    }
  }
}
