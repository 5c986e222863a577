/** From the relay to the failover loop: what doForwardCodexOAuth (internal/server/codex_oauth_proxy.go)
    makes of a streamed attempt that has ended, and what the client sees of a request served by several. */
module CodexAttempt {
  import opened Bytes
  import R = Relay
  import S = RelaySilence
  import B = ChatBridge
  import F = Failover

  // One streamed attempt: what upstream sends, whether the client hung up, and the socket it came over.
  datatype Stream = Stream(lines: seq<Bytes>, tail: Bytes, fin: ReadError, clientGone: bool, pooledSocket: bool)

  function RunOf(env: R.Env, s: Stream): R.Trace {
    R.Run(env, R.INIT, s.lines, s.tail, s.fin)
  }

  // Refusals about the turn rather than the account.
  predicate CapacityCode(code: R.ErrorCode) {
    code == R.OtherCode("server_is_overloaded") || code == R.OtherCode("slow_down")
  }

  // The parked turn is named here once more, for relays that have no name for it.
  function ShedOf(run: R.Trace, fin: ReadError): R.Shed {
    if run.st.out.shed == R.NotShed && run.written == [] && fin.Stalled? then R.StalledTurn else run.st.out.shed
  }

  // The failover branch: only a stream that neither ended properly nor reached the client is retried.
  function EndOfStream(env: R.Env, s: Stream): F.Outcome {
    var run := RunOf(env, s);
    if run.sawTerminal || run.written != [] then F.Outcome(false, true, None, false, false)
    else if s.clientGone then F.Outcome(false, true, None, false, false)
    else if ShedOf(run, s.fin) != R.NotShed then F.Outcome(true, false, None, false, CapacityCode(run.st.out.shedCode))
    else F.Outcome(true, false, None, s.pooledSocket, false)
  }

  // An attempt is retried exactly when no line of it commits, no terminal event came through, and
  // somebody is still waiting.
  lemma RetriedExactly(env: R.Env, s: Stream)
    ensures EndOfStream(env, s).retry <==>
            !S.Commits(env, 0, S.MoodOf(R.INIT), s.lines, s.tail, s.fin) && !RunOf(env, s).sawTerminal && !s.clientGone
    ensures !EndOfStream(env, s).retry ==> EndOfStream(env, s) == F.Outcome(false, true, None, false, false)
  {
    hide R.Run, S.Commits;
    S.SilentExactly(env, R.INIT, s.lines, s.tail, s.fin);
  }

  // A retried attempt tells the loop what it needs to know about the credential: the turn was shed for capacity
  // if the last reason upstream gave has one of the two codes; and if it gave none, and did not stall, over a
  // socket from the pool, the socket was dead.
  lemma RetriedWithItsReason(env: R.Env, s: Stream)
    requires EndOfStream(env, s).retry
    ensures var last := S.LastRecord(env, 0, false, S.Record(R.NotShed, R.NoCode), s.lines, s.tail, s.fin);
      var end := EndOfStream(env, s);
      !end.done && end.deferred.None? && (end.stale <==> s.pooledSocket && last.shed == R.NotShed) &&
      (end.shed <==> last.shed != R.NotShed &&
                     last.code in {R.OtherCode("server_is_overloaded"), R.OtherCode("slow_down")})
  {
    RetriedExactly(env, s);
    hide R.Run, S.Commits, S.LastRecord;
    S.SilentRunReports(env, R.INIT, s.lines, s.tail, s.fin);
    if s.fin.Stalled? {
      StallIsAReason(env, 0, false, S.Record(R.NotShed, R.NoCode), s.lines, s.tail);
    }
  }

  lemma {:induction false} StallIsAReason(
    env: R.Env, k: nat, latched: bool, r: S.Record, lines: seq<Bytes>, tail: Bytes)
    requires latched ==> r.shed != R.NotShed
    ensures S.LastRecord(env, k, latched, r, lines, tail, Stalled).shed != R.NotShed
    decreases |lines|
  {
    hide R.IsEvent, R.IsJson, R.Repaired, R.TransientError;
    if lines != [] && !S.Ends(env, k, lines[0]) {
      StallIsAReason(env, k + 1, latched || S.Latches(env, k, lines[0]), S.LineRecord(env, k, r, lines[0]), lines[1..],
                     tail);
    }
  }

  // A stream without content and without a fatal error is always retried for a client that waits.
  lemma QuietStreamIsRetried(env: R.Env, s: Stream)
    requires forall i | 0 <= i < |s.lines| :: S.Quiet(env, i, s.lines[i])
    requires S.Quiet(env, |s.lines|, s.tail)
    ensures EndOfStream(env, s).retry <==> !s.clientGone
  {
    hide R.Run, S.Quiet;
    S.QuietStreamsKeepFailoverOpen(env, R.INIT, s.lines, s.tail, s.fin);
  }

  // The chat route: the frames of the bridge, and whether one of them is the final one.
  function FramesOf(env: B.Env, s: Stream): seq<Bytes> {
    B.Deliverable(env, 0, false, s.lines + [s.tail])
  }

  // The bridge never names the code of a shed, so its turns are not retried in place.
  ghost function EndOfBridge(env: B.Env, s: Stream): F.Outcome {
    var frames := FramesOf(env, s);
    var sawTerminal := exists k :: 0 <= k < |frames| && env.isDone(frames[k]);
    if sawTerminal || Concat(frames) != [] || s.clientGone then F.Outcome(false, true, None, false, false)
    else
      var shed := B.RefusedFirst(env, 0, s.lines + [s.tail]) || s.fin.Stalled?;
      F.Outcome(true, false, None, s.pooledSocket && !shed, false)
  }

  // A turn the bridge sees refused before its first frame is retried whenever the client waits.
  lemma RefusedBridgeIsRetried(env: B.Env, s: Stream)
    requires B.RefusedFirst(env, 0, s.lines + [s.tail])
    ensures FramesOf(env, s) == [] && (EndOfBridge(env, s).retry <==> !s.clientGone)
    ensures !EndOfBridge(env, s).stale && !EndOfBridge(env, s).shed
  {
    B.AllOrNothing(env, 0, s.lines + [s.tail]);
    hide B.RefusedFirst, B.Deliverable;
    ConcatNothing();
  }

  // The ways in which an OAuth attempt ends: turned down before any stream, silently or with a final error
  // body; as a native stream; or over the bridge.
  datatype Attempt =
    | TurnedDown(again: bool, body: Bytes)
    | Native(relay: R.Env, stream: Stream)
    | Bridged(bridge: B.Env, stream: Stream)

  ghost function EndOf(a: Attempt): F.Outcome {
    match a
    case TurnedDown(again, _) => F.Outcome(again, !again, None, false, false)
    case Native(relay, stream) => EndOfStream(relay, stream)
    case Bridged(bridge, stream) => EndOfBridge(bridge, stream)
  }

  function WrittenBy(a: Attempt): Bytes {
    match a
    case TurnedDown(again, body) => if again then [] else body
    case Native(relay, stream) => RunOf(relay, stream).written
    case Bridged(bridge, stream) => Concat(FramesOf(bridge, stream))
  }

  // Only an attempt the client has seen nothing of is retried.
  lemma RetriedUnseen(a: Attempt)
    ensures EndOf(a).retry ==> WrittenBy(a) == [] && !EndOf(a).done
    ensures !EndOf(a).retry ==> EndOf(a).done && !EndOf(a).stale && !EndOf(a).shed
    ensures a.TurnedDown? && !a.again ==> WrittenBy(a) == a.body
  {
    hide RunOf, FramesOf, B.RefusedFirst;
  }

  // ---------------------------------------------------------------- the whole request

  // What round n writes to the client when it forwards to a credential.
  type Writes = (nat, F.Id) -> Bytes

  // An attempt the loop goes on from, or gives up waiting after, has written nothing.
  ghost predicate Withholds(env: F.Env, writes: Writes) {
    forall n, id :: env.forward(n, id).retry && !env.forward(n, id).done ==> writes(n, id) == []
  }

  // OAuth credentials are served by such attempts; API keys by a path of their own, which withholds likewise.
  ghost predicate Serves(env: F.Env, attempts: (nat, F.Id) -> Attempt, writes: Writes) {
    forall n, id ::
      if id in env.kinds && env.kinds[id] == F.OAuth
      then env.forward(n, id) == EndOf(attempts(n, id)) && writes(n, id) == WrittenBy(attempts(n, id))
      else env.forward(n, id).retry && !env.forward(n, id).done ==> writes(n, id) == []
  }

  lemma AttemptsWithhold(env: F.Env, attempts: (nat, F.Id) -> Attempt, writes: Writes)
    requires Serves(env, attempts, writes)
    ensures Withholds(env, writes)
    ensures forall n, id | id in env.kinds && env.kinds[id] == F.OAuth ::
              !(env.forward(n, id).retry && env.forward(n, id).done)
  {
    hide EndOf, WrittenBy;
    forall n, id
      ensures env.forward(n, id).retry && !env.forward(n, id).done ==> writes(n, id) == []
      ensures id in env.kinds && env.kinds[id] == F.OAuth ==> !(env.forward(n, id).retry && env.forward(n, id).done)
    {
      RetriedUnseen(attempts(n, id));
    }
  }

  // All bytes of the request, in order.
  function Seen(writes: Writes, log: seq<F.Event>): Bytes {
    if log == [] then []
    else
      var last := log[|log| - 1];
      Seen(writes, log[..|log| - 1]) + if last.what.Forwarded? then writes(|log| - 1, last.id) else []
  }

  lemma {:induction false} WithheldIsUnseen(env: F.Env, writes: Writes, log: seq<F.Event>)
    requires Withholds(env, writes) && F.Recorded(env, log) && F.AllWentOn(log)
    ensures Seen(writes, log) == []
  {
    if log != [] {
      var fewer := log[..|log| - 1];
      assert forall i | 0 <= i < |fewer| :: fewer[i] == log[i];
      WithheldIsUnseen(env, writes, fewer);
      var last := log[|log| - 1];
      if last.what.Forwarded? {
        assert F.WentOn(last) && last.what.out == env.forward(|log| - 1, last.id);
      }
    }
  }

  // However many credentials a request burns, the client sees the bytes of one attempt at most: the last.
  lemma ClientSeesOneAttempt(env: F.Env, writes: Writes, log: seq<F.Event>)
    requires Withholds(env, writes) && F.Recorded(env, log)
    requires forall i | 0 <= i < |log| - 1 :: F.WentOn(log[i])
    ensures Seen(writes, log) ==
            if log != [] && log[|log| - 1].what.Forwarded? && !F.WentOn(log[|log| - 1])
            then writes(|log| - 1, log[|log| - 1].id) else []
  {
    if log != [] {
      PrefixIsWithheld(env, writes, log);
      hide F.Recorded, F.AllWentOn, F.WentOn, Withholds;
      WithheldIsUnseen(env, writes, log[..|log| - 1]);
    }
  }

  lemma PrefixIsWithheld(env: F.Env, writes: Writes, log: seq<F.Event>)
    requires Withholds(env, writes) && F.Recorded(env, log) && log != []
    requires forall i | 0 <= i < |log| - 1 :: F.WentOn(log[i])
    ensures F.Recorded(env, log[..|log| - 1]) && F.AllWentOn(log[..|log| - 1])
    ensures var last := log[|log| - 1];
            last.what.Forwarded? && F.WentOn(last) ==> writes(|log| - 1, last.id) == []
  {
    var fewer, last := log[..|log| - 1], log[|log| - 1];
    assert forall i | 0 <= i < |fewer| :: fewer[i] == log[i];
    if last.what.Forwarded? && F.WentOn(last) {
      assert last.what.out == env.forward(|log| - 1, last.id);
    }
  }

  /** A request over all its attempts: the client sees one, the one that answered it, or nothing. */
  method ServeCodex(env: F.Env, ghost attempts: (nat, F.Id) -> Attempt, seeded: bool, ghost writes: Writes)
    returns (reply: F.Reply, log: seq<F.Event>)
    requires F.Fair(env) && Serves(env, attempts, writes)
    ensures reply.Answered? ==>
              log != [] && log[|log| - 1].what.Forwarded? && Seen(writes, log) == writes(|log| - 1, log[|log| - 1].id)
    ensures !reply.Answered? ==> Seen(writes, log) == []
  {
    AttemptsWithhold(env, attempts, writes);
    hide EndOf, WrittenBy, Withholds, Serves, Seen;
    var count;
    reply, log, count := F.ForwardWithFailover(env, seeded);
    ClientSeesOneAttempt(env, writes, log);
  }
}
