/** The settlement queue of a WebSocket session (internal/server/codex_ws.go): the pump hands completed
    turns to one worker over a bounded channel, and settles a turn itself when the channel is full. */
module BillQueue {
  import opened Bytes
  import TurnBilling

  type Counts = TurnBilling.Counts

  datatype Bill = Bill(turn: Counts, seq_: nat)

  const QUEUE: nat := 64

  // `inline` and `worker` are settlements under way on the pump's and on the worker's goroutine.
  datatype State = State(
    turnSeq: nat, queue: seq<Bill>, inline: Option<Bill>, worker: Option<Bill>, closed: bool, settled: seq<Bill>)

  datatype Step =
    | Turn(turn: Counts)   // the pump completes a turn
    | InlineDone           // … and has settled it itself
    | Take                 // the worker receives from the channel
    | Settle               // … and has settled what it received
    | Close                // the pump returned

  const START := State(0, [], None, None, false, [])

  predicate Enabled(s: State, step: Step) {
    match step
    case Turn(_) => !s.closed && s.inline.None?
    case InlineDone => s.inline.Some?
    case Take => s.worker.None? && s.queue != []
    case Settle => s.worker.Some?
    case Close => !s.closed && s.inline.None?
  }

  function Apply(s: State, step: Step): State
    requires Enabled(s, step)
  {
    match step
    case Turn(turn) =>
      var tb := Bill(turn, s.turnSeq + 1);
      if |s.queue| < QUEUE then s.(turnSeq := s.turnSeq + 1, queue := s.queue + [tb])
      else s.(turnSeq := s.turnSeq + 1, inline := Some(tb))
    case InlineDone => s.(inline := None, settled := s.settled + [s.inline.value])
    case Take => s.(worker := Some(s.queue[0]), queue := s.queue[1..])
    case Settle => s.(worker := None, settled := s.settled + [s.worker.value])
    case Close => s.(closed := true)
  }

  ghost predicate Run(steps: seq<Step>)
    decreases |steps|, 0
  {
    steps != [] ==> Run(steps[..|steps| - 1]) && Enabled(After(steps[..|steps| - 1]), steps[|steps| - 1])
  }

  ghost function After(steps: seq<Step>): State
    requires Run(steps)
    decreases |steps|, 1
  {
    if steps == [] then START else Apply(After(steps[..|steps| - 1]), steps[|steps| - 1])
  }

  // close(billCh) happened and billWG.Wait can return.
  predicate Returned(s: State) {
    s.closed && s.queue == [] && s.worker.None?
  }

  // The turns the pump completed, numbered from 1.
  function Completed(steps: seq<Step>): seq<Bill> {
    if steps == [] then []
    else
      var before := Completed(steps[..|steps| - 1]);
      if steps[|steps| - 1].Turn? then before + [Bill(steps[|steps| - 1].turn, |before| + 1)] else before
  }

  function Pending(o: Option<Bill>): multiset<Bill> {
    if o.Some? then multiset{o.value} else multiset{}
  }

  // Every completed turn is in exactly one place.
  ghost predicate Kept(s: State, completed: seq<Bill>) {
    s.turnSeq == |completed| && |s.queue| <= QUEUE && (s.closed ==> s.inline.None?) &&
    Places(s) == multiset(completed)
  }

  function Places(s: State): multiset<Bill> {
    multiset(s.queue) + Pending(s.inline) + Pending(s.worker) + multiset(s.settled)
  }

  lemma One(bs: seq<Bill>, b: Bill)
    ensures multiset(bs + [b]) == multiset(bs) + multiset{b}
  {
  }

  lemma TurnMoves(s: State, turn: Counts)
    requires Enabled(s, Turn(turn))
    ensures Places(Apply(s, Turn(turn))) == Places(s) + multiset{Bill(turn, s.turnSeq + 1)}
  {
    One(s.queue, Bill(turn, s.turnSeq + 1));
  }

  lemma TakeMoves(s: State)
    requires Enabled(s, Take)
    ensures Places(Apply(s, Take)) == Places(s)
  {
    assert s.queue == [s.queue[0]] + s.queue[1..];
  }

  lemma SettleMoves(s: State, step: Step)
    requires Enabled(s, step) && (step.Settle? || step.InlineDone?)
    ensures Places(Apply(s, step)) == Places(s)
  {
    One(s.settled, if step.Settle? then s.worker.value else s.inline.value);
  }

  lemma CloseMoves(s: State)
    requires Enabled(s, Close)
    ensures Places(Apply(s, Close)) == Places(s)
  {
  }

  lemma StepKeeps(s: State, step: Step, completed: seq<Bill>)
    requires Kept(s, completed) && Enabled(s, step)
    ensures Kept(Apply(s, step), if step.Turn? then completed + [Bill(step.turn, |completed| + 1)] else completed)
  {
    hide Places;
    match step
    case Turn(turn) =>
      TurnMoves(s, turn);
      One(completed, Bill(turn, |completed| + 1));
    case Take =>
      TakeMoves(s);
    case Close =>
      CloseMoves(s);
    case _ =>
      SettleMoves(s, step);
  }

  lemma {:induction false} NothingIsLost(steps: seq<Step>)
    requires Run(steps)
    ensures Kept(After(steps), Completed(steps))
    decreases |steps|
  {
    hide Kept, Enabled, Apply;
    if steps == [] {
      StartKeeps();
    } else {
      NothingIsLost(steps[..|steps| - 1]);
      StepKeeps(After(steps[..|steps| - 1]), steps[|steps| - 1], Completed(steps[..|steps| - 1]));
    }
  }

  lemma StartKeeps()
    ensures Kept(START, [])
  {
  }

  // A completed turn takes the next number and a place at the end of the queue, or, exactly when that is full,
  // is settled by the pump itself.
  lemma TurnGoesExactly(steps: seq<Step>, turn: Counts)
    requires Run(steps) && Enabled(After(steps), Turn(turn))
    ensures var s := After(steps); var s' := Apply(s, Turn(turn)); var bill := Bill(turn, |Completed(steps)| + 1);
      if |s.queue| == 64 then s'.inline == Some(bill) && s'.queue == s.queue
      else s'.inline.None? && s'.queue == s.queue + [bill]
  {
    NothingIsLost(steps);
  }

  // What waits is in the order of completion, behind what the worker has taken.
  ghost predicate InOrder(s: State) {
    (forall i, j | 0 <= i < j < |s.queue| :: s.queue[i].seq_ < s.queue[j].seq_) &&
    (forall i | 0 <= i < |s.queue| :: s.queue[i].seq_ <= s.turnSeq) &&
    (s.worker.Some? ==>
       s.worker.value.seq_ <= s.turnSeq && forall i | 0 <= i < |s.queue| :: s.worker.value.seq_ < s.queue[i].seq_)
  }

  lemma {:induction false} QueueIsInOrder(steps: seq<Step>)
    requires Run(steps)
    ensures InOrder(After(steps))
    decreases |steps|
  {
    if steps != [] {
      QueueIsInOrder(steps[..|steps| - 1]);
      StepKeepsOrder(After(steps[..|steps| - 1]), steps[|steps| - 1]);
    }
  }

  lemma StepKeepsOrder(s: State, step: Step)
    requires InOrder(s) && Enabled(s, step)
    ensures InOrder(Apply(s, step))
  {
  }

  // Once closed a session stays closed, and no turn comes after that.
  lemma {:induction false} ClosedForGood(steps: seq<Step>, i: nat)
    requires Run(steps) && i < |steps| && steps[i].Close?
    ensures After(steps).closed && forall j | i < j < |steps| :: !steps[j].Turn?
    decreases |steps|
  {
    if i < |steps| - 1 {
      ClosedForGood(steps[..|steps| - 1], i);
      assert forall j | i < j < |steps| - 1 :: steps[j] == steps[..|steps| - 1][j];
    }
  }

  // When Wait returns, the settled turns are exactly the completed ones, each once, whatever way it took,
  // and the queue is empty.
  lemma EveryTurnIsSettledOnce(steps: seq<Step>)
    requires Run(steps) && Returned(After(steps))
    ensures multiset(After(steps).settled) == multiset(Completed(steps))
    ensures After(steps).inline.None? && After(steps).queue == []
  {
    NothingIsLost(steps);
  }

  lemma {:induction false} CompletedAreNumbered(steps: seq<Step>, i: nat)
    requires i < |Completed(steps)|
    ensures Completed(steps)[i].seq_ == i + 1
  {
    if i < |Completed(steps[..|steps| - 1])| {
      CompletedAreNumbered(steps[..|steps| - 1], i);
    }
  }

  // Until it has returned, a closed session always has something to do, and each step brings the end
  // nearer: Wait returns.
  function Remaining(s: State): nat {
    2 * |s.queue| + if s.worker.Some? then 1 else 0
  }

  lemma DrainEnds(s: State)
    requires s.closed && s.inline.None?
    ensures !Returned(s) ==> exists step :: Enabled(s, step)
    ensures forall step | Enabled(s, step) :: Remaining(Apply(s, step)) < Remaining(s) && Apply(s, step).closed &&
                                              Apply(s, step).inline.None?
  {
    if s.worker.Some? {
      assert Enabled(s, Settle);
    } else if s.queue != [] {
      assert Enabled(s, Take);
    }
  }

  // ---------------------------------------------------------------- the slots

  function Digits(n: nat): string {
    if n < 10 then [('0' as int + n) as char] else Digits(n / 10) + [('0' as int + n % 10) as char]
  }

  // The slot under which a turn is charged: "turn:" and its number.
  function Slot(n: nat): string {
    "turn:" + Digits(n)
  }

  lemma {:induction false} DigitsTellApart(n: nat, m: nat)
    requires Digits(n) == Digits(m)
    ensures n == m
  {
    LastDigit(n);
    LastDigit(m);
    if n >= 10 && m >= 10 {
      assert Digits(n / 10) == Digits(m / 10);
      DigitsTellApart(n / 10, m / 10);
    }
  }

  lemma LastDigit(n: nat)
    ensures |Digits(n)| > 0 && Digits(n)[|Digits(n)| - 1] == ('0' as int + n % 10) as char
    ensures n < 10 <==> |Digits(n)| == 1
    ensures n >= 10 ==> Digits(n)[..|Digits(n)| - 1] == Digits(n / 10)
  {
  }

  // No two settled turns share a slot, so none replays another's charge.
  lemma SlotsAreDistinct(steps: seq<Step>, i: nat, j: nat)
    requires Run(steps) && i < j < |After(steps).settled|
    ensures Slot(After(steps).settled[i].seq_) != Slot(After(steps).settled[j].seq_)
  {
    var s, completed := After(steps), Completed(steps);
    NothingIsLost(steps);
    assert multiset(s.settled) <= multiset(completed);
    var x, y := s.settled[i], s.settled[j];
    forall k | 0 <= k < |completed| ensures completed[k].seq_ == k + 1 {
      CompletedAreNumbered(steps, k);
    }
    if x.seq_ == y.seq_ {
      SameNumberTwice(s.settled, completed, i, j);
    }
    if Slot(x.seq_) == Slot(y.seq_) {
      assert Slot(x.seq_)[5..] == Digits(x.seq_) && Slot(y.seq_)[5..] == Digits(y.seq_);
      DigitsTellApart(x.seq_, y.seq_);
    }
  }

  lemma SameNumberTwice(settled: seq<Bill>, completed: seq<Bill>, i: nat, j: nat)
    requires i < j < |settled| && multiset(settled) <= multiset(completed)
    requires forall k | 0 <= k < |completed| :: completed[k].seq_ == k + 1
    ensures settled[i].seq_ != settled[j].seq_
  {
    var x, y := settled[i], settled[j];
    assert x in multiset(completed) && y in multiset(completed);
    if x.seq_ == y.seq_ {
      assert x == completed[x.seq_ - 1] && y == completed[y.seq_ - 1];
      TwicePresent(settled, i, j);
      AtMostOnce(completed, x);
    }
  }

  lemma TwicePresent(s: seq<Bill>, i: nat, j: nat)
    requires i < j < |s| && s[i] == s[j]
    ensures multiset(s)[s[i]] >= 2
  {
    assert s == s[..i] + [s[i]] + s[i + 1..j] + [s[j]] + s[j + 1..];
  }

  lemma {:induction false} AtMostOnce(s: seq<Bill>, b: Bill)
    requires forall k | 0 <= k < |s| :: s[k].seq_ == k + 1
    ensures multiset(s)[b] <= 1
  {
    if s != [] {
      var fewer := s[..|s| - 1];
      assert s == fewer + [s[|s| - 1]];
      AtMostOnce(fewer, b);
      if b == s[|s| - 1] {
        assert b !in fewer;
      }
    }
  }

  // ---------------------------------------------------------------- the channel

  class Channel {
    var turnSeq: nat
    var queue: seq<Bill>
    var inline: Option<Bill>
    var worker: Option<Bill>
    var closed: bool
    var settled: seq<Bill>

    ghost function View(): State
      reads this
    {
      State(turnSeq, queue, inline, worker, closed, settled)
    }

    constructor ()
      ensures View() == START
    {
      turnSeq, queue, inline, worker, closed, settled := 0, [], None, None, false, [];
    }

    // billTurn: a full channel never blocks the pump.
    method BillTurn(turn: Counts)
      requires Enabled(View(), Turn(turn))
      modifies this
      ensures View() == Apply(old(View()), Turn(turn))
    {
      turnSeq := turnSeq + 1;
      var tb := Bill(turn, turnSeq);
      if |queue| < QUEUE {
        queue := queue + [tb];
      } else {
        inline := Some(tb);
      }
    }

    method FinishInline()
      requires Enabled(View(), InlineDone)
      modifies this
      ensures View() == Apply(old(View()), InlineDone)
    {
      settled := settled + [inline.value];
      inline := None;
    }

    // The worker's loop, from wherever it stands, once the channel is closed.
    method Drain()
      requires closed && inline.None?
      modifies this
      ensures Returned(View()) && turnSeq == old(turnSeq) && closed && inline.None?
      ensures settled == old(settled) + (if old(worker).Some? then [old(worker).value] else []) + old(queue)
    {
      ghost var todo := (if worker.Some? then [worker.value] else []) + queue;
      assert settled + todo == old(settled) + (if old(worker).Some? then [old(worker).value] else []) + old(queue);
      while worker.Some? || queue != []
        invariant settled + (if worker.Some? then [worker.value] else []) + queue == old(settled) + todo
        invariant closed && inline.None? && turnSeq == old(turnSeq)
        decreases Remaining(View())
      {
        if worker.None? {
          assert queue == [queue[0]] + queue[1..];
          worker, queue := Some(queue[0]), queue[1..];
        } else {
          settled, worker := settled + [worker.value], None;
        }
      }
    }
  }
}
