/** Stopping the operator: one stop channel, one lock around `stop`, a wait group over the workers. */
module Shutdown {

  /** Where a call of `stop` is. */
  datatype Stop = Called | Locked | Waiting | Returned

  /**
   * `closed` counts the closings of the stop channel, `waitGroup` is the counter that `runWorkers`
   * raised once a worker, `running` the workers that are still in their loop or have yet to report;
   * `stuck` are those that wait for a lock that never comes.
   */
  datatype Sys = Sys(
    closed: nat, queueDown: bool, waitGroup: int, running: seq<bool>, stuck: set<nat>, holder: int, stops: seq<Stop>)

  datatype Move =
    | QueueDown
    | Finish(worker: nat)
    | LockStop(call: nat)
    | SeeClosed(call: nat)
    | Close(call: nat)
    | WaitDone(call: nat)

  ghost predicate Enabled(y: Sys, m: Move) {
    match m
    case QueueDown => y.closed > 0 && !y.queueDown
    case Finish(w) => y.queueDown && w < |y.running| && y.running[w] && w !in y.stuck
    case LockStop(i) => i < |y.stops| && y.stops[i] == Called && y.holder == -1
    case SeeClosed(i) => i < |y.stops| && y.stops[i] == Locked && y.closed > 0
    case Close(i) => i < |y.stops| && y.stops[i] == Locked && y.closed == 0
    case WaitDone(i) => i < |y.stops| && y.stops[i] == Waiting && y.waitGroup == 0
  }

  ghost function After(y: Sys, m: Move): Sys
    requires Enabled(y, m)
  {
    match m
    case QueueDown => y.(queueDown := true)
    case Finish(w) => y.(waitGroup := y.waitGroup - 1, running := y.running[w := false])
    case LockStop(i) => y.(holder := i, stops := y.stops[i := Locked])
    case SeeClosed(i) => y.(holder := -1, stops := y.stops[i := Returned])
    case Close(i) => y.(closed := y.closed + 1, stops := y.stops[i := Waiting])
    case WaitDone(i) => y.(holder := -1, stops := y.stops[i := Returned])
  }

  function Live(running: seq<bool>): nat {
    if running == [] then 0 else (if running[0] then 1 else 0) + Live(running[1..])
  }

  lemma {:induction false} LiveAfter(running: seq<bool>, w: nat)
    requires w < |running| && running[w]
    ensures Live(running[w := false]) == Live(running) - 1
  {
    if w == 0 {
      assert running[0 := false][1..] == running[1..];
    } else {
      assert running[w := false][1..] == running[1..][w - 1 := false];
      LiveAfter(running[1..], w - 1);
    }
  }

  lemma {:induction false} NoneLive(running: seq<bool>)
    ensures Live(running) == 0 <==> forall w | 0 <= w < |running| :: !running[w]
  {
    if running != [] {
      NoneLive(running[1..]);
      assert forall w | 0 <= w < |running| - 1 :: running[w + 1] == running[1..][w];
    }
  }

  /** The wait count is the number of live workers; who has closed the channel keeps the lock until it is zero. */
  ghost predicate Inv(y: Sys) {
    && y.waitGroup == Live(y.running)
    && y.closed <= 1
    && (forall w | w in y.stuck :: w < |y.running| && y.running[w])
    && (forall i | 0 <= i < |y.stops| :: y.stops[i] == Locked || y.stops[i] == Waiting ==> y.holder == i)
    && (y.holder == -1 || (0 <= y.holder < |y.stops| && (y.stops[y.holder] == Locked || y.stops[y.holder] == Waiting)))
    && (forall i | 0 <= i < |y.stops| && y.stops[i] == Waiting :: y.closed == 1)
    && (y.closed == 1 ==> y.waitGroup == 0 || (0 <= y.holder < |y.stops| && y.stops[y.holder] == Waiting))
    && (forall i | 0 <= i < |y.stops| && y.stops[i] == Returned :: y.closed == 1 && y.waitGroup == 0)
  }

  lemma InvStep(y: Sys, m: Move)
    requires Inv(y) && Enabled(y, m)
    ensures Inv(After(y, m))
  {
    if m.Finish? {
      LiveAfter(y.running, m.worker);
    }
  }

  /** `runWorkers` has returned: every worker has been counted, nothing has been stopped. */
  ghost function Started(workers: nat, stuck: set<nat>, calls: nat): Sys {
    Sys(0, false, workers, seq(workers, _ => true), stuck, -1, seq(calls, _ => Called))
  }

  /** A run of so many workers and calls, some of the workers stuck. */
  ghost predicate RunOf(workers: nat, stuck: set<nat>, calls: nat, trace: seq<Sys>, moves: seq<Move>) {
    Steps(trace, moves) && trace[0] == Started(workers, stuck, calls) && forall w | w in stuck :: w < workers
  }

  lemma {:induction false} AllLive(workers: nat)
    ensures Live(seq(workers, _ => true)) == workers
  {
    if workers > 0 {
      assert seq(workers, _ => true)[1..] == seq(workers - 1, _ => true);
      AllLive(workers - 1);
    }
  }

  ghost predicate Steps(trace: seq<Sys>, moves: seq<Move>) {
    && |trace| == |moves| + 1
    && forall i | 0 <= i < |moves| :: Enabled(trace[i], moves[i]) && trace[i + 1] == After(trace[i], moves[i])
  }

  lemma {:induction false} InvAlong(workers: nat, stuck: set<nat>, calls: nat, trace: seq<Sys>, moves: seq<Move>, i: nat)
    requires RunOf(workers, stuck, calls, trace, moves) && i <= |moves|
    ensures Inv(trace[i]) && |trace[i].stops| == calls && |trace[i].running| == workers && trace[i].stuck == stuck
  {
    if i == 0 {
      AllLive(workers);
    } else {
      InvAlong(workers, stuck, calls, trace, moves, i - 1);
      InvStep(trace[i - 1], moves[i - 1]);
    }
  }

  /**
   * For any number of workers and of concurrent calls of `stop`, in every reachable state: once a
   * call has returned, the stop channel has been closed exactly once and no worker runs. So with a
   * worker that is stuck no call ever returns.
   */
  lemma StopWaitsForWorkers(workers: nat, stuck: set<nat>, calls: nat, trace: seq<Sys>, moves: seq<Move>, i: nat)
    requires RunOf(workers, stuck, calls, trace, moves) && i <= |moves|
    ensures trace[i].closed <= 1
    ensures (exists k | 0 <= k < calls :: k < |trace[i].stops| && trace[i].stops[k] == Returned) ==>
      && trace[i].closed == 1 && (forall w | 0 <= w < workers :: w < |trace[i].running| && !trace[i].running[w])
      && stuck == {}
  {
    InvAlong(workers, stuck, calls, trace, moves, i);
    NoneLive(trace[i].running);
    if w :| w in stuck {
      assert trace[i].running[w];
    }
  }

  /** While a call of `stop` has not returned, some move is possible, unless all that it waits for are stuck workers. */
  lemma StopNeverStuck(workers: nat, stuck: set<nat>, calls: nat, trace: seq<Sys>, moves: seq<Move>, i: nat, k: nat)
    returns (m: Move)
    requires RunOf(workers, stuck, calls, trace, moves) && i <= |moves|
    requires k < calls
    ensures k < |trace[i].stops| && trace[i].stops[k] != Returned && stuck == {} ==> Enabled(trace[i], m)
  {
    InvAlong(workers, stuck, calls, trace, moves, i);
    var y := trace[i];
    m := QueueDown;
    if y.stops[k] != Returned {
      if y.holder == -1 {
        m := LockStop(k);
      } else if y.stops[y.holder] == Locked {
        m := if y.closed > 0 then SeeClosed(y.holder) else Close(y.holder);
      } else if y.waitGroup == 0 {
        m := WaitDone(y.holder);
      } else if y.queueDown {
        NoneLive(y.running);
        var w :| 0 <= w < |y.running| && y.running[w];
        m := Finish(w);
      }
    }
  }

  // ---- Every run comes to its end ----

  /** How many of its own moves a call still has before it. */
  function Ahead(p: Stop): nat {
    match p case Called => 3 case Locked => 2 case Waiting => 1 case Returned => 0
  }

  function AllAhead(stops: seq<Stop>): nat {
    if stops == [] then 0 else Ahead(stops[0]) + AllAhead(stops[1..])
  }

  lemma {:induction false} AheadAfter(stops: seq<Stop>, i: nat, p: Stop)
    requires i < |stops|
    ensures AllAhead(stops[i := p]) == AllAhead(stops) - Ahead(stops[i]) + Ahead(p)
  {
    if i == 0 {
      assert stops[0 := p][1..] == stops[1..];
    } else {
      assert stops[i := p][1..] == stops[1..][i - 1 := p];
      AheadAfter(stops[1..], i - 1, p);
    }
  }

  lemma {:induction false} AllCalled(calls: nat)
    ensures AllAhead(seq(calls, _ => Called)) == 3 * calls
  {
    if calls > 0 {
      assert seq(calls, _ => Called)[1..] == seq(calls - 1, _ => Called);
      AllCalled(calls - 1);
    }
  }

  /** Moves of the calls to come, workers to finish, and the queue to go down. */
  ghost function Left(y: Sys): nat {
    AllAhead(y.stops) + Live(y.running) + if y.queueDown then 0 else 1
  }

  /** Every move brings the end closer. */
  lemma LeftFalls(y: Sys, m: Move)
    requires Enabled(y, m)
    ensures Left(After(y, m)) < Left(y)
  {
    match m
    case QueueDown =>
    case Finish(w) => LiveAfter(y.running, w);
    case LockStop(i) => AheadAfter(y.stops, i, Locked);
    case SeeClosed(i) => AheadAfter(y.stops, i, Returned);
    case Close(i) => AheadAfter(y.stops, i, Waiting);
    case WaitDone(i) => AheadAfter(y.stops, i, Returned);
  }

  lemma {:induction false} LeftAlong(workers: nat, stuck: set<nat>, calls: nat, trace: seq<Sys>, moves: seq<Move>, i: nat)
    requires RunOf(workers, stuck, calls, trace, moves) && i <= |moves|
    ensures Left(trace[i]) + i <= 3 * calls + workers + 1
  {
    if i == 0 {
      AllLive(workers);
      AllCalled(calls);
    } else {
      LeftAlong(workers, stuck, calls, trace, moves, i - 1);
      LeftFalls(trace[i - 1], moves[i - 1]);
    }
  }

  /**
   * No run is longer than three moves a call, one a worker and one for the queue. In a run that
   * cannot go on, with at least one call, all calls have returned if and only if no worker is stuck;
   * then the channel is closed once and no worker runs. With a stuck worker none has returned.
   */
  lemma StopReturns(workers: nat, stuck: set<nat>, calls: nat, trace: seq<Sys>, moves: seq<Move>)
    requires RunOf(workers, stuck, calls, trace, moves)
    ensures |moves| <= 3 * calls + workers + 1
    ensures calls > 0 && (forall m :: !Enabled(trace[|moves|], m)) ==>
      var last := trace[|moves|];
      && (last.stops == seq(calls, _ => Returned) <==> stuck == {})
      && (stuck == {} ==> last.closed == 1 && last.running == seq(workers, _ => false))
      && (stuck != {} ==> forall k | 0 <= k < |last.stops| :: last.stops[k] != Returned)
  {
    var n := |moves|;
    LeftAlong(workers, stuck, calls, trace, moves, n);
    InvAlong(workers, stuck, calls, trace, moves, n);
    StopWaitsForWorkers(workers, stuck, calls, trace, moves, n);
    if calls > 0 && stuck == {} && (forall m :: !Enabled(trace[n], m)) {
      forall k | 0 <= k < calls
        ensures trace[n].stops[k] == Returned
      {
        var m := StopNeverStuck(workers, stuck, calls, trace, moves, n, k);
      }
    }
    if calls > 0 {
      assert seq(calls, _ => Returned)[0] == Returned;
    }
  }
}
