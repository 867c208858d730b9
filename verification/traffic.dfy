/** The self-rescheduling packet emitter `GenerateTraffic` of
    scratch/buildings-test.cc.  Time is counted in integer ticks; each call
    the event scheduler makes is one `Invocation`, and one call of
    `GenerateTraffic` either sends a packet and schedules its successor
    `interval` ticks later, or closes the socket. */
module Traffic {
  import opened Base

  /** What one call does to the socket. */
  datatype Action = Send(at: int, size: nat) | Close(at: int)

  /** A scheduled call `GenerateTraffic (socket, pktSize, pktCount, pktInterval)`
      that runs at tick `at`. */
  datatype Invocation = Invocation(at: int, pktSize: nat, pktCount: nat, interval: nat)

  /** The effect of one call: the socket action and the call it schedules,
      if any. */
  datatype Step = Step(action: Action, next: Option<Invocation>)

  /** One call of the emitter. */
  function GenerateTraffic(call: Invocation): (s: Step)
    ensures s.action.Send? <==> call.pktCount > 0
    ensures s.action.at == call.at
    ensures s.action.Send? ==> s.action.size == call.pktSize
    ensures s.next.Some? <==> s.action.Send?
    ensures s.next.Some? ==>
      s.next.value.pktCount == call.pktCount - 1 && s.next.value.at == call.at + call.interval
      && s.next.value.pktSize == call.pktSize && s.next.value.interval == call.interval
  {
    if call.pktCount > 0 then
      Step(Send(call.at, call.pktSize),
           Some(call.(at := call.at + call.interval, pktCount := call.pktCount - 1)))
    else
      Step(Close(call.at), None)
  }

  /** Everything the scheduler makes the emitter do, starting from `call`:
      each call's action followed by the actions of the call it schedules. */
  function Unfold(call: Invocation): (actions: seq<Action>)
    decreases call.pktCount
  {
    var s := GenerateTraffic(call);
    match s.next
    case None => [s.action]
    case Some(next) => [s.action] + Unfold(next)
  }

  /** Reference schedule: `n` sends of `size` bytes at `at`, `at + interval`,
      ..., then one close `n` intervals after the start. */
  function Schedule(at: int, size: nat, n: nat, interval: nat): (actions: seq<Action>)
  {
    seq(n, i requires 0 <= i < n => Send(at + i * interval, size)) + [Close(at + n * interval)]
  }

  /** Number of sends among `actions`. */
  function CountSends(actions: seq<Action>): nat
  {
    if |actions| == 0 then 0
    else (if actions[0].Send? then 1 else 0) + CountSends(actions[1..])
  }

  /** Number of closes among `actions`. */
  function CountCloses(actions: seq<Action>): nat
  {
    if |actions| == 0 then 0
    else (if actions[0].Close? then 1 else 0) + CountCloses(actions[1..])
  }

  lemma ShiftedTimes(at: int, interval: nat, i: nat)
    ensures (at + interval) + i * interval == at + (i + 1) * interval
  {
  }

  /** The chain the scheduler runs is exactly the reference schedule. */
  lemma {:induction false} UnfoldIsSchedule(call: Invocation)
    ensures Unfold(call) == Schedule(call.at, call.pktSize, call.pktCount, call.interval)
    decreases call.pktCount
  {
    var n := call.pktCount;
    if n > 0 {
      var next := call.(at := call.at + call.interval, pktCount := n - 1);
      UnfoldIsSchedule(next);
      var tail := Schedule(next.at, call.pktSize, n - 1, call.interval);
      var whole := Schedule(call.at, call.pktSize, n, call.interval);
      assert Unfold(call) == [Send(call.at, call.pktSize)] + tail;
      forall i | 0 <= i < n - 1
        ensures tail[i] == whole[i + 1]
      {
        ShiftedTimes(call.at, call.interval, i);
      }
      ShiftedTimes(call.at, call.interval, n - 1);
      assert tail[n - 1] == whole[n];
      assert [Send(call.at, call.pktSize)] + tail == whole;
    }
  }

  lemma {:induction false} ScheduleCounts(at: int, size: nat, n: nat, interval: nat)
    ensures CountSends(Schedule(at, size, n, interval)) == n
    ensures CountCloses(Schedule(at, size, n, interval)) == 1
    decreases n
  {
    var s := Schedule(at, size, n, interval);
    if n > 0 {
      ScheduleCounts(at + interval, size, n - 1, interval);
      var tail := Schedule(at + interval, size, n - 1, interval);
      forall i | 0 <= i < |tail|
        ensures tail[i] == s[i + 1]
      {
        ShiftedTimes(at, interval, i);
      }
      assert s[1..] == tail;
    } else {
      assert s[1..] == [];
    }
  }

  /** Consecutive actions of the schedule are one interval apart. */
  lemma ScheduleGaps(at: int, size: nat, n: nat, interval: nat)
    ensures forall i :: 0 <= i < n ==>
      Schedule(at, size, n, interval)[i + 1].at - Schedule(at, size, n, interval)[i].at == interval
  {
    var s := Schedule(at, size, n, interval);
    forall i | 0 <= i < n
      ensures s[i + 1].at - s[i].at == interval
    {
      ShiftedTimes(at, interval, i);
    }
  }

  /** With count `n` the emitter sends exactly `n` packets of the configured
      size, one interval apart, and then closes the socket exactly once;
      nothing follows the close.  A count of zero closes at once. */
  lemma TrafficCountdown(call: Invocation)
    ensures var actions := Unfold(call);
      && |actions| == call.pktCount + 1
      && CountSends(actions) == call.pktCount
      && CountCloses(actions) == 1
      && actions[call.pktCount] == Close(call.at + call.pktCount * call.interval)
      && (forall i :: 0 <= i < call.pktCount ==>
            actions[i] == Send(call.at + i * call.interval, call.pktSize))
      && (forall i :: 0 <= i < call.pktCount ==>
            actions[i + 1].at - actions[i].at == call.interval)
  {
    UnfoldIsSchedule(call);
    ScheduleCounts(call.at, call.pktSize, call.pktCount, call.interval);
    ScheduleGaps(call.at, call.pktSize, call.pktCount, call.interval);
  }

  /** A count of zero closes the socket immediately and sends nothing. */
  lemma ZeroCountClosesAtOnce(at: int, pktSize: nat, interval: nat)
    ensures Unfold(Invocation(at, pktSize, 0, interval)) == [Close(at)]
  {
  }
}
