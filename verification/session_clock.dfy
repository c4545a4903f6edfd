/** The driver's session timing: one shared start stamp `open_time` and the
    accumulator `total_time`. Opening stamps the current tick; releasing
    turns the stamp into the elapsed time and adds it to the total. The
    functions here are what the device's `Open` and `Release` do to this pair;
    the lemmas follow whole sequences of open and release calls. */
module SessionClock {

  /** The pair (`open_time`, `total_time`) in ticks. */
  datatype Clock = Clock(openTime: int, totalTime: int)

  /** What `chrdev_open` does to the timer: the stamp becomes `now` and the
      accumulated total stays as it was. */
  function OpenClock(c: Clock, now: int): (r: Clock)
    ensures r.openTime == now
    ensures r.totalTime == c.totalTime
  {
    Clock(now, c.totalTime)
  }

  /** What `chrdev_release` does to the timer: the time since the stamp is
      added to the total, and the stamp is overwritten with that elapsed time
      (it no longer holds a start tick). The total never shrinks when the
      release comes no earlier than the stamp. */
  function ReleaseClock(c: Clock, now: int): (r: Clock)
    ensures r.totalTime == c.totalTime + (now - c.openTime)
    ensures r.openTime == r.totalTime - c.totalTime
    ensures now >= c.openTime ==> r.totalTime >= c.totalTime
  {
    var elapsed := now - c.openTime;
    Clock(elapsed, c.totalTime + elapsed)
  }

  /** A call on the device that touches the timer, at tick `at`. */
  datatype Event = Opened(at: int) | Released(at: int)

  function Step(c: Clock, e: Event): Clock
  {
    match e
    case Opened(t) => OpenClock(c, t)
    case Released(t) => ReleaseClock(c, t)
  }

  /** The timer after a sequence of calls, in order. */
  function Replay(c: Clock, trace: seq<Event>): Clock
    decreases |trace|
  {
    if trace == [] then c else Replay(Step(c, trace[0]), trace[1..])
  }

  /** One open-to-release lifetime of a handle. */
  datatype Session = Session(start: int, stop: int)

  /** The sum of the lengths of the sessions. */
  function Elapsed(ss: seq<Session>): int
  {
    if ss == [] then 0 else (ss[0].stop - ss[0].start) + Elapsed(ss[1..])
  }

  /** The calls made by sessions that run one after another: each opens and
      is released before the next opens. */
  function Serial(ss: seq<Session>): seq<Event>
  {
    if ss == [] then [] else [Opened(ss[0].start), Released(ss[0].stop)] + Serial(ss[1..])
  }

  /** For sessions that do not overlap, the shared timer is right: the total
      grows by exactly the sum of the session lengths. */
  lemma {:induction false} SerialSessionsTotal(c: Clock, ss: seq<Session>)
    ensures Replay(c, Serial(ss)).totalTime == c.totalTime + Elapsed(ss)
    decreases |ss|
  {
    if ss != [] {
      var trace := Serial(ss);
      var s := ss[0];
      assert trace[0] == Opened(s.start);
      assert trace[1..][0] == Released(s.stop);
      assert trace[1..][1..] == Serial(ss[1..]);
      var mid := ReleaseClock(OpenClock(c, s.start), s.stop);
      assert Replay(c, trace) == Replay(mid, Serial(ss[1..]));
      SerialSessionsTotal(mid, ss[1..]);
    }
  }

  /** Sessions whose release comes no earlier than their open have a
      non-negative total length. */
  lemma {:induction false} ElapsedNonNegative(ss: seq<Session>)
    requires forall i :: 0 <= i < |ss| ==> ss[i].start <= ss[i].stop
    ensures Elapsed(ss) >= 0
  {
    if ss != [] {
      assert ss[0].start <= ss[0].stop;
      ElapsedNonNegative(ss[1..]);
    }
  }

  /** Hence, over non-overlapping sessions whose clock runs forward, the
      accumulated open time never decreases, and it strictly grows as soon
      as one session lasts at least one tick. */
  lemma SerialSessionsMonotone(c: Clock, ss: seq<Session>)
    requires forall i :: 0 <= i < |ss| ==> ss[i].start <= ss[i].stop
    ensures Replay(c, Serial(ss)).totalTime >= c.totalTime
    ensures (exists i :: 0 <= i < |ss| && ss[i].start < ss[i].stop) ==>
              Replay(c, Serial(ss)).totalTime > c.totalTime
  {
    SerialSessionsTotal(c, ss);
    ElapsedNonNegative(ss);
    if exists i :: 0 <= i < |ss| && ss[i].start < ss[i].stop {
      var i :| 0 <= i < |ss| && ss[i].start < ss[i].stop;
      ElapsedPositive(ss, i);
    }
  }

  lemma {:induction false} ElapsedPositive(ss: seq<Session>, i: nat)
    requires forall k :: 0 <= k < |ss| ==> ss[k].start <= ss[k].stop
    requires i < |ss| && ss[i].start < ss[i].stop
    ensures Elapsed(ss) > 0
  {
    if i == 0 {
      ElapsedNonNegative(ss[1..]);
    } else {
      assert ss[0].start <= ss[0].stop;
      ElapsedPositive(ss[1..], i - 1);
    }
  }

  /** The single shared stamp miscounts overlapping sessions. Let a handle
      open at tick `a`, a second one open at `b`, the first be released at
      `r1` and the second at `r2`. The second open overwrites the first stamp.
      The first release adds r1 - b and leaves r1 - b in the stamp. The second
      release then adds r2 - (r1 - b). So the total grows by exactly `r2`,
      whatever the other ticks, while the two sessions last
      (r1 - a) + (r2 - b). The two agree only when r1 == a + b. For example,
      sessions [0, 10] and [5, 20] last 25 ticks, but the total grows by 20. */
  lemma OverlappingSessionsMiscount(k: Clock, a: int, b: int, r1: int, r2: int)
    ensures Replay(k, [Opened(a), Opened(b), Released(r1), Released(r2)]).totalTime == k.totalTime + r2
    ensures Elapsed([Session(a, r1), Session(b, r2)]) == (r1 - a) + (r2 - b)
    ensures (Replay(k, [Opened(a), Opened(b), Released(r1), Released(r2)]).totalTime ==
             k.totalTime + Elapsed([Session(a, r1), Session(b, r2)])) <==> r1 == a + b
  {
    var trace := [Opened(a), Opened(b), Released(r1), Released(r2)];
    var t := k.totalTime;
    assert trace[1..] == [Opened(b), Released(r1), Released(r2)];
    assert trace[1..][1..] == [Released(r1), Released(r2)];
    assert trace[1..][1..][1..] == [Released(r2)];
    assert Replay(k, trace) == Replay(Clock(a, t), trace[1..]);
    assert Replay(Clock(a, t), trace[1..]) == Replay(Clock(b, t), trace[1..][1..]);
    assert Replay(Clock(b, t), trace[1..][1..]) == Replay(Clock(r1 - b, t + (r1 - b)), [Released(r2)]);
    assert Replay(Clock(r1 - b, t + (r1 - b)), [Released(r2)]) == Clock(r2 - (r1 - b), t + r2);
    var ss := [Session(a, r1), Session(b, r2)];
    assert ss[1..] == [Session(b, r2)];
    assert ss[1..][1..] == [];
    assert Elapsed(ss[1..]) == r2 - b;
  }
}
