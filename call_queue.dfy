/** The backend's rate limiter (backend/callQueue.py): every request to the
    statistics service is given a slot at least `delay` seconds after the
    previous one. Clock readings are passed in as `now`. */
module CallQueues {

  /** A granted slot: the request may go out from `readyTime` on. */
  datatype Call = Call(readyTime: real) {
    predicate IsReady(now: real) {
      now >= readyTime
    }
  }

  /** The slot addCall grants at time `now`: the earliest instant that is
      neither in the past nor closer than `delay` to the previous slot. */
  function ScheduledTime(lastRequest: real, delay: real, now: real): (t: real)
    ensures t >= now && t >= lastRequest + delay
    ensures t == now || t == lastRequest + delay
  {
    if now - lastRequest >= delay then now else lastRequest + delay
  }

  /** A new call can go out at once exactly when `delay` has passed since the
      previous slot; otherwise it waits for `lastRequest + delay`. */
  lemma ReadyAtOnceIffDelayElapsed(lastRequest: real, delay: real, now: real)
    ensures Call(ScheduledTime(lastRequest, delay, now)).IsReady(now) <==> now - lastRequest >= delay
    ensures now - lastRequest < delay ==> ScheduledTime(lastRequest, delay, now) == lastRequest + delay
  {
  }

  /** Once ready, a call stays ready. */
  lemma ReadyStaysReady(c: Call, t: real, u: real)
    requires t <= u && c.IsReady(t)
    ensures c.IsReady(u)
  {
  }

  /** The slots granted to a run of addCall made at times `nows`, starting
      from a queue whose last slot is `lastRequest`. This is the pure
      formulation of successive AddCall results: each step is the
      ScheduledTime that AddCall promises, from the slot the previous step
      granted. The class invariant Valid() states the same spacing for the
      history a CallQueue object has actually granted. */
  function ReadyTimes(lastRequest: real, delay: real, nows: seq<real>): (r: seq<real>)
    ensures |r| == |nows|
    decreases nows
  {
    if nows == [] then []
    else
      var t := ScheduledTime(lastRequest, delay, nows[0]);
      [t] + ReadyTimes(t, delay, nows[1..])
  }

  /** Consecutive slots are at least `delay` apart. */
  ghost predicate Spaced(ts: seq<real>, delay: real)
  {
    forall i :: 0 < i < |ts| ==> ts[i] - ts[i - 1] >= delay
  }

  /** A run of calls gets slots that are spaced by `delay`, never earlier than
      the call itself, and the first one `delay` after the previous slot. */
  lemma {:induction false} ReadyTimesSpaced(lastRequest: real, delay: real, nows: seq<real>)
    ensures Spaced(ReadyTimes(lastRequest, delay, nows), delay)
    ensures forall i :: 0 <= i < |nows| ==> ReadyTimes(lastRequest, delay, nows)[i] >= nows[i]
    ensures nows != [] ==> ReadyTimes(lastRequest, delay, nows)[0] >= lastRequest + delay
    decreases nows
  {
    if nows != [] {
      var t := ScheduledTime(lastRequest, delay, nows[0]);
      var rest := ReadyTimes(t, delay, nows[1..]);
      ReadyTimesSpaced(t, delay, nows[1..]);
      assert ReadyTimes(lastRequest, delay, nows) == [t] + rest;
      forall i | 0 < i < |nows|
        ensures ReadyTimes(lastRequest, delay, nows)[i] >= nows[i]
      {
        assert nows[1..][i - 1] == nows[i];
      }
    }
  }

  /** The rate limit over a window: among spaced slots, the one `j - i` calls
      after another is at least `(j - i) * delay` later. */
  lemma {:induction false} SpacedWindow(ts: seq<real>, delay: real, i: nat, j: nat)
    requires Spaced(ts, delay)
    requires i <= j < |ts|
    ensures ts[j] - ts[i] >= (j - i) as real * delay
    decreases j - i
  {
    if i < j {
      SpacedWindow(ts, delay, i, j - 1);
      assert (j - i) as real * delay == (j - 1 - i) as real * delay + delay;
    }
  }

  /** With a non-negative delay, slots never go backwards. */
  lemma SpacedMonotone(ts: seq<real>, delay: real, i: nat, j: nat)
    requires Spaced(ts, delay) && delay >= 0.0
    requires i <= j < |ts|
    ensures ts[i] <= ts[j]
  {
    SpacedWindow(ts, delay, i, j);
  }

  /** The shared queue (class CallQueue). `issued` records, for the proof, the
      slots granted since construction or the last reset. */
  class CallQueue {
    var delay: real
    var lastRequest: real
    var totalCalls: nat
    ghost var issued: seq<real>

    ghost predicate Valid()
      reads this
    {
      && |issued| == totalCalls
      && Spaced(issued, delay)
      && (issued != [] ==> issued[|issued| - 1] == lastRequest)
    }

    constructor (requestDelay: real)
      ensures Valid()
      ensures delay == requestDelay && lastRequest == 0.0 && totalCalls == 0
      ensures issued == []
    {
      delay := requestDelay;
      lastRequest := 0.0;
      totalCalls := 0;
      issued := [];
    }

    /** Grants the next slot; the lock of the original makes this atomic. */
    method AddCall(now: real) returns (c: Call)
      requires Valid()
      modifies this
      ensures Valid()
      ensures c.readyTime == ScheduledTime(old(lastRequest), delay, now)
      ensures lastRequest == c.readyTime
      ensures totalCalls == old(totalCalls) + 1 && delay == old(delay)
      ensures issued == old(issued) + [c.readyTime]
    {
      var readyTime: real;
      if now - lastRequest >= delay {
        readyTime := now;
      } else {
        readyTime := lastRequest + delay;
      }
      lastRequest := readyTime;
      totalCalls := totalCalls + 1;
      issued := issued + [readyTime];
      c := Call(readyTime);
    }

    /** Forgets all history; the delay is kept. */
    method Reset()
      requires Valid()
      modifies this
      ensures Valid()
      ensures lastRequest == 0.0 && totalCalls == 0 && delay == old(delay)
      ensures issued == []
    {
      lastRequest := 0.0;
      totalCalls := 0;
      issued := [];
    }
  }
}
