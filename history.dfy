/**
 The per-channel message log of the comic plugin: a channel keeps at most
 `Capacity` messages, and once full the oldest one is dropped for each new one.
 */
module History {

  /** How many messages a channel's log holds. */
  const Capacity: nat := 10

  function Min(a: int, b: int): int {
    if a <= b then a else b
  }

  /**
   The log after recording `m`: appended while there is room, otherwise the
   oldest entry is dropped first.
   */
  function Pushed<T>(log: seq<T>, m: T): seq<T>
  {
    if |log| < Capacity then log + [m] else log[1..] + [m]
  }

  /**
   Recording appends the message and keeps the newest entries before it: the
   log grows by one until it holds `Capacity` messages and then stays that size.
   */
  lemma PushedShape<T>(log: seq<T>, m: T)
    ensures var r := Pushed(log, m);
      && (|log| <= Capacity ==> |r| == Min(|log| + 1, Capacity))
      && 0 < |r| <= |log| + 1 && r[|r| - 1] == m
      && r[..|r| - 1] == log[|log| + 1 - |r|..]
  {
    var r := Pushed(log, m);
    assert r[..|r| - 1] == if |log| < Capacity then log else log[1..];
  }

  /** The log of a channel that started empty and saw the messages `ms`, in order. */
  function PushAll<T>(ms: seq<T>): seq<T>
  {
    if ms == [] then [] else Pushed(PushAll(ms[..|ms| - 1]), ms[|ms| - 1])
  }

  /** Recording one more message is one more step of the fold. */
  lemma PushAllSnoc<T>(ms: seq<T>, m: T)
    ensures PushAll(ms + [m]) == Pushed(PushAll(ms), m)
  {
    assert (ms + [m])[..|ms|] == ms;
  }

  /** Recording a message in a log of the newest messages keeps the newest messages. */
  lemma PushNewest<T>(front: seq<T>, x: T)
    ensures Pushed(front[|front| - Min(|front|, Capacity)..], x) ==
            (front + [x])[|front| + 1 - Min(|front| + 1, Capacity)..]
  {
    var prev := front[|front| - Min(|front|, Capacity)..];
    if |front| < Capacity {
      assert prev == front;
    } else {
      var j := |front| + 1 - Capacity;
      assert prev[1..] == front[j..];
      assert (front + [x])[j..] == front[j..] + [x];
    }
  }

  /** A log is always the newest `Capacity` messages seen, oldest first. */
  lemma {:induction false} PushAllKeepsNewest<T>(ms: seq<T>)
    ensures PushAll(ms) == ms[|ms| - Min(|ms|, Capacity)..]
  {
    if ms != [] {
      var n := |ms| - 1;
      var front := ms[..n];
      assert PushAll(ms) == Pushed(PushAll(front), ms[n]);
      PushAllKeepsNewest(front);
      PushNewest(front, ms[n]);
      assert front + [ms[n]] == ms;
    }
  }

  /**
   On a full log, recording a message evicts the oldest entry and keeps the
   other nine in order.
   */
  lemma FullLogEvictsOldest<T>(log: seq<T>, m: T)
    requires |log| == Capacity
    ensures |Pushed(log, m)| == Capacity
    ensures Pushed(log, m) == log[1..] + [m]
    ensures forall i :: 1 <= i < |log| ==> Pushed(log, m)[i - 1] == log[i]
  {
  }

  /** The last `n` entries of a log: what a comic of `n` lines is drawn from. */
  function Window<T>(log: seq<T>, n: nat): (w: seq<T>)
    requires n <= |log|
    ensures |w| == n
    ensures log == log[..|log| - n] + w
  {
    log[|log| - n..]
  }

  /** The window of a log ends with the most recent message. */
  lemma WindowEndsWithNewest<T>(log: seq<T>, n: nat)
    requires 1 <= n <= |log|
    ensures Window(log, n)[n - 1] == log[|log| - 1]
    ensures Window(log, |log|) == log
  {
  }
}
