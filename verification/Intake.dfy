/** The sensor side of FirmwareSession (src/firmware_session.cpp): the bounded queue of frames waiting for
    a tick, and the sample-step trackers that keep stale and repeated samples out of it. */
module Intake {
  import opened Words
  import K = Core
  import Queue

  const CAPACITY := 4
  const SENSORS := 4  // inertial, wheel speed, position, landmark: in the order they are checked

  /** A decoded sensor frame: the sample step of each sensor present, and the measurements. */
  datatype Sensor = Sensor(steps: seq<Option<u32>>, frame: K.Frame)

  predicate WellFormed(s: Sensor) {
    |s.steps| == SENSORS
  }

  predicate Nothing(s: Sensor) {
    forall k :: 0 <= k < |s.steps| ==> s.steps[k].None?
  }

  datatype Pending = Pending(frame: K.Frame, packetStep: u32)

  datatype Answer = Queued | Full | Refused(disposition: K.Disposition)

  // ------------------------------------------------------- one sample step

  /** sample_step_is_fresh */
  predicate FreshStep(step: u32, frameStep: u32, maxLag: u32) {
    Sub32(frameStep, step) < HALF32 && Sub32(frameStep, step) <= maxLag
  }

  /** step_is_newer */
  predicate NewerStep(step: u32, last: u32) {
    0 < Sub32(step, last) < HALF32
  }

  function JudgeStep(step: Option<u32>, tracker: Option<u32>, frameStep: u32, maxLag: u32): K.Disposition {
    if step.None? then K.Clean
    else if !FreshStep(step.value, frameStep, maxLag) then K.Stale
    else if tracker.None? then K.Clean
    else if step.value == tracker.value then K.Duplicate
    else if NewerStep(step.value, tracker.value) then K.Clean
    else K.Stale
  }

  /** The first objection, in the order of the sensors. */
  function JudgeFrom(s: Sensor, trackers: seq<Option<u32>>, frameStep: u32, maxLag: u32, k: nat): K.Disposition
    requires WellFormed(s) && |trackers| == SENSORS && k <= SENSORS
    decreases SENSORS - k
  {
    if k == SENSORS then K.Clean
    else
      var d := JudgeStep(s.steps[k], trackers[k], frameStep, maxLag);
      if d != K.Clean then d else JudgeFrom(s, trackers, frameStep, maxLag, k + 1)
  }

  /** The trackers after an admitted frame. */
  function Moved(trackers: seq<Option<u32>>, steps: seq<Option<u32>>): (r: seq<Option<u32>>)
    requires |trackers| == |steps|
    ensures |r| == |steps| && forall k :: 0 <= k < |r| ==> r[k] == if steps[k].Some? then steps[k] else trackers[k]
  {
    seq(|steps|, k requires 0 <= k < |steps| => if steps[k].Some? then steps[k] else trackers[k])
  }

  // ------------------------------------------------------- the steps accepted so far

  /** The accepted sample steps of one sensor, on the unbounded step count. */
  predicate Increasing(steps: seq<int>) {
    |steps| < 2 || (steps[|steps| - 2] < steps[|steps| - 1] && Increasing(steps[..|steps| - 1]))
  }

  lemma {:induction false} IncreasingPairs(steps: seq<int>, i: nat, j: nat)
    requires Increasing(steps) && i < j < |steps|
    ensures steps[i] < steps[j]
    decreases |steps|
  {
    if j < |steps| - 1 {
      IncreasingPairs(steps[..|steps| - 1], i, j);
    } else if i < j - 1 {
      IncreasingPairs(steps[..|steps| - 1], i, j - 1);
    }
  }

  ghost predicate Tracks(tracker: Option<u32>, steps: seq<int>) {
    if steps == [] then tracker.None? else tracker == Some(Wrap(steps[|steps| - 1]))
  }

  /** The history with one more step of one sensor. */
  function Extended(steps: seq<int>, step: Option<u32>): seq<int> {
    if step.None? then steps
    else if steps == [] then [step.value]
    else steps + [steps[|steps| - 1] + Sub32(step.value, Wrap(steps[|steps| - 1]))]
  }

  /** An admitted step is fresh, continues the history upwards, and becomes the tracker. */
  lemma ExtendedTracks(step: Option<u32>, tracker: Option<u32>, steps: seq<int>, frameStep: u32, maxLag: u32)
    requires Increasing(steps) && Tracks(tracker, steps) && JudgeStep(step, tracker, frameStep, maxLag) == K.Clean
    ensures Increasing(Extended(steps, step))
    ensures Tracks(if step.Some? then step else tracker, Extended(steps, step))
    ensures step.Some? ==> Sub32(frameStep, step.value) <= maxLag
  {
    if step.Some? && steps != [] {
      Catches(steps[|steps| - 1], step.value);
      assert Extended(steps, step)[..|steps|] == steps;
    }
  }

  class SensorIntake {
    const maxLag: u32
    const queue: Queue.FixedQueue<Pending>
    const trackers: array<Option<u32>>
    var enqueued: u32
    var processed: u32
    var overflows: u32
    /** Per sensor, every accepted sample step; and where all the frames ever queued went. */
    ghost var history: seq<seq<int>>
    ghost var queuedCount: nat
    ghost var takenCount: nat
    ghost var discardedCount: nat

    /** Accepted sample steps strictly increase for each sensor, and every frame ever queued was taken,
        discarded by a HELLO, or is pending. */
    ghost predicate Valid()
      reads this, queue, queue.storage, trackers
    {
      && queue.Valid() && queue.storage.Length == CAPACITY && trackers.Length == SENSORS && |history| == SENSORS
      && (forall k :: 0 <= k < SENSORS ==> Increasing(history[k]) && Tracks(trackers[k], history[k]))
      && queuedCount == takenCount + |queue.contents| + discardedCount
      && enqueued == Wrap(queuedCount) && processed == Wrap(takenCount)
    }

    constructor (maxLag: u32)
      ensures Valid() && fresh(queue) && fresh(queue.storage) && fresh(trackers) && this.maxLag == maxLag &&
              queue.contents == [] && queuedCount == 0
      ensures trackers[..] == seq(SENSORS, _ => None)
    {
      this.maxLag := maxLag;
      queue := new Queue.FixedQueue(CAPACITY);
      trackers := new Option<u32>[SENSORS](_ => None);
      enqueued, processed, overflows := 0, 0, 0;
      history, queuedCount, takenCount, discardedCount := seq(SENSORS, _ => []), 0, 0, 0;
    }

    /** validate_sample_steps */
    method Validate(s: Sensor, frameStep: u32) returns (d: K.Disposition)
      requires Valid() && WellFormed(s)
      ensures d == JudgeFrom(s, trackers[..], frameStep, maxLag, 0)
    {
      var k := 0;
      while k < SENSORS
        invariant 0 <= k <= SENSORS
        invariant JudgeFrom(s, trackers[..], frameStep, maxLag, 0) == JudgeFrom(s, trackers[..], frameStep, maxLag, k)
      {
        d := JudgeStep(s.steps[k], trackers[k], frameStep, maxLag);
        if d != K.Clean {
          return d;
        }
        k := k + 1;
      }
      return K.Clean;
    }

    /** commit_sample_steps */
    method Commit(s: Sensor, ghost frameStep: u32)
      requires Valid() && WellFormed(s) && JudgeFrom(s, trackers[..], frameStep, maxLag, 0) == K.Clean
      modifies this`history, trackers
      ensures Valid() && trackers[..] == Moved(old(trackers[..]), s.steps)
      ensures forall k :: 0 <= k < SENSORS ==> history[k] == Extended(old(history)[k], s.steps[k])
      ensures forall k :: 0 <= k < SENSORS && s.steps[k].Some? ==> Sub32(frameStep, s.steps[k].value) <= maxLag
    {
      CleanThroughout(s, trackers[..], frameStep, maxLag, 0);
      for k := 0 to SENSORS
        invariant |history| == SENSORS
        invariant forall i :: 0 <= i < SENSORS ==> Increasing(history[i]) && Tracks(trackers[i], history[i])
        invariant forall i :: 0 <= i < k ==> history[i] == Extended(old(history)[i], s.steps[i])
        invariant forall i :: 0 <= i < k ==> trackers[i] == Moved(old(trackers[..]), s.steps)[i]
        invariant forall i :: 0 <= i < k && s.steps[i].Some? ==> Sub32(frameStep, s.steps[i].value) <= maxLag
        invariant forall i :: k <= i < SENSORS ==> history[i] == old(history)[i] && trackers[i] == old(trackers[..])[i]
      {
        CommitOne(k, s.steps[k], frameStep);
      }
    }

    /** The tracker of one sensor. */
    method CommitOne(k: nat, step: Option<u32>, ghost frameStep: u32)
      requires trackers.Length == SENSORS == |history| && k < SENSORS
      requires Increasing(history[k]) && Tracks(trackers[k], history[k])
      requires JudgeStep(step, trackers[k], frameStep, maxLag) == K.Clean
      modifies this`history, trackers
      ensures history == old(history)[k := Extended(old(history)[k], step)]
      ensures trackers[k] == (if step.Some? then step else old(trackers[k]))
      ensures forall i :: 0 <= i < SENSORS && i != k ==> trackers[i] == old(trackers[i])
      ensures Increasing(history[k]) && Tracks(trackers[k], history[k])
      ensures step.Some? ==> Sub32(frameStep, step.value) <= maxLag
    {
      ExtendedTracks(step, trackers[k], history[k], frameStep, maxLag);
      history := history[k := Extended(history[k], step)];
      if step.Some? {
        trackers[k] := step;
      }
    }

    /** handle_sensor on a decoded frame: only a frame that is queued moves any tracker. */
    method Offer(s: Sensor, packetStep: u32) returns (answer: Answer)
      requires Valid() && WellFormed(s)
      modifies this, queue, queue.storage, trackers
      ensures Valid() && takenCount == old(takenCount) && discardedCount == old(discardedCount)
      ensures answer == (var d := JudgeFrom(s, old(trackers[..]), packetStep, maxLag, 0);
                         if d != K.Clean then Refused(d)
                         else if |old(queue.contents)| == CAPACITY then Full else Queued)
      ensures answer != Queued ==> history == old(history) && trackers[..] == old(trackers[..]) &&
                                   queue.contents == old(queue.contents) && queuedCount == old(queuedCount)
      ensures answer == Queued ==>
                && trackers[..] == Moved(old(trackers[..]), s.steps)
                && queue.contents == old(queue.contents) + [Pending(s.frame, packetStep)] &&
                   queuedCount == old(queuedCount) + 1
                && (forall k :: 0 <= k < SENSORS ==> history[k] == Extended(old(history)[k], s.steps[k]))
                && forall k :: 0 <= k < SENSORS && s.steps[k].Some? ==> Sub32(packetStep, s.steps[k].value) <= maxLag
    {
      var d := Validate(s, packetStep);
      if d != K.Clean {
        return Refused(d);
      }
      var pushed := Append(Pending(s.frame, packetStep));
      if !pushed {
        overflows := Wrap(overflows + 1);
        return Full;
      }
      Commit(s, packetStep);
      return Queued;
    }

    /** The push, with its account. */
    method Append(pending: Pending) returns (pushed: bool)
      requires Valid()
      modifies this`enqueued, this`queuedCount, queue, queue.storage
      ensures Valid() && pushed == (|old(queue.contents)| < CAPACITY)
      ensures queue.contents == (if pushed then old(queue.contents) + [pending] else old(queue.contents))
      ensures queuedCount == if pushed then old(queuedCount) + 1 else old(queuedCount)
    {
      pushed := queue.Push(pending);
      if pushed {
        WrapShift(queuedCount, enqueued, 1);
        enqueued := Wrap(enqueued + 1);
        queuedCount := queuedCount + 1;
      }
    }

    /** A control tick takes the oldest frame, if there is one. */
    method Take() returns (pending: Option<Pending>)
      requires Valid()
      modifies this`processed, this`takenCount, queue
      ensures Valid() && queuedCount == old(queuedCount) && discardedCount == old(discardedCount)
      ensures pending == if old(queue.contents) == [] then None else Some(old(queue.contents)[0])
      ensures queue.contents == if pending.None? then [] else old(queue.contents)[1..]
      ensures takenCount == old(takenCount) + if pending.Some? then 1 else 0
    {
      pending := queue.Pop();
      if pending.Some? {
        WrapShift(takenCount, processed, 1);
        processed := Wrap(processed + 1);
        takenCount := takenCount + 1;
      }
    }

    /** An accepted HELLO discards what is pending; the trackers stay. */
    method DiscardAll()
      requires Valid()
      modifies this`discardedCount, queue
      ensures Valid() && queue.contents == [] && takenCount == old(takenCount) && queuedCount == old(queuedCount)
      ensures discardedCount == old(discardedCount) + |old(queue.contents)|
    {
      discardedCount := discardedCount + |queue.contents|;
      queue.Clear();
    }
  }

  lemma {:induction false} CleanThroughout(s: Sensor, trackers: seq<Option<u32>>, frameStep: u32, maxLag: u32, k: nat)
    requires WellFormed(s) && |trackers| == SENSORS && k <= SENSORS &&
             JudgeFrom(s, trackers, frameStep, maxLag, k) == K.Clean
    ensures forall i :: k <= i < SENSORS ==> JudgeStep(s.steps[i], trackers[i], frameStep, maxLag) == K.Clean
    decreases SENSORS - k
  {
    if k < SENSORS {
      CleanThroughout(s, trackers, frameStep, maxLag, k + 1);
    }
  }

  lemma {:induction false} CleanFrom(s: Sensor, trackers: seq<Option<u32>>, frameStep: u32, maxLag: u32, k: nat)
    requires WellFormed(s) && |trackers| == SENSORS && k <= SENSORS
    requires forall i :: k <= i < SENSORS ==> JudgeStep(s.steps[i], trackers[i], frameStep, maxLag) == K.Clean
    ensures JudgeFrom(s, trackers, frameStep, maxLag, k) == K.Clean
    decreases SENSORS - k
  {
    if k < SENSORS {
      CleanFrom(s, trackers, frameStep, maxLag, k + 1);
    }
  }

  /** A frame is clean exactly if all its steps are. */
  lemma FirstObjection(s: Sensor, trackers: seq<Option<u32>>, frameStep: u32, maxLag: u32)
    requires WellFormed(s) && |trackers| == SENSORS
    ensures JudgeFrom(s, trackers, frameStep, maxLag, 0) == K.Clean
            <==> forall i :: 0 <= i < SENSORS ==> JudgeStep(s.steps[i], trackers[i], frameStep, maxLag) == K.Clean
  {
    if JudgeFrom(s, trackers, frameStep, maxLag, 0) == K.Clean {
      CleanThroughout(s, trackers, frameStep, maxLag, 0);
    }
    if forall i :: 0 <= i < SENSORS ==> JudgeStep(s.steps[i], trackers[i], frameStep, maxLag) == K.Clean {
      CleanFrom(s, trackers, frameStep, maxLag, 0);
    }
  }

  /** Main result on sample steps, on the unbounded step count: a step within 2^31 of the frame and of the last one is
      admitted exactly if it is not ahead of the frame, not further back than the lag, and newer than the last. */
  lemma StepAdmitted(step: int, frame: int, last: Option<int>, maxLag: u32)
    requires -HALF32 < frame - step < HALF32 && maxLag < HALF32
    requires last.Some? ==> -HALF32 < step - last.value < HALF32
    ensures var d := JudgeStep(Some(Wrap(step)), if last.Some? then Some(Wrap(last.value)) else None, Wrap(frame),
                               maxLag);
            var timely := step <= frame <= step + maxLag;
            && (d == K.Clean <==> timely && (last.Some? ==> last.value < step))
            && (d == K.Duplicate <==> timely && last.Some? && last.value == step)
  {
    Difference(frame, step);
    if last.Some? {
      Difference(step, last.value);
      if step == last.value {
        assert Wrap(step) == Wrap(last.value);
      }
    }
  }
}
