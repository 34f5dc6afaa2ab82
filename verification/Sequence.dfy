/** SequenceTracker of src/protocol.cpp (and its host twin): RFC 1982 comparison of 32-bit serials. */
module Sequence {
  import opened Words

  datatype Disposition = First | InOrder | Gap | Duplicate | OutOfOrder | Stale
  datatype Observation = Observation(disposition: Disposition, accepted: bool, missing: u32)

  function ReorderWindow(requested: u32): (w: u32)
    ensures 0 < w < HALF32
  {
    if requested == 0 || requested >= HALF32 then 32 else requested
  }

  /** What the tracker has accepted, in unbounded serials: `first` and `last` sequence,
      how many packets, and the last step seen with a step-bound packet. */
  datatype Progress = Nothing | Seen(first: int, last: int, count: nat, step: Option<int>)

  predicate Plausible(p: Progress) {
    p.Seen? ==> p.count >= 1 && p.last - p.first >= p.count - 1
  }

  function NextStep(prior: Option<int>, step: Option<u32>): Option<int> {
    if step.None? then prior
    else if prior.None? then Some(step.value as int)
    else Some(prior.value + Sub32(step.value, Wrap(prior.value)))
  }

  predicate OlderStep(prior: Option<int>, step: Option<u32>) {
    step.Some? && prior.Some? && Sub32(step.value, Wrap(prior.value)) >= HALF32
  }

  /** The tracker's answer to a packet, and the unbounded progress after it. */
  function Judge(p: Progress, window: u32, sequence: u32, step: Option<u32>): (Observation, Progress) {
    match p
    case Nothing => (Observation(First, true, 0), Seen(sequence, sequence, 1, NextStep(None, step)))
    case Seen(first, last, count, prior) =>
      var delta := Sub32(sequence, Wrap(last));
      if delta == 0 then (Observation(Duplicate, false, 0), p)
      else if delta < HALF32 && OlderStep(prior, step) then (Observation(Stale, false, 0), p)
      else if delta < HALF32 then
        (Observation(if delta == 1 then InOrder else Gap, true, delta - 1),
         Seen(first, last + delta, count + 1, NextStep(prior, step)))
      else (Observation(if TWO32 - delta <= window then OutOfOrder else Stale, false, 0), p)
  }

  /** A packet is accepted exactly when it opens the session or its serial is newer; then no serial is
      lost from the account, and neither sequence nor step goes back. */
  lemma JudgeKeepsAccount(p: Progress, window: u32, sequence: u32, step: Option<u32>)
    requires Plausible(p)
    ensures var (o, q) := Judge(p, window, sequence, step);
            && Plausible(q)
            && (o.accepted <==> q != p) && (o.accepted <==> o.disposition in {First, InOrder, Gap})
            && (o.accepted ==> q.Seen? && Wrap(q.last) == sequence)
            && (o.accepted && p.Seen? ==>
                  && q.first == p.first && q.last == p.last + 1 + o.missing && q.count == p.count + 1
                  && (p.step.Some? ==> q.step.Some? && q.step.value >= p.step.value)
                  && (step.Some? ==> q.step.Some? && Wrap(q.step.value) == step.value))
  {
    if p.Seen? {
      Catches(p.last, sequence);
      if p.step.Some? && step.Some? {
        Catches(p.step.value, step.value);
      }
    }
  }

  /** The wire carries serials modulo 2^32; while true serials move forward by less than 2^31 the
      tracker recovers them exactly and reports how many it missed. */
  lemma JudgeRecoversSerial(p: Progress, window: u32, serial: int)
    requires p.Seen? && 0 < serial - p.last < HALF32
    ensures Judge(p, window, Wrap(serial), None) ==
            (Observation(if serial == p.last + 1 then InOrder else Gap, true, serial - p.last - 1),
             Seen(p.first, serial, p.count + 1, p.step))
  {
    Elapsed(serial, p.last);
  }

  /** A packet that is not newer, by less than 2^31, is told apart exactly: repeated, out of order within the window, or
      stale; it is never accepted and changes nothing. */
  lemma JudgeBackwards(p: Progress, window: u32, serial: int, step: Option<u32>)
    requires p.Seen? && 0 < window < HALF32 && 0 <= p.last - serial < HALF32
    ensures var back := p.last - serial;
            Judge(p, window, Wrap(serial), step) ==
            (Observation(if back == 0 then Duplicate else if back <= window then OutOfOrder else Stale, false, 0), p)
  {
    Difference(serial, p.last);
  }

  /** A newer packet bound to a step within 2^31 of the last one is accepted exactly if its step does not go back. */
  lemma JudgeBoundStep(p: Progress, window: u32, serial: int, step: int)
    requires p.Seen? && p.step.Some? && 0 < serial - p.last < HALF32 && -HALF32 < step - p.step.value < HALF32
    ensures var (o, q) := Judge(p, window, Wrap(serial), Some(Wrap(step)));
            if step >= p.step.value then
              o.accepted && q == Seen(p.first, serial, p.count + 1, Some(step)) && o.missing == serial - p.last - 1
            else !o.accepted && o.disposition == Stale && q == p
  {
    Elapsed(serial, p.last);
    Difference(step, p.step.value);
  }

  /** The tracker over a whole run of sequence-only packets. */
  function Replay(window: u32, serials: seq<int>): (seq<Observation>, Progress)
  {
    if serials == [] then ([], Nothing)
    else
      var (log, p) := Replay(window, serials[..|serials| - 1]);
      var (o, q) := Judge(p, window, Wrap(serials[|serials| - 1]), None);
      (log + [o], q)
  }

  ghost predicate ForwardRun(serials: seq<int>) {
    forall i :: 0 < i < |serials| ==> 0 < serials[i] - serials[i - 1] < HALF32
  }

  /** Every packet accepted, the first as First and the others as InOrder or Gap, and accepted plus
      missing equal to the span of the serials. */
  ghost predicate AcceptsAll(log: seq<Observation>, p: Progress, serials: seq<int>) {
    var n := |serials|;
    && |log| == n > 0
    && log[0].disposition == First && log[0].accepted
    && (forall i :: 1 <= i < n ==> log[i].accepted && (log[i].disposition == InOrder || log[i].disposition == Gap))
    && p.Seen? && p.count == n && p.last - p.first == serials[n - 1] - serials[0]
    && Wrap(p.last) == Wrap(serials[n - 1])
  }

  lemma {:induction false} ForwardRunAccepted(window: u32, serials: seq<int>)
    requires ForwardRun(serials) && serials != []
    ensures AcceptsAll(Replay(window, serials).0, Replay(window, serials).1, serials)
  {
    var n := |serials|;
    var init := serials[..n - 1];
    if n == 1 {
      assert Replay(window, init) == ([], Nothing);
    } else {
      ForwardRunAccepted(window, init);
      var p := Replay(window, init).1;
      var stride := serials[n - 1] - serials[n - 2];
      WrapShift(p.last, serials[n - 2], stride);
      JudgeRecoversSerial(p, window, p.last + stride);
    }
  }

  class SequenceTracker {
    const window: u32
    var lastSequence: u32
    var lastStep: u32
    var initialized: bool
    var hasLastStep: bool
    var accepted: u32
    var missing: u32
    var duplicates: u32
    var outOfOrder: u32
    var stale: u32
    ghost var progress: Progress
    /** What was counted before the last reset that kept the counters. */
    ghost var acceptedBefore: nat
    ghost var missingBefore: nat

    /** The fields are the image of the unbounded progress: accepted serials strictly increase, every
        serial between the first and the last was either accepted or counted missing. */
    ghost predicate Valid()
      reads this
    {
      && 0 < window < HALF32
      && Plausible(progress)
      && initialized == progress.Seen?
      && match progress
         case Nothing => accepted == Saturate(acceptedBefore) && missing == Saturate(missingBefore)
         case Seen(first, last, count, step) =>
           && lastSequence == Wrap(last)
           && hasLastStep == step.Some? && (step.Some? ==> lastStep == Wrap(step.value))
           && accepted == Saturate(acceptedBefore + count) &&
              missing == Saturate(missingBefore + (last - first + 1 - count))
    }

    constructor (requested: u32)
      ensures Valid() && progress == Nothing && window == ReorderWindow(requested) &&
              acceptedBefore == missingBefore == 0
      ensures duplicates == outOfOrder == stale == 0
    {
      window := ReorderWindow(requested);
      lastSequence, lastStep, initialized, hasLastStep := 0, 0, false, false;
      accepted, missing, duplicates, outOfOrder, stale := 0, 0, 0, 0, 0;
      progress, acceptedBefore, missingBefore := Nothing, 0, 0;
    }

    /** reset: the sequence space starts over; the counters are cleared or keep what they show. */
    method Reset(clearStats: bool)
      requires Valid()
      modifies this
      ensures Valid() && progress == Nothing
      ensures if clearStats then acceptedBefore == missingBefore == duplicates == outOfOrder == stale == 0
              else
                && acceptedBefore == old(Accepted()) && missingBefore == old(Missing())
                && duplicates == old(duplicates) && outOfOrder == old(outOfOrder) && stale == old(stale)
    {
      acceptedBefore, missingBefore := if clearStats then 0 else Accepted(), if clearStats then 0 else Missing();
      lastSequence, lastStep, initialized, hasLastStep := 0, 0, false, false;
      progress := Nothing;
      if clearStats {
        accepted, missing, duplicates, outOfOrder, stale := 0, 0, 0, 0, 0;
      }
    }

    /** Every packet accepted since the counters were cleared. */
    ghost function Accepted(): nat
      reads this
    {
      acceptedBefore + if progress.Seen? then progress.count else 0
    }

    /** Every serial found missing since the counters were cleared. */
    ghost function Missing(): nat
      reads this
      requires Plausible(progress)
    {
      missingBefore + if progress.Seen? then progress.last - progress.first + 1 - progress.count else 0
    }

    /** Only an accepted packet moves the progress; a rejected one changes one reject counter. */
    method Observe(sequence: u32, step: Option<u32>) returns (r: Observation)
      requires Valid()
      modifies this
      ensures Valid() && (r, progress) == Judge(old(progress), window, sequence, step)
      ensures acceptedBefore == old(acceptedBefore) && missingBefore == old(missingBefore)
      ensures duplicates == if r.disposition == Duplicate then SaturatingAdd(old(duplicates), 1) else old(duplicates)
      ensures outOfOrder == if r.disposition == OutOfOrder then SaturatingAdd(old(outOfOrder), 1) else old(outOfOrder)
      ensures stale == if r.disposition == Stale then SaturatingAdd(old(stale), 1) else old(stale)
    {
      if !initialized {
        Open(sequence, step);
        return Observation(First, true, 0);
      }
      var delta := Sub32(sequence, lastSequence);
      if delta == 0 {
        duplicates := SaturatingAdd(duplicates, 1);
        return Observation(Duplicate, false, 0);
      }
      if delta < HALF32 {
        if step.Some? && hasLastStep {
          var stepDelta := Sub32(step.value, lastStep);
          if stepDelta >= HALF32 && step.value != lastStep {
            stale := SaturatingAdd(stale, 1);
            return Observation(Stale, false, 0);
          }
        }
        Accept(sequence, step, delta);
        return Observation(if delta - 1 == 0 then InOrder else Gap, true, delta - 1);
      }
      var backwards := Sub32(lastSequence, sequence);
      assert backwards == TWO32 - delta;
      if backwards <= window {
        outOfOrder := SaturatingAdd(outOfOrder, 1);
        return Observation(OutOfOrder, false, 0);
      }
      stale := SaturatingAdd(stale, 1);
      return Observation(Stale, false, 0);
    }

    method Open(sequence: u32, step: Option<u32>)
      requires Valid() && !initialized
      modifies this`initialized, this`lastSequence, this`lastStep, this`hasLastStep, this`accepted, this`progress
      ensures Valid() && progress == Judge(old(progress), window, sequence, step).1
    {
      SaturatingAddIsSaturate(acceptedBefore, 1);
      initialized := true;
      lastSequence := sequence;
      lastStep := if step.Some? then step.value else 0;
      hasLastStep := step.Some?;
      accepted := SaturatingAdd(accepted, 1);
      progress := Judge(progress, window, sequence, step).1;
    }

    method Accept(sequence: u32, step: Option<u32>, delta: u32)
      requires Valid() && initialized && delta == Sub32(sequence, lastSequence)
      requires 0 < delta < HALF32 && !OlderStep(progress.step, step)
      modifies this`lastSequence, this`lastStep, this`hasLastStep, this`accepted, this`missing, this`progress
      ensures Valid() && progress == Judge(old(progress), window, sequence, step).1
    {
      SaturatingAddIsSaturate(Accepted(), 1);
      SaturatingAddIsSaturate(Missing(), delta - 1);
      JudgeKeepsAccount(progress, window, sequence, step);
      progress := Judge(progress, window, sequence, step).1;
      lastSequence := sequence;
      if step.Some? {
        lastStep := step.value;
        hasLastStep := true;
      }
      accepted := SaturatingAdd(accepted, 1);
      missing := SaturatingAdd(missing, delta - 1);
    }
  }
}
