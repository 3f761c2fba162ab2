/** FrameRateController: the gate of the streaming mode. A frame is processed
    only once the target frame time has passed since the last processed
    frame started; a frame that comes too early is dropped and counted. The
    clock is the `now` parameter of each operation. */
module FrameRateControllers {
  import opened Common

  /** `1000 / targetFps` in Java `int` division: the longest whole number of
      milliseconds that fits `targetFps` times into a second, and 0 once the
      rate exceeds 1000 frames per second. */
  function TargetFrameTime(targetFps: int): (t: int)
    requires targetFps != 0
    ensures 0 < targetFps ==> 0 <= t <= 1000 && t * targetFps <= 1000 < (t + 1) * targetFps
    ensures 1000 < targetFps ==> t == 0
    ensures targetFps < 0 ==> -1000 <= t <= 0 && -t * -targetFps <= 1000 < (1 - t) * -targetFps
  {
    QuotientOfThousand(Abs(targetFps));
    JavaDiv(1000, targetFps)
  }

  /** The Euclidean quotient of 1000 by a positive divisor and its bounds. */
  lemma QuotientOfThousand(f: int)
    requires 0 < f
    ensures var t := 1000 / f;
      0 <= t <= 1000 && t * f <= 1000 < (t + 1) * f && (1000 < f ==> t == 0)
  {
    var t, r := 1000 / f, 1000 % f;
    assert 1000 == t * f + r && 0 <= r < f;
    assert (t + 1) * f == t * f + f;
    if t < 0 {
      MulNonneg(-t, f);
      assert false;
    }
    if t > 1000 {
      MulNonneg(t, f - 1);
      assert false;
    }
    if 1000 < f {
      DivModUnique(1000, f, 0, 1000);
    }
  }

  /** Whether enough time has passed since `lastProcessTime` to process a
      frame at `now`. */
  predicate Due(now: int, lastProcessTime: int, target: int)
  {
    now - lastProcessTime >= target
  }

  /** Once a frame is due it stays due: waiting longer never turns a
      processed frame into a dropped one. */
  lemma DueMonotone(now1: int, now2: int, lastProcessTime: int, target: int)
    requires now1 <= now2 && Due(now1, lastProcessTime, target)
    ensures Due(now2, lastProcessTime, target)
  {
  }

  /** After a frame starts at `start`, the next frame is dropped exactly
      while less than the target frame time has passed. */
  lemma GateAfterStart(start: int, wait: int, targetFps: int)
    requires 0 < targetFps
    ensures !Due(start + wait, start, TargetFrameTime(targetFps)) <==> wait < TargetFrameTime(targetFps)
    ensures 1000 < targetFps && 0 <= wait ==> Due(start + wait, start, TargetFrameTime(targetFps))
  {
  }

  class FrameRateController {
    const targetFrameTimeMs: int
    var lastProcessTime: int
    var lastProcessDuration: int
    var droppedFrames: int
    var processedFrames: int

    /** `new FrameRateController(targetFps)`; a rate of 0 throws
        `ArithmeticException` in the division. */
    constructor (targetFps: int)
      requires targetFps != 0
      ensures targetFrameTimeMs == TargetFrameTime(targetFps)
      ensures lastProcessTime == 0 && lastProcessDuration == 0
      ensures droppedFrames == 0 && processedFrames == 0
    {
      targetFrameTimeMs := TargetFrameTime(targetFps);
      lastProcessTime := 0;
      lastProcessDuration := 0;
      droppedFrames := 0;
      processedFrames := 0;
    }

    /** `shouldProcessFrame()`: true iff the frame is due; a frame that is
        not due is counted as dropped. The time of the last frame is left
        alone. */
    method ShouldProcessFrame(now: int) returns (process: bool)
      modifies this
      ensures process <==> Due(now, lastProcessTime, targetFrameTimeMs)
      ensures droppedFrames == old(droppedFrames) + (if process then 0 else 1)
      ensures lastProcessTime == old(lastProcessTime) && lastProcessDuration == old(lastProcessDuration)
      ensures processedFrames == old(processedFrames)
    {
      var elapsed := now - lastProcessTime;
      if elapsed < targetFrameTimeMs {
        droppedFrames := droppedFrames + 1;
        return false;
      }
      return true;
    }

    /** `onFrameStart()`: the processed frame starts now. */
    method OnFrameStart(now: int)
      modifies this
      ensures lastProcessTime == now && lastProcessDuration == old(lastProcessDuration)
      ensures droppedFrames == old(droppedFrames) && processedFrames == old(processedFrames)
    {
      lastProcessTime := now;
    }

    /** `onFrameEnd()`: the duration since the frame started is recorded and
        one more frame counts as processed. */
    method OnFrameEnd(now: int)
      modifies this
      ensures lastProcessDuration == now - lastProcessTime && lastProcessTime == old(lastProcessTime)
      ensures processedFrames == old(processedFrames) + 1 && droppedFrames == old(droppedFrames)
    {
      lastProcessDuration := now - lastProcessTime;
      processedFrames := processedFrames + 1;
    }

    /** `getLastFrameDuration()` */
    method GetLastFrameDuration() returns (duration: int)
      ensures duration == lastProcessDuration
    {
      duration := lastProcessDuration;
    }

    /** `reset()`: both counters back to zero; the timing of the last frame
        is kept. */
    method Reset()
      modifies this
      ensures droppedFrames == 0 && processedFrames == 0
      ensures lastProcessTime == old(lastProcessTime) && lastProcessDuration == old(lastProcessDuration)
    {
      droppedFrames := 0;
      processedFrames := 0;
    }
  }

  /** One pass of the streaming loop: a frame that passes the gate is
      processed from `start` to `end`, after which a frame arriving at
      `next` passes again exactly when the target time has elapsed since
      `start`. */
  method ProcessOneFrame(c: FrameRateController, start: int, end: int, next: int)
      returns (processed: bool, again: bool)
    modifies c
    ensures processed <==> Due(start, old(c.lastProcessTime), c.targetFrameTimeMs)
    ensures processed ==>
      (c.lastProcessTime == start && c.lastProcessDuration == end - start
       && c.processedFrames == old(c.processedFrames) + 1
       && (again <==> next - start >= c.targetFrameTimeMs))
    ensures c.droppedFrames == old(c.droppedFrames) + (if processed then 0 else 1) + (if again then 0 else 1)
  {
    processed := c.ShouldProcessFrame(start);
    if processed {
      c.OnFrameStart(start);
      c.OnFrameEnd(end);
    }
    again := c.ShouldProcessFrame(next);
  }
}
