/**
 * The chessboard calibration capture loop: a collector that keeps up to 20
 * board detections together with the matching object grids, and launches a
 * calibration when 's' is pressed with at least 10 samples and no
 * calibration already running.
 */
module Calibration {
  import opened Wrappers
  import opened FrameLoop
  import ChessboardGrid

  /** Samples kept at most. */
  const MaxFrames: nat := 20

  /** Samples needed before a calibration may start. */
  const MinFrames: nat := 10

  /** Python's `t[::-1]` on a tuple. */
  function Reverse<T>(s: seq<T>): (r: seq<T>)
    ensures |r| == |s|
    ensures forall i :: 0 <= i < |s| ==> r[i] == s[|s| - 1 - i]
  {
    if s == [] then [] else Reverse(s[1..]) + [s[0]]
  }

  /** `gray_shape[::-1]`: numpy's (rows, cols) becomes OpenCV's (width, height). */
  lemma ImageSizeIsWidthHeight(gray: Shape)
    ensures Reverse([gray.rows, gray.cols]) == [gray.cols, gray.rows]
  {
  }

  /** What the calibration thread is handed: both sample lists and the image size. */
  datatype Job<C> = Job(objectPoints: seq<array2<int>>, imagePoints: seq<C>, imageSize: seq<nat>)

  /** The outcome of the key check: nothing, a launched calibration, or the error message. */
  datatype SaveOutcome<C> = NoAction | Launched(job: Job<C>) | NotEnoughData

  /**
   * Per-iteration inputs beyond the frame loop's: whether a running
   * calibration has finished by now, the second `waitKey` code, and the
   * result of `findChessboardCorners`.
   */
  datatype CalibrationInput<C> = CalibrationInput(finished: bool, keyCode: int, found: bool, corners: C)

  function Capped(n: nat): nat
  {
    if n < MaxFrames then n else MaxFrames
  }

  /** Whether the loop body stops at this capture: the loop head, or 'q' from the second key check. */
  predicate Quits<C>(c: Capture<CalibrationInput<C>>)
  {
    Control(c) == Stop || (Control(c) == Process && MaskKey(c.detection.keyCode) == KeyQuit)
  }

  /** None of the first k captures ends the loop. */
  predicate PassesAll<C>(captures: seq<Capture<CalibrationInput<C>>>, k: nat)
    requires k <= |captures|
  {
    forall j :: 0 <= j < k ==> !Quits(captures[j])
  }

  /** A pass that does not stop extends `PassesAll` by one capture. */
  lemma PassesAllStep<C>(captures: seq<Capture<CalibrationInput<C>>>, k: nat)
    requires k < |captures| && PassesAll(captures, k) && !Quits(captures[k])
    ensures PassesAll(captures, k + 1)
  {
  }

  /** The number of boards found among the first k captures that got past every key check. */
  function Boards<C>(captures: seq<Capture<CalibrationInput<C>>>, k: nat): nat
    requires k <= |captures|
  {
    if k == 0 then 0
    else Boards(captures, k - 1) + (if Control(captures[k - 1]) == Process && captures[k - 1].detection.found then 1 else 0)
  }

  /** The corners of the boards found among the first k captures that got past every key check, in order. */
  function FoundCorners<C>(captures: seq<Capture<CalibrationInput<C>>>, k: nat): (r: seq<C>)
    requires k <= |captures|
    ensures |r| == Boards(captures, k)
  {
    if k == 0 then []
    else FoundCorners(captures, k - 1) + (if Control(captures[k - 1]) == Process && captures[k - 1].detection.found then [captures[k - 1].detection.corners] else [])
  }

  /**
   * Whether a calibration is running after the first k captures, when one was
   * running at the start iff r0 and c0 samples were held then.
   */
  function RunningAfter<C>(captures: seq<Capture<CalibrationInput<C>>>, k: nat, r0: bool, c0: nat): bool
    requires k <= |captures|
    decreases k, 1
  {
    if k == 0 then r0
    else if Control(captures[k - 1]) == Process then
      (RunningAfter(captures, k - 1, r0, c0) && !captures[k - 1].detection.finished) || LaunchesAt(captures, k - 1, r0, c0)
    else RunningAfter(captures, k - 1, r0, c0)
  }

  /**
   * Whether capture i launches a calibration: it is processed, its key is 's',
   * none is running (or the running one has finished), and the counter before
   * this capture's board is at least 10.
   */
  predicate LaunchesAt<C>(captures: seq<Capture<CalibrationInput<C>>>, i: nat, r0: bool, c0: nat)
    requires i < |captures|
    decreases i, 2
  {
    && Control(captures[i]) == Process && MaskKey(captures[i].detection.keyCode) == KeySave
    && !(RunningAfter(captures, i, r0, c0) && !captures[i].detection.finished)
    && Capped(c0 + Boards(captures, i)) >= MinFrames
  }

  /** The number of calibrations launched by the first k captures. */
  function Launches<C>(captures: seq<Capture<CalibrationInput<C>>>, k: nat, r0: bool, c0: nat): nat
    requires k <= |captures|
  {
    if k == 0 then 0
    else Launches(captures, k - 1, r0, c0) + if LaunchesAt(captures, k - 1, r0, c0) then 1 else 0
  }

  /**
   * Keeping a found board while fewer than 20 are held extends "the initial
   * samples, then the found corners, up to the cap" by one capture.
   */
  lemma KeptStep<C>(start: seq<C>, captures: seq<Capture<CalibrationInput<C>>>, i: nat, kept: seq<C>, count: nat)
    requires i < |captures| && |start| <= MaxFrames
    requires count == Capped(|start| + Boards(captures, i))
    requires kept == (start + FoundCorners(captures, i))[..count]
    ensures Capped(count + if Control(captures[i]) == Process && captures[i].detection.found then 1 else 0) == Capped(|start| + Boards(captures, i + 1))
    ensures (if Control(captures[i]) == Process && captures[i].detection.found && count < MaxFrames then kept + [captures[i].detection.corners] else kept)
      == (start + FoundCorners(captures, i + 1))[..Capped(|start| + Boards(captures, i + 1))]
  {
    var c := captures[i];
    var all := start + FoundCorners(captures, i);
    var next := start + FoundCorners(captures, i + 1);
    var n := Capped(|start| + Boards(captures, i));
    if Control(c) == Process && c.detection.found {
      assert next == all + [c.detection.corners];
      assert Boards(captures, i + 1) == Boards(captures, i) + 1;
      if count < MaxFrames {
        assert n == |all|;
        assert kept == all;
      } else {
        assert n == MaxFrames <= |all|;
        assert next[..MaxFrames] == all[..MaxFrames];
      }
    } else {
      assert next == all;
    }
  }

  /** A launched calibration: 10 to 20 sample pairs and the buffer's (width, height). */
  predicate GoodJob<C>(job: Job<C>, gray: Shape)
  {
    && MinFrames <= |job.imagePoints| <= MaxFrames
    && |job.objectPoints| == |job.imagePoints|
    && job.imageSize == [gray.cols, gray.rows]
  }

  class Collector<C> {
    const objp: array2<int>
    var collectedFrames: nat
    var objPoints: seq<array2<int>>
    var imgPoints: seq<C>
    /** `calibration_thread and calibration_thread.is_alive()`. */
    var running: bool

    /** The lists grow together with the counter, and every object entry is the one grid. */
    ghost predicate Valid()
      reads this
    {
      && collectedFrames <= MaxFrames
      && |objPoints| == collectedFrames && |imgPoints| == collectedFrames
      && (forall k :: 0 <= k < |objPoints| ==> objPoints[k] == objp)
      && objp.Length0 == ChessboardGrid.PatternPoints && objp.Length1 == 3
    }

    /**
     * After the first k captures, starting from the samples `start`: the
     * counter is the number of found boards, capped at 20, and the image list
     * is `start` followed by their corners, up to the cap.
     */
    ghost predicate Collected(start: seq<C>, captures: seq<Capture<CalibrationInput<C>>>, k: nat)
      requires k <= |captures|
      reads this
    {
      && collectedFrames == Capped(|start| + Boards(captures, k))
      && imgPoints == (start + FoundCorners(captures, k))[..Capped(|start| + Boards(captures, k))]
    }

    /** `Collected`, and the calibration runs as the launch schedule from r0 says. */
    ghost predicate Scheduled(r0: bool, start: seq<C>, captures: seq<Capture<CalibrationInput<C>>>, k: nat)
      requires k <= |captures|
      reads this
    {
      Collected(start, captures, k) && running == RunningAfter(captures, k, r0, |start|)
    }

    /** Every launched job is good for the buffer, and its image list is a prefix of the current one. */
    ghost predicate JobsKept(jobs: seq<Job<C>>, gray: Option<Shape>)
      reads this
    {
      && (jobs != [] ==> gray.Some? && forall k :: 0 <= k < |jobs| ==> GoodJob(jobs[k], gray.value))
      && (forall k :: 0 <= k < |jobs| ==> jobs[k].imagePoints <= imgPoints)
    }

    constructor ()
      ensures Valid() && fresh(objp)
      ensures collectedFrames == 0 && objPoints == [] && imgPoints == [] && !running
      ensures forall r :: 0 <= r < ChessboardGrid.PatternPoints ==>
        objp[r, 0] == r % ChessboardGrid.PatternCols && objp[r, 1] == r / ChessboardGrid.PatternCols && objp[r, 2] == 0
    {
      var grid := ChessboardGrid.ObjectPoints();
      objPoints := [];
      imgPoints := [];
      objp := grid;
      running := false;
      collectedFrames := 0;
    }

    /**
     * The second key check: 'q' quits; 's' with no calibration running
     * launches one when enough samples exist and prints the error otherwise.
     */
    method HandleKey(keyCode: int, gray: Shape) returns (quit: bool, outcome: SaveOutcome<C>)
      requires Valid()
      modifies this`running
      ensures Valid()
      ensures quit <==> MaskKey(keyCode) == KeyQuit
      ensures outcome.Launched? <==> !quit && MaskKey(keyCode) == KeySave && !old(running) && collectedFrames >= MinFrames
      ensures outcome.NotEnoughData? <==> !quit && MaskKey(keyCode) == KeySave && !old(running) && collectedFrames < MinFrames
      ensures outcome.Launched? ==> outcome.job == Job(objPoints, imgPoints, Reverse([gray.rows, gray.cols]))
      ensures running == (old(running) || outcome.Launched?)
    {
      var key := MaskKey(keyCode);
      quit, outcome := false, NoAction;
      if key == KeyQuit {
        quit := true;
      } else if key == KeySave && !running {
        if collectedFrames >= MinFrames {
          outcome := Launched(Job(objPoints, imgPoints, Reverse([gray.rows, gray.cols])));
          running := true;
        } else {
          outcome := NotEnoughData;
        }
      }
    }

    /** A found board is kept while fewer than 20 are held; otherwise nothing changes. */
    method AddBoard(found: bool, corners: C)
      requires Valid()
      modifies this`collectedFrames, this`objPoints, this`imgPoints
      ensures Valid()
      ensures found && old(collectedFrames) < MaxFrames ==>
        && collectedFrames == old(collectedFrames) + 1
        && imgPoints == old(imgPoints) + [corners]
        && objPoints == old(objPoints) + [objp]
      ensures !(found && old(collectedFrames) < MaxFrames) ==>
        collectedFrames == old(collectedFrames) && imgPoints == old(imgPoints) && objPoints == old(objPoints)
    {
      if found {
        if collectedFrames < MaxFrames {
          imgPoints := imgPoints + [corners];
          objPoints := objPoints + [objp];
          collectedFrames := collectedFrames + 1;
        }
      }
    }

    /** The launched calibration has finished (its thread is no longer alive). */
    method CalibrationFinished()
      modifies this`running
      ensures !running
    {
      running := false;
    }

    /**
     * One iteration after detection: the key check comes first, so a launch
     * sees the samples as they were before this frame's board is added.
     */
    method Iteration(input: CalibrationInput<C>, gray: Shape) returns (quit: bool, outcome: SaveOutcome<C>)
      requires Valid()
      modifies this`running, this`collectedFrames, this`objPoints, this`imgPoints
      ensures Valid()
      ensures quit <==> MaskKey(input.keyCode) == KeyQuit
      ensures quit ==> collectedFrames == old(collectedFrames) && imgPoints == old(imgPoints) && objPoints == old(objPoints)
      ensures !quit ==> collectedFrames == old(if input.found then Capped(collectedFrames + 1) else collectedFrames)
      ensures !quit ==> imgPoints == old(if input.found && collectedFrames < MaxFrames then imgPoints + [input.corners] else imgPoints)
      ensures running == ((old(running) && !input.finished) || outcome.Launched?)
      ensures outcome.Launched? ==> outcome.job.imagePoints == old(imgPoints) && outcome.job.objectPoints == old(objPoints)
      ensures outcome.Launched? ==> MinFrames <= |outcome.job.imagePoints| <= MaxFrames && |outcome.job.objectPoints| == |outcome.job.imagePoints|
      ensures outcome.Launched? ==> outcome.job.imageSize == [gray.cols, gray.rows]
      ensures outcome.Launched? || outcome.NotEnoughData? ==> MaskKey(input.keyCode) == KeySave
      ensures outcome.Launched? || outcome.NotEnoughData? ==> !old(running) || input.finished
      ensures outcome.Launched? <==> MaskKey(input.keyCode) == KeySave && !(old(running) && !input.finished) && old(collectedFrames) >= MinFrames
      ensures outcome.NotEnoughData? <==> MaskKey(input.keyCode) == KeySave && !(old(running) && !input.finished) && old(collectedFrames) < MinFrames
    {
      if input.finished {
        CalibrationFinished();
      }
      quit, outcome := HandleKey(input.keyCode, gray);
      if quit {
        return;
      }
      AddBoard(input.found, input.corners);
    }

    /**
     * Pass i of the capture loop: the shared loop head, then (for a processed
     * frame) the key check and the board.  A pass that does not stop carries
     * `Collected` from i captures to i + 1, and launches as the schedule says.
     */
    method Cycle(captures: seq<Capture<CalibrationInput<C>>>, i: nat, gray: Option<Shape>, ghost r0: bool, ghost start: seq<C>)
      returns (stop: bool, launched: Option<Job<C>>, gray': Option<Shape>)
      requires Valid() && i < |captures|
      modifies this`running, this`collectedFrames, this`objPoints, this`imgPoints
      ensures Valid()
      ensures stop <==> Quits(captures[i])
      ensures stop ==> collectedFrames == old(collectedFrames) && imgPoints == old(imgPoints)
      ensures !stop ==> collectedFrames == Capped(old(collectedFrames) + if Control(captures[i]) == Process && captures[i].detection.found then 1 else 0)
      ensures !stop ==> imgPoints == old(
        if Control(captures[i]) == Process && captures[i].detection.found && collectedFrames < MaxFrames then imgPoints + [captures[i].detection.corners] else imgPoints)
      ensures running == if Control(captures[i]) == Process then (old(running) && !captures[i].detection.finished) || launched.Some? else old(running)
      ensures gray' == NextBuffer(gray, captures[i])
      ensures launched.Some? ==> gray'.Some? && GoodJob(launched.value, gray'.value)
      ensures launched.Some? <==> (
        && Control(captures[i]) == Process && MaskKey(captures[i].detection.keyCode) == KeySave
        && !(old(running) && !captures[i].detection.finished) && old(collectedFrames) >= MinFrames)
      ensures launched.Some? ==> launched.value.imagePoints == old(imgPoints) && launched.value.objectPoints == old(objPoints)
      ensures old(Collected(start, captures, i)) && |start| <= MaxFrames && !stop ==> Collected(start, captures, i + 1)
      ensures old(Scheduled(r0, start, captures, i)) && |start| <= MaxFrames && !stop ==>
        && Scheduled(r0, start, captures, i + 1)
        && (launched.Some? <==> LaunchesAt(captures, i, r0, |start|))
        && Launches(captures, i + 1, r0, |start|) == Launches(captures, i, r0, |start|) + if launched.Some? then 1 else 0
    {
      ghost var count, kept := collectedFrames, imgPoints;
      var c := captures[i];
      var step;
      step, gray' := Admit(c, gray);
      stop, launched := step == Stop, None;
      if step == Process {
        var quit, outcome := Iteration(c.detection, gray'.value);
        stop := quit;
        if outcome.Launched? {
          launched := Some(outcome.job);
        }
      }
      if count == Capped(|start| + Boards(captures, i)) && kept == (start + FoundCorners(captures, i))[..count] && |start| <= MaxFrames {
        KeptStep(start, captures, i, kept, count);
      }
    }

    /**
     * Pass i of the capture loop together with the record of a launched
     * calibration: the launch schedule, the sample lists and the jobs so far
     * are carried from i captures to i + 1, or kept when the pass stops.
     */
    method Pass(captures: seq<Capture<CalibrationInput<C>>>, i: nat, jobs: seq<Job<C>>, gray: Option<Shape>, ghost r0: bool, ghost start: seq<C>)
      returns (stop: bool, jobs': seq<Job<C>>, gray': Option<Shape>)
      requires Valid() && i < |captures| && |start| <= MaxFrames
      requires Scheduled(r0, start, captures, i) && JobsKept(jobs, gray)
      requires |jobs| == Launches(captures, i, r0, |start|)
      modifies this`running, this`collectedFrames, this`objPoints, this`imgPoints
      ensures Valid()
      ensures stop <==> Quits(captures[i])
      ensures gray' == NextBuffer(gray, captures[i])
      ensures JobsKept(jobs', gray')
      ensures stop ==> Collected(start, captures, i) && |jobs'| == Launches(captures, i, r0, |start|)
      ensures !stop ==> Scheduled(r0, start, captures, i + 1) && |jobs'| == Launches(captures, i + 1, r0, |start|)
    {
      var launched;
      stop, launched, gray' := Cycle(captures, i, gray, r0, start);
      jobs' := jobs;
      if !stop && launched.Some? {
        jobs' := jobs + [launched.value];
      }
    }

    /**
     * The capture loop of the calibration script over a finite stream, then
     * the final join.  The counter ends as the number of boards found, capped
     * at 20; the image list is the initial one followed by the corners of those
     * boards, in order, up to the cap; the buffer is that of the first processed
     * frame; one calibration is launched for every capture the launch schedule
     * names; and every launched calibration got between 10 and 20 samples.
     */
    method Run(captures: seq<Capture<CalibrationInput<C>>>) returns (jobs: seq<Job<C>>, gray: Option<Shape>, stoppedAt: nat)
      requires Valid()
      modifies this
      ensures Valid()
      ensures stoppedAt <= |captures|
      ensures forall k :: 0 <= k < stoppedAt ==> !Quits(captures[k])
      ensures stoppedAt < |captures| ==> Quits(captures[stoppedAt])
      ensures collectedFrames == Capped(old(collectedFrames) + Boards(captures, stoppedAt))
      ensures old(collectedFrames) <= collectedFrames
      ensures imgPoints == (old(imgPoints) + FoundCorners(captures, stoppedAt))[..collectedFrames]
      ensures gray == BufferAfter(captures, if stoppedAt < |captures| then stoppedAt + 1 else stoppedAt)
      ensures jobs != [] ==> gray.Some? && forall k :: 0 <= k < |jobs| ==> GoodJob(jobs[k], gray.value)
      ensures forall k :: 0 <= k < |jobs| ==> jobs[k].imagePoints <= imgPoints
      ensures |jobs| == Launches(captures, stoppedAt, old(running), old(collectedFrames))
      ensures !running
    {
      jobs, gray, stoppedAt := [], None, 0;
      ghost var startPoints, startRunning := imgPoints, running;
      while stoppedAt < |captures|
        invariant Valid()
        invariant stoppedAt <= |captures|
        invariant PassesAll(captures, stoppedAt)
        invariant |startPoints| == old(collectedFrames) && startRunning == old(running)
        invariant Scheduled(startRunning, startPoints, captures, stoppedAt)
        invariant |jobs| == Launches(captures, stoppedAt, startRunning, |startPoints|)
        invariant gray == BufferAfter(captures, stoppedAt)
        invariant JobsKept(jobs, gray)
      {
        var stop;
        stop, jobs, gray := Pass(captures, stoppedAt, jobs, gray, startRunning, startPoints);
        if stop {
          break;
        }
        PassesAllStep(captures, stoppedAt);
        stoppedAt := stoppedAt + 1;
      }
      if running {
        CalibrationFinished();  // calibration_thread.join()
      }
    }
  }
}
