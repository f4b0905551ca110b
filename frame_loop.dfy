/**
 * The per-frame control shared by every capture script: a failed read or a
 * quit key ends the loop, a missing or zero-size frame is skipped, and the
 * grayscale buffer is allocated once, from the first frame that gets through.
 */
module FrameLoop {
  import opened Wrappers

  const KeyQuit: int := 113    // ord('q')
  const KeyEscape: int := 27
  const KeySave: int := 115    // ord('s')

  /** A color frame as numpy sees it: shape (height, width, channels). */
  datatype Frame = Frame(height: nat, width: nat, channels: nat)

  /** A numpy 2-D shape (rows, cols). */
  datatype Shape = Shape(rows: nat, cols: nat)

  /** `frame.size`: the number of samples. */
  function FrameSize(f: Frame): (n: nat)
    ensures n == 0 <==> f.height == 0 || f.width == 0 || f.channels == 0
  {
    ZeroProduct(f.height, f.width);
    ZeroProduct(f.height * f.width, f.channels);
    f.height * f.width * f.channels
  }

  lemma ZeroProduct(a: nat, b: nat)
    ensures a * b == 0 <==> a == 0 || b == 0
  {
  }

  /** The buffer `np.zeros((frame.shape[0], frame.shape[1]))` is allocated with. */
  function GrayShape(f: Frame): Shape
  {
    Shape(f.height, f.width)
  }

  /**
   * `key & 0xFF` on a Python integer: the low eight bits of the unbounded
   * two's complement form, that is the unique k in [0, 256) congruent to the
   * key code modulo 256 (Dafny's `%` is Euclidean, so it gives that k also
   * for the negative code -1 that `waitKey` returns when no key is pressed).
   */
  function MaskKey(keyCode: int): (k: int)
    ensures 0 <= k < 256
    ensures (keyCode - k) % 256 == 0
  {
    keyCode % 256
  }

  /** `waitKey` returning -1 (no key pressed) masks to 255, which quits nothing. */
  lemma NoKeyPressed()
    ensures MaskKey(-1) == 255 && !IsQuitKey(MaskKey(-1))
  {
  }

  /** High bits set by modifier keys are masked away: 'q' still quits. */
  lemma ModifiedQuitKey(high: int)
    ensures IsQuitKey(MaskKey(KeyQuit + 256 * high))
  {
    assert MaskKey(KeyQuit + 256 * high) == KeyQuit;
  }

  predicate IsQuitKey(k: int)
  {
    k == KeyQuit || k == KeyEscape
  }

  /**
   * One iteration's inputs: `ret` from the read, the raw key code from
   * `waitKey(1)`, the frame (None for `frame is None`), and what the
   * detector reports for that frame.
   */
  datatype Capture<D> = Capture(ok: bool, keyCode: int, frame: Option<Frame>, detection: D)

  datatype Step = Stop | Skip | Process

  /** The decision the loop head takes for one capture. */
  function Control<D>(c: Capture<D>): (s: Step)
    ensures s == Process ==> c.frame.Some? && FrameSize(c.frame.value) > 0
  {
    if !c.ok then Stop
    else if IsQuitKey(MaskKey(c.keyCode)) then Stop
    else if c.frame.None? || FrameSize(c.frame.value) == 0 then Skip
    else Process
  }

  /**
   * The loop stops on a failed read or a quit key, and only then; past the
   * key checks it skips exactly a missing or empty frame and processes
   * every other one.
   */
  lemma ControlStops<D>(c: Capture<D>)
    ensures Control(c) == Stop <==> !c.ok || MaskKey(c.keyCode) == KeyQuit || MaskKey(c.keyCode) == KeyEscape
    ensures Control(c) == Skip <==> c.ok && !IsQuitKey(MaskKey(c.keyCode)) && (c.frame.None? || FrameSize(c.frame.value) == 0)
    ensures Control(c) == Process <==> c.ok && !IsQuitKey(MaskKey(c.keyCode)) && c.frame.Some? && FrameSize(c.frame.value) > 0
    ensures Control(c) == Process ==> c.frame.Some? && c.frame.value.height > 0 && c.frame.value.width > 0
  {
  }

  /**
   * The loop head for one capture, with its break / continue, and the
   * one-time allocation of the grayscale buffer.
   */
  method Admit<D>(c: Capture<D>, gray: Option<Shape>) returns (step: Step, gray': Option<Shape>)
    ensures step == Control(c)
    ensures step == Process && gray.None? ==> gray' == Some(GrayShape(c.frame.value))
    ensures step != Process || gray.Some? ==> gray' == gray
  {
    gray' := gray;
    if !c.ok {
      return Stop, gray';
    }
    var key := MaskKey(c.keyCode);
    if key == KeyQuit || key == KeyEscape {
      return Stop, gray';
    }
    if c.frame.None? || FrameSize(c.frame.value) == 0 {
      return Skip, gray';
    }
    if gray'.None? {
      gray' := Some(GrayShape(c.frame.value));
    }
    step := Process;
  }

  /** The buffer after one capture: allocated from the first frame that reaches conversion. */
  function NextBuffer<D>(gray: Option<Shape>, c: Capture<D>): Option<Shape>
  {
    if gray.None? && Control(c) == Process then Some(GrayShape(c.frame.value)) else gray
  }

  /** The buffer after the loop has looked at the first k captures. */
  function BufferAfter<D>(captures: seq<Capture<D>>, k: nat): Option<Shape>
    requires k <= |captures|
  {
    if k == 0 then None else NextBuffer(BufferAfter(captures, k - 1), captures[k - 1])
  }

  /** No buffer exists exactly as long as no capture has been processed. */
  lemma {:induction false} BufferAfterNone<D>(captures: seq<Capture<D>>, k: nat)
    requires k <= |captures|
    ensures BufferAfter(captures, k).None? <==> forall j :: 0 <= j < k ==> Control(captures[j]) != Process
  {
    if k > 0 {
      BufferAfterNone(captures, k - 1);
    }
  }

  /** Once allocated, the buffer has the shape of the first processed frame, whatever follows. */
  lemma {:induction false} BufferAfterFirst<D>(captures: seq<Capture<D>>, k: nat, j: nat)
    requires j < k <= |captures|
    requires Control(captures[j]) == Process
    requires forall i :: 0 <= i < j ==> Control(captures[i]) != Process
    ensures captures[j].frame.Some? && BufferAfter(captures, k) == Some(GrayShape(captures[j].frame.value))
  {
    if k == j + 1 {
      BufferAfterNone(captures, j);
    } else {
      BufferAfterFirst(captures, k - 1, j);
    }
  }

  /**
   * The capture loop over a finite stream of captures.  `processed` lists,
   * in order, the captures that reached grayscale conversion and detection;
   * `stoppedAt` is where the loop broke (or the end of the stream); `gray`
   * is the buffer's shape, that of the first processed frame.
   */
  method RunFrames<D>(captures: seq<Capture<D>>) returns (processed: seq<nat>, gray: Option<Shape>, stoppedAt: nat)
    ensures stoppedAt <= |captures|
    ensures forall k :: 0 <= k < stoppedAt ==> Control(captures[k]) != Stop
    ensures stoppedAt < |captures| ==> Control(captures[stoppedAt]) == Stop
    ensures forall m :: 0 <= m < |processed| ==> processed[m] < stoppedAt && Control(captures[processed[m]]) == Process
    ensures forall m, m' :: 0 <= m < m' < |processed| ==> processed[m] < processed[m']
    ensures forall k :: 0 <= k < stoppedAt && Control(captures[k]) == Process ==> k in processed
    ensures processed == [] <==> gray.None?
    ensures processed != [] ==> captures[processed[0]].frame.Some? && gray == Some(GrayShape(captures[processed[0]].frame.value))
  {
    processed, gray, stoppedAt := [], None, 0;
    while stoppedAt < |captures|
      invariant stoppedAt <= |captures|
      invariant forall k :: 0 <= k < stoppedAt ==> Control(captures[k]) != Stop
      invariant forall m :: 0 <= m < |processed| ==> processed[m] < stoppedAt && Control(captures[processed[m]]) == Process
      invariant forall m, m' :: 0 <= m < m' < |processed| ==> processed[m] < processed[m']
      invariant forall k :: 0 <= k < stoppedAt && Control(captures[k]) == Process ==> k in processed
      invariant processed == [] <==> gray.None?
      invariant processed != [] ==> captures[processed[0]].frame.Some? && gray == Some(GrayShape(captures[processed[0]].frame.value))
    {
      var step;
      step, gray := Admit(captures[stoppedAt], gray);
      if step == Stop {
        break;
      }
      if step == Process {
        processed := processed + [stoppedAt];
      }
      stoppedAt := stoppedAt + 1;
    }
  }
}
