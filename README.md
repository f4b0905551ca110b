# ArUco marker overlays and chessboard calibration capture — integer model

This project models the integer and index bookkeeping of a small real-time
fiducial-marker vision tool: three capture scripts that detect ArUco markers
(4x4 dictionary, 50 ids) in a camera stream and annotate them, and a capture
loop that collects chessboard detections for camera calibration. Everything
the vision library computes is an input here. That covers detected corner
groups and their integer centers, `ids`, the translation vectors from the
pose solve, the chessboard `found` flag and corners, key codes, and whether
the parameter file exists.

Modules, following the scripts:

- `FrameLoop` (`frame_loop.dfy`): the loop head all four scripts share. A
  failed read ends the loop. So does a key code whose low byte is `q` or
  ESC. A missing or zero-size frame is skipped. The grayscale buffer is
  allocated once, with the height and width of the first frame that is
  processed (not skipped).
- `CameraModel` (`camera_model.dfy`): `camera_calibration`. It returns the
  stored matrix and coefficients when the file exists. Otherwise it returns
  the pinhole default (focal 800, principal point (320, 240)) and five zero
  coefficients.
- `DistanceOverlay` (`distance_overlay.dfy`): the distance script's frame
  body. It fills `tvecs`/`centers` in lockstep, scans
  `combinations(range(n), 2)` and places each label at the truncated
  midpoint `int((a + b) / 2)`.
- `ArrowOverlay` (`arrow_overlay.dfy`): the arrow script's frame body. It
  collects centers only with more than one id, scans ordered pairs
  `i != j` with nested loops, and computes the floor midpoint `(a + b) // 2`
  and the squared pixel offset.
- `MarkerLetters` (`marker_letters.dfy`): `id_to_letter` and the letter
  script's index-aligned labelling loop.
- `ChessboardGrid` (`chessboard_grid.dfy`): the object grid `objp`. The
  numpy expression `indices((9, 6)).T.reshape(-1, 2)` is modelled step by
  step and proved to give row r = (r mod 9, r div 9, 0).
- `Calibration` (`calibration.dfy`): the sample collector as a class. Its
  state is the counter (capped at 20), the two lists, and a `running` flag
  standing for the calibration thread. It has the `'s'` launch guard, the
  capture loop, and the image size `gray_shape[::-1]`.
- `Pairs` (`pairs.dfy`) and `Geometry` (`geometry.dfy`): the two pair
  enumerations and the integer midpoint and offset arithmetic, with their
  lemmas.

Behaviour of the code worth noting:

- The grayscale buffer is allocated once and never reallocated when the
  resolution changes.
- The pose solve's success flag is ignored, so no marker is ever excluded.
- Pairs are pairs of detection indices, not of ids.

## Model

| member | source | states |
|---|---|---|
| Geometry.FloorHalf | code/example_03.py:94-95 | `s // 2` is the floor of s/2 for every sign: 2r <= s < 2r+2 |
| Geometry.TruncHalf | code/example_04.py:148 | `int(s / 2)` truncates toward zero: floor for s >= 0, ceiling for s < 0 |
| Geometry.FloorMid | code/example_03.py:94-95 | the floor midpoint coordinate lies between the two coordinates |
| Geometry.TruncMid | code/example_04.py:148 | the truncated midpoint coordinate lies between the two coordinates |
| Geometry.FloorMidpointBetween | code/example_03.py:94-95 | the floor midpoint lies in the box of the two centers and is symmetric in them |
| Geometry.TruncMidpointBetween | code/example_04.py:148 | the truncated midpoint lies in the box of the two centers and is symmetric in them |
| Geometry.TruncVersusFloor | code/example_04.py:148 | the two midpoint rules differ exactly when the sum is negative and odd, and then by one |
| Geometry.TruncMidpointOnScreen | code/example_04.py:148 | on non-negative pixel coordinates the truncated midpoint equals the floor midpoint |
| Geometry.SquaredOffset | code/example_03.py:93 | the squared pixel offset is non-negative |
| Geometry.SquaredOffsetProperties | code/example_03.py:93 | the squared offset is symmetric and zero iff the two centers coincide |
| Pairs.Combinations2 | code/example_04.py:141 | `combinations(range(n), 2)` as rows: for each i, the pairs (i, j) with i < j < n in increasing j (its properties are the lemmas below) |
| Pairs.CombinationsCount | code/example_04.py:141 | `combinations(range(n), 2)` yields exactly n(n-1)/2 pairs |
| Pairs.CombinationsOfFewer | code/example_04.py:140-141 | with fewer than two markers no pair is produced |
| Pairs.CombinationsMembers | code/example_04.py:141 | a pair is produced iff 0 <= i < j < n (both directions) |
| Pairs.CombinationsOrdered | code/example_04.py:141 | the pairs are in strict lexicographic order, so none repeats |
| Pairs.OrderedPairs | code/example_03.py:83-85 | the visit order of the two nested `enumerate` loops with the `i != j` test: row i lists every j != i in increasing order (its properties are the lemmas below) |
| Pairs.OrderedPairsCount | code/example_03.py:83-85 | the nested `i != j` scan makes n(n-1) visits |
| Pairs.OrderedPairsMembers | code/example_03.py:83-85 | (i, j) is visited iff i, j < n and i != j |
| Pairs.OrderedPairsSorted | code/example_03.py:83-85 | visits are in row-major order, none twice |
| Pairs.OrderedPairsBothDirections | code/example_03.py:83-85 | the visits are the combinations and their reversals: each unordered pair once per direction, twice as many as the combinations |
| FrameLoop.FrameSize | code/example_04.py:118 | `frame.size` is zero iff some dimension is zero |
| FrameLoop.MaskKey | code/example_04.py:114 | `key & 0xFF` is the byte in [0, 256) congruent to the key code modulo 256 |
| FrameLoop.NoKeyPressed | code/example_04.py:114-116 | the no-key code -1 masks to 255 and does not quit |
| FrameLoop.ModifiedQuitKey | code/example_04.py:114-116 | `q` with any high bits set still quits after masking |
| FrameLoop.Control | code/example_04.py:109-120 | a capture reaches detection only with a present frame of non-zero size |
| FrameLoop.ControlStops | code/example_04.py:109-120 | the loop stops iff the read failed or the masked key is `q` or ESC; past those checks it skips exactly a missing or empty frame and processes every other one; a processed frame has positive height and width |
| FrameLoop.Admit | code/example_04.py:109-123 | one loop head: break, continue or process as `Control` decides; the gray buffer is allocated only when none exists, with the frame's height and width |
| FrameLoop.NextBuffer | code/example_04.py:122-123 | the buffer after one capture: allocated from a processed frame when none exists, otherwise unchanged |
| FrameLoop.BufferAfter | code/example_04.py:122-123 | the buffer after the loop has looked at the first k captures (its properties are the two lemmas below) |
| FrameLoop.BufferAfterNone | code/example_04.py:122-123 | no buffer exists after k captures iff none of them was processed |
| FrameLoop.BufferAfterFirst | code/example_04.py:122-123 | once a frame is processed, the buffer has that first processed frame's height and width, whatever follows |
| FrameLoop.RunFrames | code/example_04.py:108-125 | the loop runs up to the first stop; exactly the admitted frames are processed, in order; the buffer has the first processed frame's shape |
| CameraModel.CameraCalibration | code/example_04.py:44-50 | the stored arrays when the file exists, else the 800/320/240 pinhole matrix and five zero coefficients, with the matching status |
| CameraModel.DefaultIgnoresFile | code/example_04.py:48-50 | the fallback is the fixed matrix [[800,0,320],[0,800,240],[0,0,1]] whatever the file would hold |
| MarkerLetters.IdToLetter | code/example_02.py:45-46 | every id, negative ones included, gives a letter in 'A'..'Z' fixed by the id modulo 26 |
| MarkerLetters.LetterPeriodic | code/example_02.py:34-46 | the letter wraps with period 26 |
| MarkerLetters.AlphabetInOrder | code/example_02.py:46 | ids 0..25 map to 'A'..'Z' in order, hence injectively |
| MarkerLetters.DictionaryCollisions | code/example_02.py:45-46 | among the dictionary ids 0..49 two ids share a letter iff they are equal or 26 apart |
| MarkerLetters.NegativeIds | code/example_02.py:45-46 | negative ids wrap into the alphabet (-1 is 'Z') |
| MarkerLetters.LabelMarkers | code/example_02.py:86-94 | with ids present, label i carries the letter of `ids[i]` and the center of corner group i; no ids, no labels |
| DistanceOverlay.MeasureFrame | code/example_04.py:128-148 | tvecs and centers grow in lockstep in detection order; n(n-1)/2 labels in combinations order, each for i < j < n with both centers and the truncated midpoint between them |
| DistanceOverlay.LabelOnScreen | code/example_04.py:148 | a label with on-screen centers sits at the floor midpoint |
| ArrowOverlay.ArrowFrame | code/example_03.py:73-95 | centers only with more than one id, one per corner group in order; n(n-1) arrows in row-major order over i != j, floor midpoint between the centers, non-negative squared offset |
| ArrowOverlay.ArrowsFrom | code/example_03.py:84-95 | the inner loop for marker i draws, in index order, one arrow to every other marker, with the floor midpoint and squared offset of that pair |
| ArrowOverlay.ReverseArrowSameLabel | code/example_03.py:93-95 | the reverse arrow gets the same label position and distance; the offset is zero iff the centers coincide |
| ChessboardGrid.Indices | code/dev/get_calibration.py:63 | `np.indices((9, 6))`: plane 0 holds the first index, plane 1 the second |
| ChessboardGrid.IndicesT | code/dev/get_calibration.py:63 | `.T` reverses the axes of the 2 x 9 x 6 index array: the 6 x 9 x 2 entry [j][i][k] is plane k at (i, j) |
| ChessboardGrid.Reshaped | code/dev/get_calibration.py:63 | `.reshape(-1, 2)` of the transposed array in C order: entry (r, c) is flat element 2r + c, at position (f / 18, (f / 2) % 9, f % 2) |
| ChessboardGrid.ReshapedIsModDiv | code/dev/get_calibration.py:63 | entry (r, c) of `indices((9, 6)).T.reshape(-1, 2)` is r mod 9 for c = 0 and r div 9 for c = 1 |
| ChessboardGrid.CellSuccessor | code/dev/get_calibration.py:63 | x varies fastest: the next row moves one column right or wraps to the next grid row |
| ChessboardGrid.CellBijection | code/dev/get_calibration.py:62-63 | the 54 rows hold each of the 9 x 6 cells exactly once |
| ChessboardGrid.ObjectPoints | code/dev/get_calibration.py:62-63 | a fresh 54 x 3 array with row r = (r mod 9, r div 9, 0) |
| Calibration.Reverse | code/dev/get_calibration.py:37 | `t[::-1]` has the same length and the elements in reverse order |
| Calibration.ImageSizeIsWidthHeight | code/dev/get_calibration.py:37 | the image size handed to calibration is (width, height) of the gray shape (height, width) |
| Calibration.Quits | code/dev/get_calibration.py:84-103 | the loop's exits: the shared loop head stops, or a processed frame's second key is `q` |
| Calibration.Boards | code/dev/get_calibration.py:113-119 | the number of found boards among the first k captures that got past every key check |
| Calibration.FoundCorners | code/dev/get_calibration.py:113-117 | the corners of the found boards among the processed captures, one entry per board counted by `Boards` |
| Calibration.RunningAfter | code/dev/get_calibration.py:104-109 | whether a calibration is running after the first k captures: a processed capture keeps one running unless it has finished, and starts one when it launches |
| Calibration.LaunchesAt | code/dev/get_calibration.py:101-111 | capture i launches a calibration iff it is processed, its key is `s`, none is running (or the running one has finished), and the counter before this capture's board is at least 10 |
| Calibration.Launches | code/dev/get_calibration.py:104-109 | the number of captures among the first k that launch a calibration |
| Calibration.KeptStep | code/dev/get_calibration.py:113-119 | appending a found board while fewer than 20 are held, or leaving the list alone, keeps the list equal to the initial samples followed by the found corners, cut at the cap |
| Calibration.Collector.constructor | code/dev/get_calibration.py:59-66 | empty lists, counter zero, no calibration running, and the grid built as in ObjectPoints |
| Calibration.Collector.HandleKey | code/dev/get_calibration.py:101-111 | second key check: `q` quits; `s` with nothing running launches iff at least 10 samples, else reports the error; `s` while running does nothing at all |
| Calibration.Collector.AddBoard | code/dev/get_calibration.py:113-121 | a found board below 20 appends one entry to each list and adds one to the counter; otherwise nothing changes; the lists stay as long as the counter |
| Calibration.Collector.CalibrationFinished | code/dev/get_calibration.py:104 | once the thread has finished, `running` is false |
| Calibration.Collector.Iteration | code/dev/get_calibration.py:101-121 | the key check precedes the board: `s` with no calibration running (or one that just finished) launches iff the counter before this frame's append is at least 10 and reports the error iff it is below 10; a launch sees the lists before the append, with 10 to 20 samples; a quit changes nothing; otherwise the corners are appended iff a board was found below 20; the calibration is running iff it was and had not finished, or was just launched |
| Calibration.Collector.Cycle | code/dev/get_calibration.py:81-121 | one loop pass: it stops iff the loop head stops or the second key is `q`, and then keeps the samples; otherwise the counter grows by the found board, capped at 20, and the corners are appended exactly then; the buffer is allocated from the first processed frame; `running` follows the finish and the launch; a calibration is launched iff the frame is processed, the key is `s`, none is running and the counter before the append is at least 10, and it gets the lists before the append, 10 to 20 samples and the buffer's (width, height); from a state that follows the launch schedule, a pass that does not stop launches exactly when `LaunchesAt` says and leaves the state the schedule gives for i + 1 captures |
| Calibration.Collector.Pass | code/dev/get_calibration.py:81-121 | one loop pass plus the record of its launch: from the state after i captures, the running flag, the sample lists and the number of recorded launches become those after i + 1 captures, or stay when the pass stops; every recorded job stays good for the buffer and a prefix of the image list |
| Calibration.Collector.Run | code/dev/get_calibration.py:81-129 | the counter ends as the number of boards found before the stop, capped at 20, and never decreases; the image list ends as the initial one followed by those boards' corners in order, cut at 20; the buffer is that of the first processed frame; one calibration is recorded for each capture before the stop that launches one (`Launches`), every launch got 10 to 20 samples and the buffer's (width, height), and its image list is a prefix of the final one; nothing runs after the join |

## Left out

- Vision library primitives are inputs, not models: marker detection, `solvePnP`, `cvtColor`, `findChessboardCorners`, `calibrateCamera`, the dictionary, the detector configuration (`aruco_detector`) and `generateImageMarker`.
- Floating point: `calculate_distance` (`np.linalg.norm` times 100), the `int(np.mean(...))` centers, the corner-0/corner-2 float centers of the letter and arrow scripts, `int(np.sqrt(...))`, scaling by `MARKER_SIZE` and `SQUARE_SIZE`, the float `OBJ_POINTS`, and the `astype(np.float32)` conversions. Centers are integer inputs, grids are in square units, and a label carries the two translation vectors instead of the distance text.
- Geometry.TruncHalf: models `int(s / 2)` as exact truncation. This assumes the float quotient is exact, which holds for sums below 2^53 in magnitude.
- FrameLoop.MaskKey: states Python's `& 0xFF` as the residue modulo 256 rather than through bit-vector operations.
- Threading: the calibration thread is the abstract `running` flag, cleared by an external "finished" input or by the final join. The lists are handed to the thread by reference and keep growing after launch; the model's job is a snapshot of them at launch.
- `calibrate_camera`'s body (the calibration call, `np.savez`, its success and exception messages) is a library call plus file output. Only the image size it computes is modelled.
- File I/O and paths: `exists`, `np.load`, `join`, `dirname`; file existence and the stored arrays are inputs.
- Camera setup (`VideoCapture`, `set`, the fatal exit when the device does not open), rendering (`line`, `putText`, `arrowedLine`, `drawChessboardCorners`, `imshow`), and `waitKey` polling; key codes are inputs. The capture stream is a finite sequence of captures.
- Printed status, warning and error messages are not modelled, except as the `ParamSource` and `SaveOutcome` values that choose them.
- `code/dev/generate_marker.py` (argument parsing, one library call and a file write) and `code/dev/show_calibration.py` (load and print) are not part of this model.
- The letter and arrow scripts repeat the distance script's loop head line for line (`code/example_02.py:66-84`, `code/example_03.py:53-71`). `FrameLoop` models that loop head once.
