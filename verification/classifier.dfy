/**
 * Frame accumulation and classification trigger of the camera screen
 * (app/index.tsx): the eight-frame window buffer, its write index, the
 * classification that runs each time the index wraps, the post-processing
 * of the scores, the label list and the gate that arms classification.
 *
 * The inference engine's `runSync` is a parameter: a total function from the
 * window's contents to the scores of the single output tensor. That tensor
 * is a typed array, so its entries are keyed "0", "1", ... in ascending
 * order and the key of entry k parses back to k; the model indexes scores by
 * position accordingly.
 */
module Classifier {
  import opened Options
  import Rotation

  /** Side of the square frame the resize plugin produces. */
  const FrameSide: nat := 224
  /** Colour channels per pixel (rgb). */
  const Channels: nat := 3
  /** Values per frame: 224 * 224 * 3. */
  const FrameLength: nat := 150528
  /** Frames per classification window. */
  const WindowFrames: nat := 8
  /** Values in the window buffer: 8 * 224 * 224 * 3. */
  const WindowLength: nat := 1204224
  /** Minimum score for a class to be published. */
  const Threshold: real := 0.4
  /** The class that means "no gesture". */
  const NoGesture: nat := 0

  // ---------------------------------------------------------------------------
  // Post-processing of one classification
  // ---------------------------------------------------------------------------

  /**
   * The entry kept by the `reduce` over the score entries: a later entry
   * replaces the running maximum only when its score is strictly greater.
   * The result is a maximal entry, and no earlier entry ties with it.
   */
  function ArgMax(scores: seq<real>): (k: nat)
    requires |scores| > 0
    ensures k < |scores|
    ensures forall j :: 0 <= j < |scores| ==> scores[j] <= scores[k]
    ensures forall j :: 0 <= j < k ==> scores[j] < scores[k]
  {
    if |scores| == 1 then 0
    else
      var best := ArgMax(scores[..|scores| - 1]);
      if scores[|scores| - 1] > scores[best] then |scores| - 1 else best
  }

  /**
   * The class index runInference passes on for display, if any: the arg-max
   * entry, provided its score exceeds the threshold and it is not the
   * no-gesture class.
   */
  function Decision(scores: seq<real>): (d: Option<nat>)
    requires |scores| > 0
    ensures d.Some? ==> d.value < |scores| && d.value != NoGesture && scores[d.value] > Threshold
    ensures d.Some? ==> (forall j :: 0 <= j < |scores| ==> scores[j] <= scores[d.value])
                        && (forall j :: 0 <= j < d.value ==> scores[j] < scores[d.value])
    ensures d.None? <==> (forall j :: 0 <= j < |scores| ==> scores[j] <= Threshold)
                         || (forall j :: 0 <= j < |scores| ==> scores[j] <= scores[NoGesture])
  {
    var k := ArgMax(scores);
    if scores[k] > Threshold && k != NoGesture then Some(k) else None
  }

  /** `labels[k]`: the label of class k, or undefined past the end of the list. */
  function LabelAt(labels: seq<string>, k: nat): (text: Option<string>)
    ensures text.Some? <==> k < |labels|
    ensures text.Some? ==> text.value == labels[k]
  {
    if k < |labels| then Some(labels[k]) else None
  }

  // ---------------------------------------------------------------------------
  // The label list: the labels file split on newlines
  // ---------------------------------------------------------------------------

  /** `content.split('\n')`: the lines of the labels file, in order. */
  function SplitLines(content: string): (lines: seq<string>)
    ensures |lines| >= 1
    ensures forall i :: 0 <= i < |lines| ==> '\n' !in lines[i]
    decreases |content|
  {
    if |content| == 0 then [""]
    else if content[0] == '\n' then [""] + SplitLines(content[1..])
    else
      var rest := SplitLines(content[1..]);
      [[content[0]] + rest[0]] + rest[1..]
  }

  /** The inverse of SplitLines: the lines joined with newlines. */
  function JoinLines(lines: seq<string>): (content: string)
    requires |lines| >= 1
    decreases |lines|
  {
    if |lines| == 1 then lines[0] else lines[0] + "\n" + JoinLines(lines[1..])
  }

  /** Splitting the labels file and joining the lines again gives back the file. */
  lemma {:induction false} JoinSplitLines(content: string)
    ensures JoinLines(SplitLines(content)) == content
    decreases |content|
  {
    if |content| == 0 {
    } else if content[0] == '\n' {
      JoinSplitLines(content[1..]);
      assert content == [content[0]] + content[1..];
    } else {
      JoinSplitLines(content[1..]);
      var rest := SplitLines(content[1..]);
      if |rest| == 1 {
        assert content == [content[0]] + rest[0];
      } else {
        assert JoinLines(rest) == rest[0] + "\n" + JoinLines(rest[1..]);
        assert ([[content[0]] + rest[0]] + rest[1..])[1..] == rest[1..];
        assert content == [content[0]] + (rest[0] + "\n" + JoinLines(rest[1..]));
      }
    }
  }

  /** A line without newlines splits to itself, and a newline after it starts the next line. */
  lemma {:induction false} SplitLineThen(line: string, tail: Option<string>)
    requires '\n' !in line
    ensures tail.None? ==> SplitLines(line) == [line]
    ensures tail.Some? ==> SplitLines(line + "\n" + tail.value) == [line] + SplitLines(tail.value)
    decreases |line|
  {
    if |line| > 0 {
      SplitLineThen(line[1..], tail);
      assert line == [line[0]] + line[1..];
      if tail.Some? {
        var text := line + "\n" + tail.value;
        assert text[0] == line[0] && text[1..] == line[1..] + "\n" + tail.value;
        var rest := SplitLines(text[1..]);
        assert rest == [line[1..]] + SplitLines(tail.value);
        assert SplitLines(text) == [[line[0]] + rest[0]] + rest[1..];
        assert rest[1..] == SplitLines(tail.value);
      }
    } else if tail.Some? {
      assert ("" + "\n" + tail.value)[1..] == tail.value;
    }
  }

  /**
   * Lines without newlines survive a trip through the labels file: joining
   * them and splitting the result gives the same lines back.
   */
  lemma {:induction false} SplitJoinLines(lines: seq<string>)
    requires |lines| >= 1
    requires forall i :: 0 <= i < |lines| ==> '\n' !in lines[i]
    ensures SplitLines(JoinLines(lines)) == lines
    decreases |lines|
  {
    if |lines| == 1 {
      SplitLineThen(lines[0], None);
    } else {
      SplitJoinLines(lines[1..]);
      SplitLineThen(lines[0], Some(JoinLines(lines[1..])));
      assert lines == [lines[0]] + lines[1..];
    }
  }

  /**
   * Publishing class k shows the k-th line of the labels file the labels
   * came from: for a file written as newline-free labels joined by
   * newlines, the label of class k is the k-th of them, and there is none
   * past the last.
   */
  lemma LabelOfClass(lines: seq<string>, k: nat)
    requires |lines| >= 1
    requires forall i :: 0 <= i < |lines| ==> '\n' !in lines[i]
    ensures k < |lines| ==> LabelAt(SplitLines(JoinLines(lines)), k) == Some(lines[k])
    ensures k >= |lines| ==> LabelAt(SplitLines(JoinLines(lines)), k) == None
  {
    SplitJoinLines(lines);
  }

  // ---------------------------------------------------------------------------
  // The classification gate
  // ---------------------------------------------------------------------------

  /** The effect that arms classification: picker hidden, a model and labels loaded, not loading. */
  function ClassificationArmed(pickerVisible: bool, modelLoaded: bool, labels: seq<string>, loading: bool): bool
  {
    !pickerVisible && modelLoaded && |labels| > 0 && !loading
  }

  /**
   * A label list read from any labels file, even an empty one, is non-empty,
   * so once a model is loaded, the picker is hidden and loading has finished,
   * classification is armed.
   */
  lemma LoadedLabelsArm(content: string)
    ensures ClassificationArmed(false, true, SplitLines(content), false)
  {
  }

  // ---------------------------------------------------------------------------
  // The write index and the classification schedule
  // ---------------------------------------------------------------------------

  /**
   * Write index and number of classifications after `frames` processed
   * frames, starting from a freshly allocated buffer: each frame advances
   * the index modulo 8 and a classification runs whenever it wraps to 0.
   */
  function Schedule(frames: nat): (state: (nat, nat))
  {
    if frames == 0 then (0, 0)
    else
      var (index, runs) := Schedule(frames - 1);
      var next := (index + 1) % WindowFrames;
      (next, if next == 0 then runs + 1 else runs)
  }

  /** After k processed frames the index is k mod 8 and k div 8 classifications have run. */
  lemma {:induction false} ScheduleClosedForm(frames: nat)
    ensures Schedule(frames) == (frames % WindowFrames, frames / WindowFrames)
  {
    if frames > 0 {
      ScheduleClosedForm(frames - 1);
    }
  }

  /** A window of zeros, as a fresh Float32Array holds. */
  function Zeros(n: nat): (z: seq<real>)
    ensures |z| == n && forall j :: 0 <= j < n ==> z[j] == 0.0
  {
    seq(n, _ => 0.0)
  }

  /** The window after a frame is written into slot `slot`: only that slot changes. */
  function WriteSlot(window: seq<real>, slot: nat, frame: seq<real>): (r: seq<real>)
    requires |window| == WindowLength && slot < WindowFrames && |frame| == FrameLength
    ensures |r| == WindowLength
    ensures forall j :: 0 <= j < slot * FrameLength ==> r[j] == window[j]
    ensures forall j :: 0 <= j < FrameLength ==> r[slot * FrameLength + j] == frame[j]
    ensures forall j :: (slot + 1) * FrameLength <= j < WindowLength ==> r[j] == window[j]
  {
    window[..slot * FrameLength] + frame + window[(slot + 1) * FrameLength..]
  }

  /** Entry `j` of a window after WriteSlot: from the frame inside the slot, unchanged elsewhere. */
  lemma WriteSlotAt(window: seq<real>, slot: nat, frame: seq<real>, j: nat)
    requires |window| == WindowLength && slot < WindowFrames && |frame| == FrameLength
    requires j < WindowLength
    ensures WriteSlot(window, slot, frame)[j]
            == if slot * FrameLength <= j < slot * FrameLength + FrameLength then frame[j - slot * FrameLength] else window[j]
  {
    var r := WriteSlot(window, slot, frame);
    if slot * FrameLength <= j < slot * FrameLength + FrameLength {
      var t := j - slot * FrameLength;
      assert r[slot * FrameLength + t] == frame[t];
    }
  }

  // ---------------------------------------------------------------------------
  // The frame processor's state
  // ---------------------------------------------------------------------------

  /**
   * The state the frame processor and runInference share: the global window
   * buffer and write index, the `runningInference` flag, the displayed
   * translation and the loaded labels. `processed` and `runs` count the
   * frames written and the classifications run since the buffer was
   * allocated.
   */
  class FrameSession {
    var frameBuffer: array?<real>
    var writeIndex: nat
    var runningInference: bool
    var translation: Option<string>
    var labels: seq<string>
    ghost var processed: nat
    ghost var runs: nat

    ghost predicate Valid()
      reads this
    {
      && !runningInference
      && (frameBuffer == null ==> processed == 0)
      && (frameBuffer != null ==> frameBuffer.Length == WindowLength)
      && (writeIndex, runs) == Schedule(processed)
    }

    /** The window's contents; before allocation, the zeros it will start with. */
    ghost function Window(): (w: seq<real>)
      reads this, frameBuffer
      requires Valid()
      ensures |w| == WindowLength
    {
      if frameBuffer == null then Zeros(WindowLength) else frameBuffer[..]
    }

    /** The screen's initial state: no buffer, no labels, an empty translation. */
    constructor ()
      ensures Valid() && frameBuffer == null && writeIndex == 0 && runs == 0
      ensures labels == [] && translation == Some("")
    {
      frameBuffer := null;
      writeIndex := 0;
      runningInference := false;
      translation := Some("");
      labels := [];
      processed := 0;
      runs := 0;
    }

    /** loadModel's last step: the labels file becomes the label list. */
    method LoadLabels(content: string)
      requires Valid()
      modifies this`labels
      ensures Valid() && labels == SplitLines(content) && |labels| >= 1
    {
      labels := SplitLines(content);
    }

    /**
     * runInference: raises the running flag, scores the whole window, and
     * displays the label of the decided class, if any; otherwise the
     * translation stays as it was. The flag is down again on return.
     */
    method RunInference(runSync: seq<real> -> seq<real>)
      requires Valid() && frameBuffer != null
      requires forall input :: |runSync(input)| > 0
      modifies this`runningInference, this`translation
      ensures Valid()
      ensures match Decision(runSync(Window()))
              case None => translation == old(translation)
              case Some(k) => translation == LabelAt(labels, k)
    {
      runningInference := true;
      var result := runSync(frameBuffer[..]);
      var maxIndex := ArgMax(result);
      if result[maxIndex] > Threshold && maxIndex != NoGesture {
        translation := LabelAt(labels, maxIndex);
      }
      runningInference := false;
    }

    /**
     * The work the frame-rate limiter lets through: rotate the resized
     * frame, copy it into the current slot, advance the index modulo 8 and
     * run a classification when the index wraps to 0.
     */
    method WriteFrame(resized: array<real>, runSync: seq<real> -> seq<real>) returns (inferred: bool)
      requires Valid() && frameBuffer != null
      requires resized.Length == FrameLength && resized != frameBuffer
      requires forall input :: |runSync(input)| > 0
      modifies this, frameBuffer
      ensures Valid() && frameBuffer == old(frameBuffer) && labels == old(labels)
      ensures processed == old(processed) + 1
      ensures writeIndex == (old(writeIndex) + 1) % WindowFrames
      ensures Window() == WriteSlot(old(Window()), old(writeIndex),
                                    Rotation.Rotated(old(resized[..]), FrameSide, FrameSide, Channels))
      ensures inferred <==> writeIndex == 0
      ensures !inferred ==> translation == old(translation)
      ensures inferred ==> match Decision(runSync(Window()))
                           case None => translation == old(translation)
                           case Some(k) => translation == LabelAt(labels, k)
    {
      var rotated := Rotation.RotateImage90Clockwise(resized, FrameSide, FrameSide, Channels);
      CopyFrame(frameBuffer, writeIndex, rotated);
      writeIndex := (writeIndex + 1) % WindowFrames;
      processed := processed + 1;
      inferred := writeIndex == 0;
      if inferred {
        runs := runs + 1;
        RunInference(runSync);
      }
    }

    /**
     * One call of the frame processor. When classification is off it does
     * nothing. Otherwise it allocates the zeroed window on first use, with
     * the index at 0; then, when the frame-rate limiter lets this frame
     * through (`due`), it does the work of WriteFrame.
     */
    method ProcessFrame(classificationOn: bool, due: bool, resized: array<real>, runSync: seq<real> -> seq<real>)
      returns (inferred: bool)
      requires Valid()
      requires resized.Length == FrameLength && resized != frameBuffer
      requires forall input :: |runSync(input)| > 0
      modifies this, frameBuffer
      ensures Valid() && labels == old(labels)
      ensures !classificationOn ==> frameBuffer == old(frameBuffer) && Window() == old(Window())
                                    && writeIndex == old(writeIndex) && processed == old(processed)
      ensures classificationOn ==> frameBuffer != null
      ensures classificationOn && old(frameBuffer) != null ==> frameBuffer == old(frameBuffer)
      ensures classificationOn && old(frameBuffer) == null ==> fresh(frameBuffer)
      ensures classificationOn && !due ==> Window() == old(Window()) && writeIndex == old(writeIndex)
                                           && processed == old(processed)
      ensures classificationOn && due ==>
                && processed == old(processed) + 1
                && writeIndex == (old(writeIndex) + 1) % WindowFrames
                && Window() == WriteSlot(old(Window()), old(writeIndex),
                                         Rotation.Rotated(old(resized[..]), FrameSide, FrameSide, Channels))
      ensures inferred <==> classificationOn && due && writeIndex == 0
      ensures !inferred ==> translation == old(translation)
      ensures inferred ==> match Decision(runSync(Window()))
                           case None => translation == old(translation)
                           case Some(k) => translation == LabelAt(labels, k)
    {
      inferred := false;
      if !classificationOn {
        return;
      }
      if frameBuffer == null {
        frameBuffer := new real[WindowLength](_ => 0.0);
        writeIndex := 0;
        assert frameBuffer[..] == Zeros(WindowLength);
      }
      if due {
        inferred := WriteFrame(resized, runSync);
      }
    }
  }

  /** The copy loop: frame values go, in order, into slot `slot` of the window buffer. */
  method CopyFrame(buffer: array<real>, slot: nat, frame: array<real>)
    requires buffer.Length == WindowLength && slot < WindowFrames
    requires frame.Length == FrameLength && frame != buffer
    modifies buffer
    ensures buffer[..] == WriteSlot(old(buffer[..]), slot, frame[..])
  {
    var offset := slot * FrameLength;
    var i := 0;
    while i < frame.Length
      invariant 0 <= i <= FrameLength
      invariant offset + FrameLength <= WindowLength
      invariant forall j :: 0 <= j < WindowLength ==>
                  buffer[j] == if offset <= j < offset + i then frame[j - offset] else old(buffer[j])
    {
      buffer[offset + i] := frame[i];
      i := i + 1;
    }
    ghost var written := WriteSlot(old(buffer[..]), slot, frame[..]);
    forall j | 0 <= j < WindowLength
      ensures buffer[j] == written[j]
    {
      WriteSlotAt(old(buffer[..]), slot, frame[..], j);
    }
    assert buffer[..] == written;
  }
}
