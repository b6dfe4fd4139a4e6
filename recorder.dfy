/** The sample recorder of machine-learning-client/src/record_webcam_samples.py:
    a loop over camera frames in which a letter key chooses the label, 'q'
    quits, and every other frame with a label chosen and a hand in view
    adds the hand's normalized landmarks to X and the label's index to y.
    Camera, window and file output are outside the model: the frames are an
    input sequence (running out of frames is a failed read) and the saved
    arrays are the method's results. */
module Recorder {
  import opened Common
  import opened JsonValue
  import opened Normalizer
  import AslDataset

  /** A detected hand: MediaPipe reports 21 landmarks. */
  type Hand = pts: seq<Point> | |pts| == NumLandmarks witness seq(NumLandmarks, _ => Origin)

  /** One pass of the loop: whether `cap.read()` succeeded, the first hand
      the detector found, if any, and the raw `cv2.waitKey(1)` value. */
  datatype Frame = Frame(readOk: bool, hand: Option<Hand>, key: int)

  /** The loop's variables: `current_letter`, `X` and `y`. */
  datatype Recording = Recording(current: Option<string>, xs: seq<seq<real>>, ys: seq<int>)

  datatype Step = Stop | Continue(next: Recording)

  const QuitKey: int := 'q' as int

  /** `cv2.waitKey(1) & 0xFF`: the low byte (Python's & on a negative
      value also keeps the low eight bits of its two's complement). */
  function KeyCode(raw: int): (k: int)
    ensures 0 <= k < 256
    ensures 0 <= raw < 256 ==> k == raw
  {
    raw % 256
  }

  predicate IsLetterKey(k: int) {
    'a' as int <= k <= 'z' as int || 'A' as int <= k <= 'Z' as int
  }

  /** `chr(key).upper()` for a letter key. */
  function UpperLetter(k: int): (s: string)
    requires IsLetterKey(k)
    ensures |s| == 1 && 'A' <= s[0] <= 'Z'
    ensures 'A' as int <= k <= 'Z' as int ==> s[0] as int == k
    ensures 'a' as int <= k <= 'z' as int ==> s[0] as int == k - 32
  {
    if 'a' as int <= k <= 'z' as int then [(k - 32) as char] else [k as char]
  }

  /** The label, when there is one, is a key of letter_to_index. */
  predicate LabelKnown(r: Recording, letterToIndex: map<string, int>) {
    r.current.Some? ==> r.current.value in letterToIndex
  }

  /** One pass of the `while True` loop. */
  function StepFrame(r: Recording, f: Frame, letterToIndex: map<string, int>, sqrt: real -> real): (s: Step)
    requires LabelKnown(r, letterToIndex) && IsSqrt(sqrt)
    ensures !f.readOk || KeyCode(f.key) == QuitKey ==> s == Stop
    ensures s.Continue? ==> LabelKnown(s.next, letterToIndex)
    ensures s.Continue? && IsLetterKey(KeyCode(f.key)) ==>
              s.next.xs == r.xs && s.next.ys == r.ys &&
              s.next.current == (if UpperLetter(KeyCode(f.key)) in letterToIndex
                                 then Some(UpperLetter(KeyCode(f.key))) else r.current)
    ensures s.Continue? && !IsLetterKey(KeyCode(f.key)) ==>
              s.next.current == r.current &&
              if r.current.Some? && f.hand.Some? then
                s.next.xs == r.xs + [Normalize(f.hand.value, sqrt)] &&
                s.next.ys == r.ys + [letterToIndex[r.current.value]]
              else s.next.xs == r.xs && s.next.ys == r.ys
  {
    if !f.readOk then Stop
    else
      var key := KeyCode(f.key);
      if key == QuitKey then Stop
      else if IsLetterKey(key) then
        var letter := UpperLetter(key);
        Continue(if letter in letterToIndex then r.(current := Some(letter)) else r)
      else if r.current.Some? && f.hand.Some? then
        Continue(r.(xs := r.xs + [Normalize(f.hand.value, sqrt)],
                    ys := r.ys + [letterToIndex[r.current.value]]))
      else Continue(r)
  }

  /** The loop from a given state over the remaining frames: samples are
      only appended, X and y grow together, by at most one per frame, and
      the label stays one of the map's letters. */
  function Run(r: Recording, frames: seq<Frame>, letterToIndex: map<string, int>, sqrt: real -> real): (e: Recording)
    requires LabelKnown(r, letterToIndex) && IsSqrt(sqrt)
    ensures LabelKnown(e, letterToIndex)
    ensures r.xs <= e.xs && r.ys <= e.ys
    ensures |e.xs| - |r.xs| == |e.ys| - |r.ys| <= |frames|
    decreases |frames|
  {
    if frames == [] then r
    else match StepFrame(r, frames[0], letterToIndex, sqrt)
      case Stop => r
      case Continue(next) => Run(next, frames[1..], letterToIndex, sqrt)
  }

  const Start := Recording(None, [], [])

  /** The loop of `main`: the X rows and y labels it collects. */
  method RecordSamples(frames: seq<Frame>, letterToIndex: map<string, int>, sqrt: real -> real)
    returns (xs: seq<seq<real>>, ys: seq<int>)
    requires IsSqrt(sqrt)
    ensures xs == Run(Start, frames, letterToIndex, sqrt).xs
    ensures ys == Run(Start, frames, letterToIndex, sqrt).ys
  {
    var current: Option<string> := None;
    xs, ys := [], [];
    var i := 0;
    while i < |frames|
      invariant 0 <= i <= |frames|
      invariant LabelKnown(Recording(current, xs, ys), letterToIndex)
      invariant Run(Recording(current, xs, ys), frames[i..], letterToIndex, sqrt) ==
                Run(Start, frames, letterToIndex, sqrt)
      decreases |frames| - i
    {
      var f := frames[i];
      if !f.readOk {
        return;
      }
      var key := KeyCode(f.key);
      if key == QuitKey {
        return;
      }
      if IsLetterKey(key) {
        var letter := UpperLetter(key);
        if letter in letterToIndex {
          current := Some(letter);
        }
        i := i + 1;
        continue;
      }
      if current.Some? && f.hand.Some? {
        xs := xs + [Normalize(f.hand.value, sqrt)];
        ys := ys + [letterToIndex[current.value]];
      }
      i := i + 1;
    }
  }

  // ---------------------------------------------------------------------
  // Properties of the loop

  /** What the loop keeps true: X and y have the same length, every X row
      is a 63-entry feature vector and every y entry is the index of a
      letter of the label map. */
  predicate Consistent(r: Recording, letterToIndex: map<string, int>) {
    |r.xs| == |r.ys| &&
    (forall i :: 0 <= i < |r.xs| ==> |r.xs[i]| == FeatureLength) &&
    (forall i :: 0 <= i < |r.ys| ==> r.ys[i] in letterToIndex.Values)
  }

  lemma {:induction false} RunConsistent(r: Recording, frames: seq<Frame>, letterToIndex: map<string, int>, sqrt: real -> real)
    requires LabelKnown(r, letterToIndex) && IsSqrt(sqrt)
    requires Consistent(r, letterToIndex)
    ensures Consistent(Run(r, frames, letterToIndex, sqrt), letterToIndex)
    decreases |frames|
  {
    if frames != [] {
      var s := StepFrame(r, frames[0], letterToIndex, sqrt);
      if s.Continue? {
        assert Consistent(s.next, letterToIndex);
        RunConsistent(s.next, frames[1..], letterToIndex, sqrt);
      }
    }
  }

  /** The arrays `main` saves: X as an n-by-63 array (`np.zeros((0, 63))`
      when nothing was recorded) and y with the same n. */
  function SavedShape(xs: seq<seq<real>>): (shape: (nat, nat))
    ensures xs == [] ==> shape == (0, FeatureLength)
  {
    if xs == [] then (0, FeatureLength) else (|xs|, |xs[0]|)
  }

  /** Whatever the frames, the saved X has one 63-entry row per y label. */
  lemma SavedArraysAgree(frames: seq<Frame>, letterToIndex: map<string, int>, sqrt: real -> real)
    requires IsSqrt(sqrt)
    ensures var e := Run(Start, frames, letterToIndex, sqrt);
      SavedShape(e.xs) == (|e.ys|, FeatureLength) &&
      forall i :: 0 <= i < |e.ys| ==> e.ys[i] in letterToIndex.Values
  {
    RunConsistent(Start, frames, letterToIndex, sqrt);
  }

  /** Lower-case 'q' always quits, so it can never choose a label;
      upper-case 'Q' chooses "Q" when the map has it. */
  lemma QuitBeforeLabel(r: Recording, f: Frame, letterToIndex: map<string, int>, sqrt: real -> real)
    requires LabelKnown(r, letterToIndex) && IsSqrt(sqrt)
    requires f.readOk
    ensures KeyCode(f.key) == 'q' as int ==> StepFrame(r, f, letterToIndex, sqrt) == Stop
    ensures KeyCode(f.key) == 'Q' as int && "Q" in letterToIndex ==>
              StepFrame(r, f, letterToIndex, sqrt) == Continue(r.(current := Some("Q")))
  {
    if KeyCode(f.key) == 'Q' as int {
      assert UpperLetter(KeyCode(f.key)) == "Q";
    }
  }

  /** A letter key chooses its upper-case letter: 'b' and 'B' both choose
      "B" when the map has it, and neither records a sample. */
  lemma LetterKeysUpperCase(r: Recording, f: Frame, letterToIndex: map<string, int>, sqrt: real -> real)
    requires LabelKnown(r, letterToIndex) && IsSqrt(sqrt)
    requires f.readOk && (KeyCode(f.key) == 'b' as int || KeyCode(f.key) == 'B' as int)
    requires "B" in letterToIndex
    ensures StepFrame(r, f, letterToIndex, sqrt) == Continue(r.(current := Some("B")))
  {
    assert UpperLetter(KeyCode(f.key)) == "B";
  }

  /** No label yet: nothing is recorded, whatever the frames hold, until a
      letter key of the map has been pressed. */
  lemma NoLabelNoSamples(r: Recording, frames: seq<Frame>, letterToIndex: map<string, int>, sqrt: real -> real)
    requires LabelKnown(r, letterToIndex) && IsSqrt(sqrt)
    requires r.current.None?
    requires forall i :: 0 <= i < |frames| ==>
      !(IsLetterKey(KeyCode(frames[i].key)) && UpperLetter(KeyCode(frames[i].key)) in letterToIndex)
    ensures Run(r, frames, letterToIndex, sqrt) == r
    decreases |frames|
  {
    if frames != [] {
      var s := StepFrame(r, frames[0], letterToIndex, sqrt);
      if s.Continue? {
        NoLabelNoSamples(s.next, frames[1..], letterToIndex, sqrt);
      }
    }
  }

  // ---------------------------------------------------------------------
  // The label map

  /** `load_letter_to_index` after reading the file: letters stay as they
      are and their indices become integers. The map has exactly the
      file's letters as keys, and a letter no later entry repeats maps to
      int() of its value. */
  function LoadLetterToIndex(entries: seq<(string, Json)>): (r: Option<map<string, int>>)
    ensures r.Some? <==> forall i :: 0 <= i < |entries| ==> AslDataset.PyInt(entries[i].1).Some?
    ensures r.Some? ==> r.value.Keys == set i | 0 <= i < |entries| :: entries[i].0
    ensures r.Some? ==> forall i :: 0 <= i < |entries| && AslDataset.LastWithKey(entries, AslDataset.KeepKey, i) ==>
              r.value[entries[i].0] == AslDataset.PyInt(entries[i].1).value
  {
    var r := AslDataset.Convert(entries, AslDataset.KeepKey, AslDataset.PyInt);
    if r.None? then r
    else
      AslDataset.ConvertContents(entries, AslDataset.KeepKey, AslDataset.PyInt);
      assert AslDataset.ConvertedKeys(entries, AslDataset.KeepKey) == set i | 0 <= i < |entries| :: entries[i].0;
      r
  }

  /** The file {"letter_to_index": {"A": 0, "B": 1}} gives A to 0 and B to 1. */
  lemma LoadLetterToIndexExample()
    ensures LoadLetterToIndex([("A", JNum(0.0)), ("B", JNum(1.0))]) == Some(map["A" := 0, "B" := 1])
  {
    var entries := [("A", JNum(0.0)), ("B", JNum(1.0))];
    assert AslDataset.PyInt(JNum(0.0)) == Some(0) && AslDataset.PyInt(JNum(1.0)) == Some(1);
    assert entries[..1] == [("A", JNum(0.0))] && entries[..1][..0] == [];
    assert AslDataset.Convert(entries[..1], AslDataset.KeepKey, AslDataset.PyInt) == Some(map["A" := 0]);
  }
}
