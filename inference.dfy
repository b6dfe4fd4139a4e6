/** The prediction service of machine-learning-client/src/api.py: the
    `/health` probe and the `/predict` route, which validates a JSON body of
    21 landmarks in a fixed order, normalizes them, asks the classifier for
    class probabilities and answers with the most probable letter.

    The network, the classifier (an MLP followed by softmax), the square
    root and numpy's string-to-float parser are the fields of `Service`.
    Reals hold no NaN: what the route answers once a null coordinate has
    become NaN is given by two more fields of `Service`. */
module InferenceApi {
  import opened Common
  import opened JsonValue
  import opened Normalizer

  /** An HTTP reply: a status code and a JSON body. An uncaught Python
      exception becomes Flask's 500 page, which carries no JSON (JNull). */
  datatype Reply = Reply(status: nat, body: Json)

  /** `nanIndex` is the index `probs.max` picks when the probabilities are
      NaN, and `nanConfidence` the JSON the reply carries for a NaN
      confidence (Python's encoder writes the token NaN). */
  datatype Service = Service(
    indexToLetter: map<int, string>,
    classify: seq<real> -> seq<real>,
    sqrt: real -> real,
    parseFloat: string -> Option<real>,
    nanIndex: int,
    nanConfidence: Json)

  /** Class probabilities: at least one class, each probability in [0, 1]. */
  predicate IsProbabilities(p: seq<real>) {
    |p| > 0 && forall i :: 0 <= i < |p| ==> 0.0 <= p[i] <= 1.0
  }

  /** What the service relies on: a true square root and a classifier whose
      softmax output is a probability vector for every feature vector. */
  ghost predicate WellFormed(svc: Service) {
    IsSqrt(svc.sqrt) && forall x :: IsProbabilities(svc.classify(x))
  }

  const InvalidBodyText := "Invalid or missing JSON body"
  const MissingPointsText := "Missing 'points' field in request body"
  const NotListText := "Expected 'points' to be a " + "list of length 21" + " (21 landmarks)"
  const ConvertText := "Could not convert 'points' to a float32 array"
  const ShapeText := "Expected 'points' shape (21, 3). "

  function ErrorReply(msg: string): Reply {
    Reply(400, JObj(map["error" := JStr(msg)]))
  }

  /** The "error" text of a reply, or "" when it has none. */
  function ErrorText(r: Reply): string {
    if r.body.JObj? && "error" in r.body.fields && r.body.fields["error"].JStr?
    then r.body.fields["error"].s else ""
  }

  /** GET /health. */
  function Health(): (r: Reply)
    ensures r.status == 200
    ensures r.body.JObj? && Get(r.body.fields, "status") == JStr("ok")
  {
    Reply(200, JObj(map["status" := JStr("ok")]))
  }

  // ---------------------------------------------------------------------
  // numpy.asarray(points, dtype=float32)

  /** The shape numpy infers for a nested list: a scalar has shape [], a list
      prepends its length to the common shape of its items, and items of
      differing shapes make the list ragged (None, a ValueError). */
  function ShapeOf(j: Json): (s: Option<seq<nat>>)
    ensures !j.JArr? ==> s == Some([])
    ensures j.JArr? && s.Some? ==> |s.value| >= 1 && s.value[0] == |j.items|
    ensures j.JArr? && s.Some? && |j.items| > 0 ==>
              forall i :: 0 <= i < |j.items| ==> ShapeOf(j.items[i]) == Some(s.value[1..])
    decreases j
  {
    match j
    case JArr(items) =>
      if |items| == 0 then Some([0])
      else
        var shapes := seq(|items|, i requires 0 <= i < |items| => ShapeOf(items[i]));
        if shapes[0].Some? && forall i :: 0 <= i < |items| ==> shapes[i] == shapes[0]
        then
          assert ([|items|] + shapes[0].value)[1..] == shapes[0].value;
          assert forall i :: 0 <= i < |items| ==> ShapeOf(items[i]) == shapes[i] == shapes[0];
          Some([|items|] + shapes[0].value)
        else None
    case _ => Some([])
  }

  function Concat(parts: seq<seq<Json>>): (r: seq<Json>)
    ensures parts == [] ==> r == []
  {
    if parts == [] then [] else parts[0] + Concat(parts[1..])
  }

  /** The scalars of a nested list in row-major order. */
  function Leaves(j: Json): seq<Json>
    decreases j
  {
    match j
    case JArr(items) => Concat(seq(|items|, i requires 0 <= i < |items| => Leaves(items[i])))
    case _ => [j]
  }

  /** How one scalar converts to float32: numbers and booleans convert,
      strings go through the parser (ValueError when it fails), None
      becomes NaN, and a dictionary raises TypeError. */
  datatype Scalar = Float(v: real) | NaN | ValueFailure | TypeFailure
  {
    /** numpy stores the scalar, as a number or as NaN. */
    predicate Converts() {
      Float? || NaN?
    }
  }

  function ToFloat(j: Json, parseFloat: string -> Option<real>): (r: Scalar)
    ensures r.Float? <==> j.JNum? || j.JBool? || (j.JStr? && parseFloat(j.s).Some?)
    ensures r == NaN <==> j.JNull?
    ensures r == ValueFailure <==> j.JStr? && parseFloat(j.s).None?
    ensures j.JNum? ==> r == Float(j.n)
  {
    match j
    case JNum(n) => Float(n)
    case JBool(b) => Float(if b then 1.0 else 0.0)
    case JStr(s) => if parseFloat(s).Some? then Float(parseFloat(s).value) else ValueFailure
    case JNull => NaN
    case _ => TypeFailure
  }

  /** The outcome of the conversion: an array of numbers (its shape and its
      values in row-major order), an array holding NaN (its shape only: a
      NaN reaches every output of the classifier), a ValueError (caught,
      400) or a TypeError (not caught, 500). */
  datatype Conversion = Array(shape: seq<nat>, values: seq<real>) | NaNArray(shape: seq<nat>) | ValueError | TypeError

  /** Converts the scalars in order; the first one that fails decides. */
  function ConvertAll(leaves: seq<Json>, parseFloat: string -> Option<real>): (r: Conversion)
    ensures r.Array? ==> |r.values| == |leaves|
    ensures r.Array? <==> forall i :: 0 <= i < |leaves| ==> ToFloat(leaves[i], parseFloat).Float?
    ensures r.Array? ==> forall i :: 0 <= i < |leaves| ==> r.values[i] == ToFloat(leaves[i], parseFloat).v
    ensures r.Array? || r.NaNArray? <==> forall i :: 0 <= i < |leaves| ==> ToFloat(leaves[i], parseFloat).Converts()
  {
    if leaves == [] then Array([], [])
    else
      assert forall i :: 1 <= i < |leaves| ==> leaves[i] == leaves[1..][i - 1];
      match ToFloat(leaves[0], parseFloat)
      case ValueFailure => ValueError
      case TypeFailure => TypeError
      case NaN =>
        var rest := ConvertAll(leaves[1..], parseFloat);
        if rest.Array? || rest.NaNArray? then NaNArray([]) else rest
      case Float(v) =>
        var rest := ConvertAll(leaves[1..], parseFloat);
        if rest.Array? then Array([], [v] + rest.values) else rest
  }

  /** `np.asarray(points, dtype=np.float32)`: a ragged list is a ValueError
      before any scalar is converted; a null scalar makes the array hold
      NaN. */
  function AsArray(points: Json, parseFloat: string -> Option<real>): (c: Conversion)
    ensures ShapeOf(points).None? ==> c == ValueError
    ensures c.Array? <==> (ShapeOf(points).Some? &&
              forall i :: 0 <= i < |Leaves(points)| ==> ToFloat(Leaves(points)[i], parseFloat).Float?)
    ensures c.Array? ==> (Some(c.shape) == ShapeOf(points) && |c.values| == |Leaves(points)| &&
              forall i :: 0 <= i < |c.values| ==> c.values[i] == ToFloat(Leaves(points)[i], parseFloat).v)
    ensures c.Array? || c.NaNArray? <==> (ShapeOf(points).Some? &&
              forall i :: 0 <= i < |Leaves(points)| ==> ToFloat(Leaves(points)[i], parseFloat).Converts())
    ensures c.NaNArray? ==> (Some(c.shape) == ShapeOf(points) &&
              exists i :: 0 <= i < |Leaves(points)| && Leaves(points)[i].JNull?)
  {
    match ShapeOf(points)
    case None => ValueError
    case Some(shape) =>
      var c := ConvertAll(Leaves(points), parseFloat);
      if c.Array? then Array(shape, c.values)
      else if c.NaNArray? then NaNArray(shape)
      else c
  }

  /** Python's repr of a list of non-negative integers: "[21, 2]". */
  function ShapeRepr(shape: seq<nat>): string {
    "[" + JoinNats(shape) + "]"
  }

  function JoinNats(xs: seq<nat>): string {
    if xs == [] then ""
    else if |xs| == 1 then NatToString(xs[0])
    else NatToString(xs[0]) + ", " + JoinNats(xs[1..])
  }

  /** The 21 landmark rows of a (21, 3) array given in row-major order. */
  function Rows(values: seq<real>): (pts: seq<Point>)
    requires |values| == FeatureLength
    ensures |pts| == NumLandmarks
  {
    seq(NumLandmarks, i requires 0 <= i < NumLandmarks => Point(values[3 * i], values[3 * i + 1], values[3 * i + 2]))
  }

  // ---------------------------------------------------------------------
  // Arg-max and the label lookup

  /** `probs.max(dim=1)`'s index: the first index of a largest probability
      (`ArgMaxIsFirstMax` states that it is). */
  function ArgMax(p: seq<real>): (k: nat)
    requires |p| > 0
    ensures k < |p|
    decreases |p|
  {
    if |p| == 1 then 0
    else
      var k := ArgMax(p[..|p| - 1]);
      if p[|p| - 1] > p[k] then |p| - 1 else k
  }

  /** `INDEX_TO_LETTER.get(pred_idx, "?")`. */
  function LetterFor(indexToLetter: map<int, string>, k: int): (letter: string)
    ensures k in indexToLetter ==> letter == indexToLetter[k]
    ensures k !in indexToLetter ==> letter == "?"
  {
    if k in indexToLetter then indexToLetter[k] else "?"
  }

  function AnswerReply(letter: string, confidence: real): Reply {
    Reply(200, JObj(map["letter" := JStr(letter), "confidence" := JNum(confidence)]))
  }

  /** The answer for a (21, 3) array holding NaN: normalize_landmarks keeps
      the NaN (`max_dist > 0` is false for NaN), the classifier's first
      layer spreads it to every logit, and the reply carries the letter of
      the index `probs.max` picks and a NaN confidence. */
  function NaNAnswer(svc: Service): (r: Reply)
    ensures r.status == 200
    ensures r.body.JObj? && Get(r.body.fields, "letter") == JStr(LetterFor(svc.indexToLetter, svc.nanIndex))
  {
    Reply(200, JObj(map["letter" := JStr(LetterFor(svc.indexToLetter, svc.nanIndex)), "confidence" := svc.nanConfidence]))
  }

  function ShapeReply(shape: seq<nat>): Reply {
    ErrorReply(ShapeText + "Got " + ShapeRepr(shape) + " instead.")
  }

  /** Normalize, classify and answer for a (21, 3) array. */
  function Answer(svc: Service, values: seq<real>): Reply
    requires |values| == FeatureLength
    requires WellFormed(svc)
  {
    var feats := Normalize(Rows(values), svc.sqrt);
    var probs := svc.classify(feats);
    var k := ArgMax(probs);
    AnswerReply(LetterFor(svc.indexToLetter, k), probs[k])
  }

  /** POST /predict. `body` is Flask's `get_json(silent=True)`: None when the
      body is absent or is not JSON. */
  function Predict(svc: Service, body: Option<Json>): (r: Reply)
    requires WellFormed(svc)
    ensures r.status in {200, 400, 500}
  {
    if body.None? || body.value.JNull? then ErrorReply(InvalidBodyText)
    else if !body.value.JObj? then Reply(500, JNull)   // `.get` on a non-dict: AttributeError
    else
      var points := Get(body.value.fields, "points");
      if points.JNull? then ErrorReply(MissingPointsText)
      else if !points.JArr? || |points.items| != NumLandmarks then ErrorReply(NotListText)
      else
        match AsArray(points, svc.parseFloat)
        case ValueError => ErrorReply(ConvertText)
        case TypeError => Reply(500, JNull)
        case NaNArray(shape) =>
          if shape != [NumLandmarks, 3] then ShapeReply(shape) else NaNAnswer(svc)
        case Array(shape, values) =>
          if shape != [NumLandmarks, 3] then ShapeReply(shape)
          else
            assert |values| == FeatureLength by { ArrayValuesCount(points, svc.parseFloat); }
            Answer(svc, values)
  }

  // ---------------------------------------------------------------------
  // A reference definition of a valid request

  /** A scalar numpy converts to float32. */
  predicate Convertible(j: Json, parseFloat: string -> Option<real>) {
    ToFloat(j, parseFloat).Float?
  }

  /** One landmark: a list of exactly three convertible scalars. */
  predicate ValidRow(row: Json, parseFloat: string -> Option<real>) {
    row.JArr? && |row.items| == 3 &&
    forall c :: 0 <= c < 3 ==> !row.items[c].JArr? && Convertible(row.items[c], parseFloat)
  }

  /** A body whose landmarks are all numbers: an object whose "points" is
      a list of 21 valid rows. */
  predicate ValidBody(body: Option<Json>, parseFloat: string -> Option<real>) {
    body.Some? && body.value.JObj? && "points" in body.value.fields &&
    var points := body.value.fields["points"];
    points.JArr? && |points.items| == NumLandmarks &&
    forall i :: 0 <= i < NumLandmarks ==> ValidRow(points.items[i], parseFloat)
  }

  /** One landmark numpy reads: three scalars, each convertible or null. */
  predicate AcceptedRow(row: Json, parseFloat: string -> Option<real>) {
    row.JArr? && |row.items| == 3 &&
    forall c :: 0 <= c < 3 ==> !row.items[c].JArr? && ToFloat(row.items[c], parseFloat).Converts()
  }

  /** A body `predict` answers: an object whose "points" is a list of 21
      rows numpy reads. */
  predicate AcceptedBody(body: Option<Json>, parseFloat: string -> Option<real>) {
    body.Some? && body.value.JObj? && "points" in body.value.fields &&
    var points := body.value.fields["points"];
    points.JArr? && |points.items| == NumLandmarks &&
    forall i :: 0 <= i < NumLandmarks ==> AcceptedRow(points.items[i], parseFloat)
  }

  /** 21 lists of three scalars each. */
  predicate RowsOfThree(points: Json) {
    points.JArr? && |points.items| == NumLandmarks &&
    forall i :: 0 <= i < NumLandmarks ==>
      points.items[i].JArr? && |points.items[i].items| == 3 &&
      forall c :: 0 <= c < 3 ==> !points.items[i].items[c].JArr?
  }

  // ---------------------------------------------------------------------
  // Lemmas about the conversion

  lemma {:induction false} ConcatLength(parts: seq<seq<Json>>, n: nat)
    requires forall i :: 0 <= i < |parts| ==> |parts[i]| == n
    ensures |Concat(parts)| == n * |parts|
    decreases |parts|
  {
    if parts != [] {
      ConcatLength(parts[1..], n);
    }
  }

  /** The number of scalars of an array is the product of its shape. */
  function Product(shape: seq<nat>): nat {
    if shape == [] then 1 else shape[0] * Product(shape[1..])
  }

  lemma {:induction false} LeavesCount(j: Json)
    requires ShapeOf(j).Some?
    ensures |Leaves(j)| == Product(ShapeOf(j).value)
    decreases j
  {
    match j
    case JArr(items) =>
      if |items| > 0 {
        var shapes := seq(|items|, i requires 0 <= i < |items| => ShapeOf(items[i]));
        assert forall i :: 0 <= i < |items| ==> shapes[i] == shapes[0];
        var s := ShapeOf(items[0]).value;
        var parts := seq(|items|, i requires 0 <= i < |items| => Leaves(items[i]));
        forall i | 0 <= i < |items| ensures |parts[i]| == Product(s) {
          assert ShapeOf(items[i]) == shapes[i];
          LeavesCount(items[i]);
        }
        ConcatLength(parts, Product(s));
        assert Leaves(j) == Concat(parts);
        var full := [|items|] + s;
        assert ShapeOf(j).value == full;
        assert full[1..] == s;
        assert Product(full) == |items| * Product(s);
      }
    case _ =>
  }

  lemma ArrayValuesCount(points: Json, parseFloat: string -> Option<real>)
    requires AsArray(points, parseFloat).Array?
    requires AsArray(points, parseFloat).shape == [NumLandmarks, 3]
    ensures |AsArray(points, parseFloat).values| == FeatureLength
  {
    LeavesCount(points);
    assert Product([3]) == 3;
  }

  lemma {:induction false} ConcatMembers(parts: seq<seq<Json>>, x: Json)
    ensures x in Concat(parts) <==> exists i :: 0 <= i < |parts| && x in parts[i]
    decreases |parts|
  {
    if parts != [] {
      ConcatMembers(parts[1..], x);
      if x in Concat(parts[1..]) {
        var i :| 0 <= i < |parts[1..]| && x in parts[1..][i];
        assert x in parts[i + 1];
      }
      if exists i :: 0 <= i < |parts| && x in parts[i] {
        var i :| 0 <= i < |parts| && x in parts[i];
        if i > 0 {
          assert x in parts[1..][i - 1];
        }
      }
    }
  }

  /** Entry c of part i sits at position n*i + c when every part has n entries. */
  lemma {:induction false} ConcatIndex(parts: seq<seq<Json>>, n: nat, i: nat, c: nat)
    requires forall k :: 0 <= k < |parts| ==> |parts[k]| == n
    requires i < |parts| && c < n
    ensures n * i + c < |Concat(parts)|
    ensures Concat(parts)[n * i + c] == parts[i][c]
    decreases i
  {
    ConcatLength(parts, n);
    if i > 0 {
      ConcatIndex(parts[1..], n, i - 1, c);
      assert n * i + c == n + (n * (i - 1) + c);
    }
  }

  // ---------------------------------------------------------------------
  // The arg-max

  /** ArgMax picks a largest probability, and no earlier index has one. */
  lemma {:induction false} ArgMaxIsFirstMax(p: seq<real>)
    requires |p| > 0
    ensures forall i :: 0 <= i < |p| ==> p[i] <= p[ArgMax(p)]
    ensures forall i :: 0 <= i < ArgMax(p) ==> p[i] < p[ArgMax(p)]
    decreases |p|
  {
    if |p| > 1 {
      var init := p[..|p| - 1];
      ArgMaxIsFirstMax(init);
      assert forall i :: 0 <= i < |p| - 1 ==> init[i] == p[i];
    }
  }

  // ---------------------------------------------------------------------
  // Shapes of valid and invalid point lists

  /** Only a scalar has the empty shape. */
  lemma ScalarShape(x: Json)
    ensures ShapeOf(x) == Some([]) <==> !x.JArr?
  {
  }

  /** A non-empty list whose items share one shape. */
  lemma UniformShape(items: seq<Json>, s: seq<nat>)
    requires |items| > 0
    requires forall i :: 0 <= i < |items| ==> ShapeOf(items[i]) == Some(s)
    ensures ShapeOf(JArr(items)) == Some([|items|] + s)
  {
    var shapes := seq(|items|, i requires 0 <= i < |items| => ShapeOf(items[i]));
    assert forall i :: 0 <= i < |items| ==> shapes[i] == Some(s);
  }

  /** A non-empty list with a shape: every item has the shape of the first,
      and the list's shape is its length followed by that shape. */
  lemma ShapeItems(items: seq<Json>)
    requires |items| > 0 && ShapeOf(JArr(items)).Some?
    ensures ShapeOf(items[0]).Some?
    ensures ShapeOf(JArr(items)).value == [|items|] + ShapeOf(items[0]).value
    ensures forall i :: 0 <= i < |items| ==> ShapeOf(items[i]) == ShapeOf(items[0])
  {
    var shapes := seq(|items|, i requires 0 <= i < |items| => ShapeOf(items[i]));
    assert forall i :: 0 <= i < |items| ==> shapes[i] == ShapeOf(items[i]);
  }

  /** The shape of 21 lists of three scalars is [21, 3]. */
  lemma ValidShape(points: Json)
    requires RowsOfThree(points)
    ensures ShapeOf(points) == Some([NumLandmarks, 3])
  {
    var items := points.items;
    forall i | 0 <= i < NumLandmarks ensures ShapeOf(items[i]) == Some([3]) {
      var row := items[i].items;
      forall c | 0 <= c < 3 ensures ShapeOf(row[c]) == Some([]) {
        ScalarShape(row[c]);
      }
      UniformShape(row, []);
      assert items[i] == JArr(row) && [3] + [] == [3];
    }
    UniformShape(items, [3]);
    assert points == JArr(items) && [NumLandmarks] + [3] == [NumLandmarks, 3];
  }

  /** A list of 21 items whose shape is [21, 3] is a list of 21 lists of
      three scalars. */
  lemma ShapeRows(points: Json)
    requires points.JArr? && |points.items| == NumLandmarks
    requires ShapeOf(points) == Some([NumLandmarks, 3])
    ensures forall i :: 0 <= i < NumLandmarks ==>
      points.items[i].JArr? && |points.items[i].items| == 3 &&
      forall c :: 0 <= c < 3 ==> !points.items[i].items[c].JArr?
  {
    var items := points.items;
    assert points == JArr(items);
    ShapeItems(items);
    assert ShapeOf(items[0]).value == ([NumLandmarks] + ShapeOf(items[0]).value)[1..] == [3];
    forall i | 0 <= i < NumLandmarks
      ensures items[i].JArr? && |items[i].items| == 3
      ensures forall c :: 0 <= c < 3 ==> !items[i].items[c].JArr?
    {
      assert ShapeOf(items[i]) == Some([3]);
      ScalarShape(items[i]);
      var row := items[i].items;
      assert items[i] == JArr(row);
      ShapeItems(row);
      var rest := ShapeOf(row[0]).value;
      assert [|row|] + rest == [3];
      assert |[|row|] + rest| == 1 + |rest|;
      assert ([|row|] + rest)[0] == |row|;
      assert |row| == 3 && rest == [];
      forall c | 0 <= c < 3 ensures !row[c].JArr? {
        ScalarShape(row[c]);
      }
    }
  }

  /** The per-row leaves of a list of rows of scalars. */
  function RowLeaves(points: Json): seq<seq<Json>>
    requires points.JArr?
  {
    seq(|points.items|, i requires 0 <= i < |points.items| => Leaves(points.items[i]))
  }

  /** A row of three scalars has exactly those three as its leaves. */
  lemma ScalarRowLeaves(row: Json)
    requires row.JArr? && |row.items| == 3
    requires forall c :: 0 <= c < 3 ==> !row.items[c].JArr?
    ensures Leaves(row) == row.items
  {
    var r := row.items;
    var parts := seq(|r|, c requires 0 <= c < |r| => Leaves(r[c]));
    assert parts == [[r[0]], [r[1]], [r[2]]];
    assert Concat(parts) == [r[0]] + Concat(parts[1..]);
    assert Concat(parts[1..]) == [r[1]] + Concat(parts[2..]);
    assert Concat(parts[2..]) == [r[2]] + Concat(parts[3..]);
    assert parts[3..] == [];
  }

  /** The landmark a valid row describes. */
  function RowPoint(row: Json, parseFloat: string -> Option<real>): Point
    requires ValidRow(row, parseFloat)
  {
    Point(ToFloat(row.items[0], parseFloat).v, ToFloat(row.items[1], parseFloat).v,
          ToFloat(row.items[2], parseFloat).v)
  }

  /** The landmarks a valid list of points describes, read row by row. */
  function Landmarks(points: Json, parseFloat: string -> Option<real>): (pts: seq<Point>)
    requires points.JArr? && |points.items| == NumLandmarks
    requires forall i :: 0 <= i < NumLandmarks ==> ValidRow(points.items[i], parseFloat)
    ensures |pts| == NumLandmarks
  {
    seq(NumLandmarks, i requires 0 <= i < NumLandmarks => RowPoint(points.items[i], parseFloat))
  }

  /** The leaves of 21 lists of three scalars are those 63 scalars, row by
      row. */
  lemma LeavesLayout(points: Json)
    requires RowsOfThree(points)
    ensures |Leaves(points)| == FeatureLength
    ensures forall i, c :: 0 <= i < NumLandmarks && 0 <= c < 3 ==>
      Leaves(points)[3 * i + c] == points.items[i].items[c]
    ensures forall k :: 0 <= k < FeatureLength ==>
      Leaves(points)[k] == points.items[k / 3].items[k % 3]
  {
    var items := points.items;
    var parts := RowLeaves(points);
    forall i | 0 <= i < NumLandmarks ensures parts[i] == items[i].items {
      ScalarRowLeaves(items[i]);
    }
    assert Leaves(points) == Concat(parts);
    ConcatLength(parts, 3);
    forall i, c | 0 <= i < NumLandmarks && 0 <= c < 3
      ensures Leaves(points)[3 * i + c] == items[i].items[c]
    {
      ConcatIndex(parts, 3, i, c);
    }
    forall k | 0 <= k < FeatureLength
      ensures Leaves(points)[k] == items[k / 3].items[k % 3]
    {
      var i, c := k / 3, k % 3;
      assert 3 * i + c == k;
      ConcatIndex(parts, 3, i, c);
    }
  }

  /** A valid list of points converts to a (21, 3) array whose rows are the
      landmarks of the list. */
  lemma ValidConverts(points: Json, parseFloat: string -> Option<real>)
    requires points.JArr? && |points.items| == NumLandmarks
    requires forall i :: 0 <= i < NumLandmarks ==> ValidRow(points.items[i], parseFloat)
    ensures AsArray(points, parseFloat).Array?
    ensures AsArray(points, parseFloat).shape == [NumLandmarks, 3]
    ensures |AsArray(points, parseFloat).values| == FeatureLength
    ensures Rows(AsArray(points, parseFloat).values) == Landmarks(points, parseFloat)
  {
    assert RowsOfThree(points);
    ValidShape(points);
    LeavesLayout(points);
    var leaves := Leaves(points);
    forall k | 0 <= k < |leaves| ensures ToFloat(leaves[k], parseFloat).Float? {
      assert ValidRow(points.items[k / 3], parseFloat);
    }
    var c := AsArray(points, parseFloat);
    assert c.Array?;
    var values := c.values;
    forall i | 0 <= i < NumLandmarks
      ensures Rows(values)[i] == Landmarks(points, parseFloat)[i]
    {
      var row := points.items[i];
      assert values[3 * i] == ToFloat(leaves[3 * i], parseFloat).v;
      assert values[3 * i + 1] == ToFloat(leaves[3 * i + 1], parseFloat).v;
      assert values[3 * i + 2] == ToFloat(leaves[3 * i + 2], parseFloat).v;
      assert leaves[3 * i] == row.items[0];
      assert leaves[3 * i + 1] == row.items[1];
      assert leaves[3 * i + 2] == row.items[2];
    }
  }

  /** A list of 21 rows numpy reads converts to a (21, 3) array, of
      numbers or holding NaN. */
  lemma AcceptedConverts(points: Json, parseFloat: string -> Option<real>)
    requires points.JArr? && |points.items| == NumLandmarks
    requires forall i :: 0 <= i < NumLandmarks ==> AcceptedRow(points.items[i], parseFloat)
    ensures AsArray(points, parseFloat).Array? || AsArray(points, parseFloat).NaNArray?
    ensures AsArray(points, parseFloat).shape == [NumLandmarks, 3]
  {
    assert RowsOfThree(points);
    ValidShape(points);
    LeavesLayout(points);
    var leaves := Leaves(points);
    forall k | 0 <= k < |leaves| ensures ToFloat(leaves[k], parseFloat).Converts() {
      assert AcceptedRow(points.items[k / 3], parseFloat);
    }
  }

  /** A list of 21 items that converts to a (21, 3) array, of numbers or
      holding NaN, is a list of 21 rows numpy reads. */
  lemma ConvertsAccepted(points: Json, parseFloat: string -> Option<real>)
    requires points.JArr? && |points.items| == NumLandmarks
    requires AsArray(points, parseFloat).Array? || AsArray(points, parseFloat).NaNArray?
    requires AsArray(points, parseFloat).shape == [NumLandmarks, 3]
    ensures forall i :: 0 <= i < NumLandmarks ==> AcceptedRow(points.items[i], parseFloat)
  {
    ShapeRows(points);
    LeavesLayout(points);
    forall i | 0 <= i < NumLandmarks ensures AcceptedRow(points.items[i], parseFloat) {
      forall c | 0 <= c < 3 ensures ToFloat(points.items[i].items[c], parseFloat).Converts() {
        assert Leaves(points)[3 * i + c] == points.items[i].items[c];
      }
    }
  }

  /** A list of 21 items that converts to a (21, 3) array is a list of 21
      valid rows. */
  lemma ConvertsValid(points: Json, parseFloat: string -> Option<real>)
    requires points.JArr? && |points.items| == NumLandmarks
    requires AsArray(points, parseFloat).Array?
    requires AsArray(points, parseFloat).shape == [NumLandmarks, 3]
    ensures forall i :: 0 <= i < NumLandmarks ==> ValidRow(points.items[i], parseFloat)
  {
    ShapeRows(points);
    var items := points.items;
    var parts := RowLeaves(points);
    forall i | 0 <= i < NumLandmarks ensures parts[i] == items[i].items {
      ScalarRowLeaves(items[i]);
    }
    assert Leaves(points) == Concat(parts);
    var leaves := Leaves(points);
    forall i, c | 0 <= i < NumLandmarks && 0 <= c < 3
      ensures Convertible(items[i].items[c], parseFloat)
    {
      ConcatIndex(parts, 3, i, c);
    }
  }

  // ---------------------------------------------------------------------
  // The checks of `predict`, in order

  /** An absent or non-JSON body is refused first. */
  lemma NoBodyRefused(svc: Service, body: Option<Json>)
    requires WellFormed(svc)
    requires body.None? || body.value.JNull?
    ensures Predict(svc, body).status == 400
    ensures IsSubstring("Invalid or missing JSON body", ErrorText(Predict(svc, body)))
  {
    SubstringAt(InvalidBodyText, InvalidBodyText, 0);
  }

  /** An object without "points", or with "points": null, comes next. */
  lemma MissingPointsRefused(svc: Service, fields: map<string, Json>)
    requires WellFormed(svc)
    requires "points" !in fields || fields["points"].JNull?
    ensures Predict(svc, Some(JObj(fields))).status == 400
    ensures IsSubstring("Missing 'points' field", ErrorText(Predict(svc, Some(JObj(fields)))))
  {
    SubstringAt("Missing 'points' field", MissingPointsText, 0);
  }

  /** Then anything but a list of exactly 21 items. */
  lemma NotAListOf21Refused(svc: Service, fields: map<string, Json>)
    requires WellFormed(svc)
    requires "points" in fields && !fields["points"].JNull?
    requires !fields["points"].JArr? || |fields["points"].items| != NumLandmarks
    ensures Predict(svc, Some(JObj(fields))).status == 400
    ensures IsSubstring("list of length 21", ErrorText(Predict(svc, Some(JObj(fields)))))
  {
    SubstringInside("Expected 'points' to be a ", "list of length 21", " (21 landmarks)");
  }

  /** Then a list numpy cannot convert: ragged, or holding a string the
      parser rejects before any dictionary. */
  lemma UnconvertibleRefused(svc: Service, fields: map<string, Json>)
    requires WellFormed(svc)
    requires "points" in fields && fields["points"].JArr? && |fields["points"].items| == NumLandmarks
    requires AsArray(fields["points"], svc.parseFloat).ValueError?
    ensures Predict(svc, Some(JObj(fields))).status == 400
    ensures IsSubstring("Could not convert 'points' to a float32 array", ErrorText(Predict(svc, Some(JObj(fields)))))
  {
    SubstringAt(ConvertText, ConvertText, 0);
  }

  /** Then a convertible list, NaN included, whose shape is not (21, 3). */
  lemma WrongShapeRefused(svc: Service, fields: map<string, Json>)
    requires WellFormed(svc)
    requires "points" in fields && fields["points"].JArr? && |fields["points"].items| == NumLandmarks
    requires AsArray(fields["points"], svc.parseFloat).Array? || AsArray(fields["points"], svc.parseFloat).NaNArray?
    requires AsArray(fields["points"], svc.parseFloat).shape != [NumLandmarks, 3]
    ensures Predict(svc, Some(JObj(fields))).status == 400
    ensures IsSubstring("Expected 'points' shape (21, 3)", ErrorText(Predict(svc, Some(JObj(fields)))))
  {
    var shape := AsArray(fields["points"], svc.parseFloat).shape;
    var msg := ShapeText + "Got " + ShapeRepr(shape) + " instead.";
    assert msg[..31] == "Expected 'points' shape (21, 3)";
    SubstringAt("Expected 'points' shape (21, 3)", msg, 0);
  }

  /** `predict` answers 200 exactly for a body of 21 rows numpy reads,
      null coordinates included. */
  lemma PredictOkIffValid(svc: Service, body: Option<Json>)
    requires WellFormed(svc)
    ensures Predict(svc, body).status == 200 <==> AcceptedBody(body, svc.parseFloat)
  {
    if AcceptedBody(body, svc.parseFloat) {
      AcceptedConverts(body.value.fields["points"], svc.parseFloat);
      if AsArray(body.value.fields["points"], svc.parseFloat).Array? {
        ArrayValuesCount(body.value.fields["points"], svc.parseFloat);
      }
    }
    if Predict(svc, body).status == 200 {
      ConvertsAccepted(body.value.fields["points"], svc.parseFloat);
    }
  }

  /** A body of 21 rows numpy reads with a null coordinate is answered 200,
      with the answer for NaN features whatever the other coordinates are. */
  lemma NullCoordinateAnswered(svc: Service, body: Option<Json>)
    requires WellFormed(svc)
    requires AcceptedBody(body, svc.parseFloat)
    requires var points := body.value.fields["points"];
      exists i, c :: 0 <= i < NumLandmarks && 0 <= c < 3 && points.items[i].items[c].JNull?
    ensures Predict(svc, body) == NaNAnswer(svc)
  {
    var points := body.value.fields["points"];
    var i, c :| 0 <= i < NumLandmarks && 0 <= c < 3 && points.items[i].items[c].JNull?;
    AcceptedConverts(points, svc.parseFloat);
    if AsArray(points, svc.parseFloat).Array? {
      ConvertsValid(points, svc.parseFloat);
      assert false;
    }
  }

  /** On a valid body the reply is the letter mapped to the first most
      probable class ("?" when the index has no letter) and that class's
      probability, which lies in [0, 1] and is not exceeded by any other. */
  lemma PredictAnswer(svc: Service, body: Option<Json>)
    requires WellFormed(svc)
    requires ValidBody(body, svc.parseFloat)
    ensures var points := body.value.fields["points"];
      var probs := svc.classify(Normalize(Landmarks(points, svc.parseFloat), svc.sqrt));
      var k := ArgMax(probs);
      && Predict(svc, body) == AnswerReply(LetterFor(svc.indexToLetter, k), probs[k])
      && 0.0 <= probs[k] <= 1.0
      && forall i :: 0 <= i < |probs| ==> probs[i] <= probs[k]
  {
    var points := body.value.fields["points"];
    ValidConverts(points, svc.parseFloat);
    var probs := svc.classify(Normalize(Landmarks(points, svc.parseFloat), svc.sqrt));
    ArgMaxIsFirstMax(probs);
  }

  /** Replacing the classifier and the label table changes no refusal:
      nothing is predicted for a body that is not 21 rows numpy reads. */
  lemma RefusalIgnoresModel(svc: Service, other: Service, body: Option<Json>)
    requires WellFormed(svc) && WellFormed(other)
    requires other.sqrt == svc.sqrt && other.parseFloat == svc.parseFloat
    requires !AcceptedBody(body, svc.parseFloat)
    ensures Predict(other, body) == Predict(svc, body)
    ensures Predict(svc, body).status != 200
  {
    PredictOkIffValid(svc, body);
  }

  /** The happy path of the service: 21 rows of three zeros. */
  lemma ZeroPointsAnswered(svc: Service)
    requires WellFormed(svc)
    ensures var body := Some(JObj(map["points" := JArr(seq(21, _ => JArr([JNum(0.0), JNum(0.0), JNum(0.0)])))]));
      && Predict(svc, body).status == 200
      && Predict(svc, body).body.fields["letter"].JStr?
      && Predict(svc, body).body.fields["confidence"].JNum?
      && 0.0 <= Predict(svc, body).body.fields["confidence"].n <= 1.0
  {
    var points := JArr(seq(21, _ => JArr([JNum(0.0), JNum(0.0), JNum(0.0)])));
    forall i | 0 <= i < NumLandmarks ensures ValidRow(points.items[i], svc.parseFloat) {
      assert points.items[i] == JArr([JNum(0.0), JNum(0.0), JNum(0.0)]);
    }
    var body := Some(JObj(map["points" := points]));
    assert ValidBody(body, svc.parseFloat);
    PredictAnswer(svc, body);
  }

  /** A null first coordinate and zeros elsewhere: numpy reads NaN and the
      route answers 200. */
  lemma NullCoordinateExample(svc: Service)
    requires WellFormed(svc)
    ensures var body := Some(JObj(map["points" := JArr([JArr([JNull, JNum(0.0), JNum(0.0)])] +
                                                     seq(20, _ => JArr([JNum(0.0), JNum(0.0), JNum(0.0)])))]));
      && Predict(svc, body).status == 200
      && Predict(svc, body) == NaNAnswer(svc)
  {
    var zero := JArr([JNum(0.0), JNum(0.0), JNum(0.0)]);
    var points := JArr([JArr([JNull, JNum(0.0), JNum(0.0)])] + seq(20, _ => zero));
    forall i | 0 <= i < NumLandmarks ensures AcceptedRow(points.items[i], svc.parseFloat) {
      if i > 0 {
        assert points.items[i] == zero;
      }
    }
    var body := Some(JObj(map["points" := points]));
    assert AcceptedBody(body, svc.parseFloat);
    assert points.items[0].items[0].JNull?;
    NullCoordinateAnswered(svc, body);
  }

  /** 21 pairs instead of triples are refused for their shape. */
  lemma PairsRefused(svc: Service)
    requires WellFormed(svc)
    ensures var body := Some(JObj(map["points" := JArr(seq(21, _ => JArr([JNum(0.0), JNum(0.0)])))]));
      && Predict(svc, body).status == 400
      && IsSubstring("Expected 'points' shape (21, 3)", ErrorText(Predict(svc, body)))
  {
    var points := JArr(seq(21, _ => JArr([JNum(0.0), JNum(0.0)])));
    var fields := map["points" := points];
    var items := points.items;
    forall i | 0 <= i < 21 ensures ShapeOf(items[i]) == Some([2]) {
      var row := items[i].items;
      ScalarShape(row[0]);
      ScalarShape(row[1]);
      UniformShape(row, []);
      assert items[i] == JArr(row) && [2] + [] == [2];
    }
    UniformShape(items, [2]);
    assert [21] + [2] == [21, 2];
    var leaves := Leaves(points);
    var parts := RowLeaves(points);
    forall i | 0 <= i < 21 ensures parts[i] == [JNum(0.0), JNum(0.0)] {
      var row := items[i].items;
      var ps := seq(|row|, c requires 0 <= c < |row| => Leaves(row[c]));
      assert ps == [[JNum(0.0)], [JNum(0.0)]];
      assert Concat(ps) == [JNum(0.0)] + Concat(ps[1..]);
      assert ps[1..][1..] == [];
    }
    assert leaves == Concat(parts);
    forall k | 0 <= k < |leaves| ensures ToFloat(leaves[k], svc.parseFloat).Float? {
      ConcatMembers(parts, leaves[k]);
    }
    WrongShapeRefused(svc, fields);
  }

  /** 21 rows of letters the parser rejects cannot be converted. */
  lemma LettersRefused(svc: Service)
    requires WellFormed(svc)
    requires svc.parseFloat("a") == None
    ensures var body := Some(JObj(map["points" := JArr(seq(21, _ => JArr([JStr("a"), JStr("b"), JStr("c")])))]));
      && Predict(svc, body).status == 400
      && IsSubstring("Could not convert 'points' to a float32 array", ErrorText(Predict(svc, body)))
  {
    var points := JArr(seq(21, _ => JArr([JStr("a"), JStr("b"), JStr("c")])));
    var fields := map["points" := points];
    var row := JArr([JStr("a"), JStr("b"), JStr("c")]);
    ScalarRowLeaves(row);
    var parts := RowLeaves(points);
    assert Leaves(points) == Concat(parts);
    assert Concat(parts) == Leaves(row) + Concat(parts[1..]);
    assert Leaves(points)[0] == JStr("a");
    assert ShapeOf(points).Some? ==> ConvertAll(Leaves(points), svc.parseFloat).ValueError?;
    UnconvertibleRefused(svc, fields);
  }
}
