/** The ASL MNIST dataset wrapper of machine-learning-client/src/dataset_asl_mnist.py:
    the label maps read from label_map.json, the download with exponential
    backoff on throttling, and `__getitem__`, which turns a sample into the
    63 landmark features and the contiguous label index. Its
    `normalize_landmarks` is the one of the Normalizer module. */
module AslDataset {
  import opened Common
  import opened JsonValue
  import opened Normalizer

  // ---------------------------------------------------------------------
  // Label maps

  /** The three objects of label_map.json, as the (key, value) pairs of each
      in file order. */
  datatype LabelMapFile = LabelMapFile(
    indexToLetter: seq<(string, Json)>,
    letterToIndex: seq<(string, Json)>,
    rawLabelToIndex: seq<(string, Json)>)

  datatype LabelMaps = LabelMaps(
    indexToLetter: map<int, Json>,
    letterToIndex: map<string, int>,
    rawLabelToIndex: map<int, int>)

  /** Python's int(x) for a JSON value: numbers are truncated toward zero,
      booleans are 0 or 1, strings are parsed, anything else raises. */
  function PyInt(j: Json): (r: Option<int>)
    ensures j.JNum? && j.n >= 0.0 ==> r == Some(j.n.Floor)
    ensures j.JStr? ==> r == ParseInt(j.s)
    ensures j.JNull? || j.JArr? || j.JObj? ==> r.None?
  {
    match j
    case JNum(n) => Some(if n >= 0.0 then n.Floor else -((-n).Floor))
    case JBool(b) => Some(if b then 1 else 0)
    case JStr(s) => ParseInt(s)
    case _ => None
  }

  /** The keys the entries convert to. */
  function ConvertedKeys<K>(entries: seq<(string, Json)>, fk: string -> Option<K>): set<K> {
    set i | 0 <= i < |entries| && fk(entries[i].0).Some? :: fk(entries[i].0).value
  }

  /** A dict comprehension `{fk(k): fv(v) for k, v in entries}`: the first
      entry that fails to convert raises (None); on a clash of converted
      keys the later entry wins. */
  function Convert<K, V>(entries: seq<(string, Json)>, fk: string -> Option<K>, fv: Json -> Option<V>)
    : (r: Option<map<K, V>>)
    ensures r.Some? <==> forall i :: 0 <= i < |entries| ==> fk(entries[i].0).Some? && fv(entries[i].1).Some?
    ensures r.Some? && entries != [] ==>
              fk(entries[|entries| - 1].0).value in r.value &&
              r.value[fk(entries[|entries| - 1].0).value] == fv(entries[|entries| - 1].1).value
    decreases |entries|
  {
    if entries == [] then Some(map[])
    else
      var init := entries[..|entries| - 1];
      var last := entries[|entries| - 1];
      var front := Convert(init, fk, fv);
      assert forall i :: 0 <= i < |init| ==> entries[i] == init[i];
      if front.None? || fk(last.0).None? || fv(last.1).None? then None
      else Some(front.value[fk(last.0).value := fv(last.1).value])
  }

  /** The converted dict has exactly the converted keys, and each entry
      whose key no later entry shares is found under its converted key. */
  lemma {:induction false} ConvertContents<K(!new), V>(entries: seq<(string, Json)>, fk: string -> Option<K>, fv: Json -> Option<V>)
    requires Convert(entries, fk, fv).Some?
    ensures Convert(entries, fk, fv).value.Keys == ConvertedKeys(entries, fk)
    ensures forall i :: 0 <= i < |entries| && LastWithKey(entries, fk, i) ==>
              Convert(entries, fk, fv).value[fk(entries[i].0).value] == fv(entries[i].1).value
    decreases |entries|
  {
    if entries != [] {
      var init := entries[..|entries| - 1];
      var last := entries[|entries| - 1];
      assert forall i :: 0 <= i < |init| ==> entries[i] == init[i];
      ConvertContents(init, fk, fv);
      assert ConvertedKeys(entries, fk) == ConvertedKeys(init, fk) + {fk(last.0).value} by {
        forall k | k in ConvertedKeys(entries, fk)
          ensures k in ConvertedKeys(init, fk) + {fk(last.0).value}
        {
          var i :| 0 <= i < |entries| && fk(entries[i].0).Some? && fk(entries[i].0).value == k;
          if i < |init| {
            assert fk(init[i].0).value == k;
          }
        }
        forall k | k in ConvertedKeys(init, fk)
          ensures k in ConvertedKeys(entries, fk)
        {
          var i :| 0 <= i < |init| && fk(init[i].0).Some? && fk(init[i].0).value == k;
          assert fk(entries[i].0).value == k;
        }
        assert fk(entries[|entries| - 1].0).value in ConvertedKeys(entries, fk);
      }
      forall i | 0 <= i < |init| && LastWithKey(entries, fk, i)
        ensures LastWithKey(init, fk, i)
      {
      }
    }
  }

  /** No entry after the i-th converts to the same key. */
  predicate LastWithKey<K(==)>(entries: seq<(string, Json)>, fk: string -> Option<K>, i: nat)
    requires i < |entries|
  {
    forall j :: i < j < |entries| ==> fk(entries[j].0) != fk(entries[i].0)
  }

  /** m is what `{fk(k): fv(v) for k, v in entries}` builds: its keys are
      the converted keys, and an entry whose key no later entry shares is
      found under its converted key with its converted value. */
  predicate BuiltFrom<K(!new), V(==)>(m: map<K, V>, entries: seq<(string, Json)>, fk: string -> Option<K>, fv: Json -> Option<V>) {
    m.Keys == ConvertedKeys(entries, fk) &&
    forall i :: 0 <= i < |entries| && LastWithKey(entries, fk, i) && fk(entries[i].0).Some? && fv(entries[i].1).Some? ==>
      fk(entries[i].0).value in m && m[fk(entries[i].0).value] == fv(entries[i].1).value
  }

  /** `load_label_maps` after reading the file: index keys and index
      values become integers, letters stay as they are. Each map has
      exactly the converted keys of its file object, and an entry whose key
      no later entry shares is found under that key with its converted
      value. */
  function LoadLabelMaps(file: LabelMapFile): (r: Option<LabelMaps>)
    ensures r.Some? <==>
      Convert(file.indexToLetter, ParseInt, Keep).Some? &&
      Convert(file.letterToIndex, KeepKey, PyInt).Some? &&
      Convert(file.rawLabelToIndex, ParseInt, PyInt).Some?
    ensures r.Some? ==> BuiltFrom(r.value.indexToLetter, file.indexToLetter, ParseInt, Keep)
    ensures r.Some? ==> BuiltFrom(r.value.letterToIndex, file.letterToIndex, KeepKey, PyInt)
    ensures r.Some? ==> r.value.letterToIndex.Keys == set i | 0 <= i < |file.letterToIndex| :: file.letterToIndex[i].0
    ensures r.Some? ==> BuiltFrom(r.value.rawLabelToIndex, file.rawLabelToIndex, ParseInt, PyInt)
  {
    var i2l := Convert(file.indexToLetter, ParseInt, Keep);
    var l2i := Convert(file.letterToIndex, KeepKey, PyInt);
    var raw := Convert(file.rawLabelToIndex, ParseInt, PyInt);
    if i2l.None? || l2i.None? || raw.None? then None
    else
      ConvertBuilds(file.indexToLetter, ParseInt, Keep);
      ConvertBuilds(file.letterToIndex, KeepKey, PyInt);
      ConvertBuilds(file.rawLabelToIndex, ParseInt, PyInt);
      KeptKeys(file.letterToIndex);
      Some(LabelMaps(i2l.value, l2i.value, raw.value))
  }

  lemma ConvertBuilds<K(!new), V>(entries: seq<(string, Json)>, fk: string -> Option<K>, fv: Json -> Option<V>)
    requires Convert(entries, fk, fv).Some?
    ensures BuiltFrom(Convert(entries, fk, fv).value, entries, fk, fv)
  {
    ConvertContents(entries, fk, fv);
  }

  /** Keeping the keys as they are converts them to themselves. */
  lemma KeptKeys(entries: seq<(string, Json)>)
    ensures ConvertedKeys(entries, KeepKey) == set i | 0 <= i < |entries| :: entries[i].0
  {
  }

  function Keep(v: Json): Option<Json> {
    Some(v)
  }

  function KeepKey(k: string): Option<string> {
    Some(k)
  }

  /** An integer-keyed table as json.dump writes it: keys as decimal
      strings. */
  function IntKeyed(table: seq<(int, Json)>): (entries: seq<(string, Json)>)
    ensures |entries| == |table|
    ensures forall i :: 0 <= i < |table| ==> entries[i] == (IntToString(table[i].0), table[i].1)
  {
    seq(|table|, i requires 0 <= i < |table| => (IntToString(table[i].0), table[i].1))
  }

  /** Every key json.dump writes parses back to the integer it came from. */
  lemma IntKeyedParses(table: seq<(int, Json)>)
    ensures forall i :: 0 <= i < |table| ==> ParseInt(IntKeyed(table)[i].0) == Some(table[i].0)
  {
    forall i | 0 <= i < |table|
      ensures ParseInt(IntKeyed(table)[i].0) == Some(table[i].0)
    {
      IntRoundTrip(table[i].0);
    }
  }

  /** The keys the written file converts to are the table's keys. */
  lemma IntKeyedKeys(table: seq<(int, Json)>)
    ensures ConvertedKeys(IntKeyed(table), ParseInt) == (set i | 0 <= i < |table| :: table[i].0)
  {
    var entries := IntKeyed(table);
    IntKeyedParses(table);
    forall k | k in ConvertedKeys(entries, ParseInt)
      ensures k in (set i | 0 <= i < |table| :: table[i].0)
    {
      var i :| 0 <= i < |entries| && ParseInt(entries[i].0).Some? && ParseInt(entries[i].0).value == k;
      assert table[i].0 == k;
    }
    forall k | k in (set i | 0 <= i < |table| :: table[i].0)
      ensures k in ConvertedKeys(entries, ParseInt)
    {
      var i :| 0 <= i < |table| && table[i].0 == k;
      assert ParseInt(entries[i].0).value == k;
    }
  }

  /** With distinct table keys, every written entry is the last with its
      key. */
  lemma IntKeyedLast(table: seq<(int, Json)>)
    requires forall i, j :: 0 <= i < j < |table| ==> table[i].0 != table[j].0
    ensures forall i :: 0 <= i < |table| ==> LastWithKey(IntKeyed(table), ParseInt, i)
  {
    var entries := IntKeyed(table);
    IntKeyedParses(table);
    forall i | 0 <= i < |table|
      ensures LastWithKey(entries, ParseInt, i)
    {
      forall j | i < j < |entries|
        ensures ParseInt(entries[j].0) != ParseInt(entries[i].0)
      {
        assert table[i].0 != table[j].0;
      }
    }
  }

  /** A file written from an integer-keyed table with distinct keys reads
      back as the same table. */
  lemma IntKeysRoundTrip(table: seq<(int, Json)>)
    requires forall i, j :: 0 <= i < j < |table| ==> table[i].0 != table[j].0
    ensures Convert(IntKeyed(table), ParseInt, Keep).Some?
    ensures Convert(IntKeyed(table), ParseInt, Keep).value.Keys == (set i | 0 <= i < |table| :: table[i].0)
    ensures forall i :: 0 <= i < |table| ==> Convert(IntKeyed(table), ParseInt, Keep).value[table[i].0] == table[i].1
  {
    var entries := IntKeyed(table);
    IntKeyedParses(table);
    ConvertContents(entries, ParseInt, Keep);
    IntKeyedLast(table);
    IntKeyedKeys(table);
    forall i | 0 <= i < |table|
      ensures Convert(entries, ParseInt, Keep).value[table[i].0] == table[i].1
    {
      assert LastWithKey(entries, ParseInt, i);
      assert ParseInt(entries[i].0).value == table[i].0;
    }
  }

  // ---------------------------------------------------------------------
  // Download with retries

  /** One call of `load_dataset`: the dataset, or an exception with its
      message. */
  datatype LoadOutcome<D> = Loaded(data: D) | Failed(message: string)

  /** How `load_asl_mnist_with_retries` ends. */
  datatype RetryResult<D> = Returned(data: D) | Reraised(message: string) | ExceededRetries

  /** The result, the `time.sleep` durations in order, and the number of
      `load_dataset` calls. */
  datatype Trace<D> = Trace(result: RetryResult<D>, sleeps: seq<int>, calls: nat)

  /** Hugging Face throttling: the message mentions 429 or Too Many
      Requests. */
  predicate Throttled(message: string) {
    IsSubstring("429", message) || IsSubstring("Too Many Requests", message)
  }

  function Pow2(k: nat): (r: nat)
    ensures r >= 1
  {
    if k == 0 then 1 else 2 * Pow2(k - 1)
  }

  /** The run of the loop from 0-based attempt `attempt` on; `load(k)` is
      what the k-th call returns. */
  function RetryFrom<D>(attempt: nat, maxRetries: int, baseDelay: int, load: nat -> LoadOutcome<D>): (t: Trace<D>)
    ensures t.calls <= (if maxRetries > attempt then maxRetries - attempt else 0)
    ensures |t.sleeps| <= t.calls
    decreases maxRetries - attempt
  {
    if attempt >= maxRetries then Trace(ExceededRetries, [], 0)
    else match load(attempt)
      case Loaded(d) => Trace(Returned(d), [], 1)
      case Failed(m) =>
        if Throttled(m) then
          var rest := RetryFrom(attempt + 1, maxRetries, baseDelay, load);
          Trace(rest.result, [baseDelay * Pow2(attempt)] + rest.sleeps, rest.calls + 1)
        else Trace(Reraised(m), [], 1)
  }

  /** `load_asl_mnist_with_retries`. */
  method LoadWithRetries<D>(maxRetries: int, baseDelay: int, load: nat -> LoadOutcome<D>)
    returns (result: RetryResult<D>, sleeps: seq<int>, calls: nat)
    ensures Trace(result, sleeps, calls) == RetryFrom(0, maxRetries, baseDelay, load)
  {
    sleeps, calls := [], 0;
    var attempt: nat := 0;
    while attempt < maxRetries
      invariant calls == attempt
      invariant var rest := RetryFrom(attempt, maxRetries, baseDelay, load);
        Trace(rest.result, sleeps + rest.sleeps, calls + rest.calls) == RetryFrom(0, maxRetries, baseDelay, load)
      decreases maxRetries - attempt
    {
      var outcome := load(attempt);
      calls := calls + 1;
      if outcome.Loaded? {
        return Returned(outcome.data), sleeps, calls;
      }
      if !Throttled(outcome.message) {
        return Reraised(outcome.message), sleeps, calls;
      }
      assert sleeps + ([baseDelay * Pow2(attempt)] + RetryFrom(attempt + 1, maxRetries, baseDelay, load).sleeps) ==
             (sleeps + [baseDelay * Pow2(attempt)]) + RetryFrom(attempt + 1, maxRetries, baseDelay, load).sleeps;
      sleeps := sleeps + [baseDelay * Pow2(attempt)];
      attempt := attempt + 1;
    }
    result := ExceededRetries;
    assert sleeps + [] == sleeps;
  }

  /** The sleeps of throttled attempts a, a+1, ..., k-1. */
  function Backoff(a: nat, k: nat, baseDelay: int): (s: seq<int>)
    requires a <= k
    ensures |s| == k - a
    ensures forall j :: 0 <= j < k - a ==> s[j] == baseDelay * Pow2(a + j)
  {
    seq(k - a, j requires 0 <= j < k - a => baseDelay * Pow2(a + j))
  }

  /** A run of throttled attempts from a up to k sleeps base_delay * 2^j
      after attempt j and then continues as the run from k. */
  lemma {:induction false} ThrottledRun<D>(a: nat, k: nat, maxRetries: int, baseDelay: int, load: nat -> LoadOutcome<D>)
    requires a <= k <= maxRetries
    requires forall j :: a <= j < k ==> load(j).Failed? && Throttled(load(j).message)
    ensures var t := RetryFrom(k, maxRetries, baseDelay, load);
      RetryFrom(a, maxRetries, baseDelay, load) ==
      Trace(t.result, Backoff(a, k, baseDelay) + t.sleeps, (k - a) + t.calls)
    decreases k - a
  {
    var t := RetryFrom(k, maxRetries, baseDelay, load);
    if a == k {
      assert Backoff(a, k, baseDelay) + t.sleeps == t.sleeps;
    } else {
      ThrottledRun(a + 1, k, maxRetries, baseDelay, load);
      BackoffCons(a, k, baseDelay);
      assert [baseDelay * Pow2(a)] + (Backoff(a + 1, k, baseDelay) + t.sleeps) ==
             Backoff(a, k, baseDelay) + t.sleeps;
    }
  }

  lemma BackoffCons(a: nat, k: nat, baseDelay: int)
    requires a < k
    ensures Backoff(a, k, baseDelay) == [baseDelay * Pow2(a)] + Backoff(a + 1, k, baseDelay)
  {
    var s := [baseDelay * Pow2(a)] + Backoff(a + 1, k, baseDelay);
    forall j | 0 <= j < k - a
      ensures Backoff(a, k, baseDelay)[j] == s[j]
    {
      if j > 0 {
        assert s[j] == Backoff(a + 1, k, baseDelay)[j - 1];
        assert a + 1 + (j - 1) == a + j;
      }
    }
  }

  /** After k throttled attempts, the first successful load is returned,
      with k sleeps of base_delay * 2^j and k + 1 calls. */
  lemma FirstSuccessReturned<D>(k: nat, maxRetries: int, baseDelay: int, load: nat -> LoadOutcome<D>)
    requires k < maxRetries
    requires forall j :: 0 <= j < k ==> load(j).Failed? && Throttled(load(j).message)
    requires load(k).Loaded?
    ensures RetryFrom(0, maxRetries, baseDelay, load) == Trace(Returned(load(k).data), Backoff(0, k, baseDelay), k + 1)
  {
    ThrottledRun(0, k, maxRetries, baseDelay, load);
    assert Backoff(0, k, baseDelay) + [] == Backoff(0, k, baseDelay);
  }

  /** A failure that is not throttling is raised again at once: no further
      call and no further sleep. */
  lemma OtherFailureReraised<D>(k: nat, maxRetries: int, baseDelay: int, load: nat -> LoadOutcome<D>)
    requires k < maxRetries
    requires forall j :: 0 <= j < k ==> load(j).Failed? && Throttled(load(j).message)
    requires load(k).Failed? && !Throttled(load(k).message)
    ensures RetryFrom(0, maxRetries, baseDelay, load) == Trace(Reraised(load(k).message), Backoff(0, k, baseDelay), k + 1)
  {
    ThrottledRun(0, k, maxRetries, baseDelay, load);
    assert Backoff(0, k, baseDelay) + [] == Backoff(0, k, baseDelay);
  }

  /** When every attempt is throttled the loader gives up with
      RuntimeError after exactly max_retries calls; with max_retries at
      most 0 it gives up without calling at all. */
  lemma AllThrottledExceeds<D>(maxRetries: int, baseDelay: int, load: nat -> LoadOutcome<D>)
    requires forall j :: 0 <= j < maxRetries ==> load(j).Failed? && Throttled(load(j).message)
    ensures RetryFrom(0, maxRetries, baseDelay, load).result == ExceededRetries
    ensures RetryFrom(0, maxRetries, baseDelay, load).calls == (if maxRetries > 0 then maxRetries else 0)
  {
    if maxRetries > 0 {
      ThrottledRun(0, maxRetries, maxRetries, baseDelay, load);
    }
  }

  /** One throttled call, then a success: two calls and one sleep of
      base_delay seconds. */
  lemma ThrottledOnceExample<D>(baseDelay: int, data: D, load: nat -> LoadOutcome<D>)
    requires load(0) == Failed("HTTP 429 Too Many Requests") && load(1) == Loaded(data)
    ensures RetryFrom(0, 3, baseDelay, load) == Trace(Returned(data), [baseDelay], 2)
  {
    SubstringInside("HTTP ", "429", " Too Many Requests");
    assert "HTTP 429 Too Many Requests" == "HTTP " + "429" + " Too Many Requests";
    FirstSuccessReturned(1, 3, baseDelay, load);
  }

  // ---------------------------------------------------------------------
  // Samples

  /** A dataset row: the image (pixels) and the raw Hugging Face label. */
  datatype Sample = Sample(image: seq<int>, rawLabel: int)

  /** What `__getitem__` returns: the feature vector and the label index. */
  datatype Item = Item(features: seq<real>, index: int)

  /** `__getitem__(idx)`: the raw label goes through raw_label_to_index (a
      missing label raises KeyError), the landmarks are extracted from the
      image, and the features are 63 zeros when no hand is found and the
      normalized landmarks otherwise. An index past the end raises, as does
      a landmark array that is not 21 points (the shape assertion of the
      normalizer); None stands for these exceptions. */
  function GetItem(samples: seq<Sample>, idx: nat, rawToIndex: map<int, int>,
                   extract: seq<int> -> Option<seq<Point>>, sqrt: real -> real): (r: Option<Item>)
    requires IsSqrt(sqrt)
    ensures r.Some? <==> idx < |samples| && samples[idx].rawLabel in rawToIndex &&
                         (extract(samples[idx].image).None? || |extract(samples[idx].image).value| == NumLandmarks)
    ensures r.Some? ==> r.value.index == rawToIndex[samples[idx].rawLabel] && |r.value.features| == FeatureLength
    ensures r.Some? && extract(samples[idx].image).None? ==>
              forall k :: 0 <= k < FeatureLength ==> r.value.features[k] == 0.0
    ensures r.Some? && extract(samples[idx].image).Some? ==>
              r.value.features == Normalize(extract(samples[idx].image).value, sqrt)
  {
    if idx >= |samples| || samples[idx].rawLabel !in rawToIndex then None
    else
      var index := rawToIndex[samples[idx].rawLabel];
      match extract(samples[idx].image)
      case None => Some(Item(seq(FeatureLength, _ => 0.0), index))
      case Some(pts) =>
        if |pts| != NumLandmarks then None else Some(Item(Normalize(pts, sqrt), index))
  }

  /** With a hand found, the features of a sample are zero at the wrist
      and, unless the whole hand sits at the wrist, their largest row norm
      is 1. */
  lemma HandFeaturesUnitScale(samples: seq<Sample>, idx: nat, rawToIndex: map<int, int>,
                              extract: seq<int> -> Option<seq<Point>>, sqrt: real -> real)
    requires IsSqrt(sqrt)
    requires GetItem(samples, idx, rawToIndex, extract, sqrt).Some?
    requires extract(samples[idx].image).Some? && !AllAtWrist(extract(samples[idx].image).value)
    ensures var f := GetItem(samples, idx, rawToIndex, extract, sqrt).value.features;
      Row(f, 0) == Origin &&
      (forall i :: 0 <= i < NumLandmarks ==> SqNorm(Row(f, i)) <= 1.0) &&
      (exists i :: 0 <= i < NumLandmarks && SqNorm(Row(f, i)) == 1.0)
  {
    var pts := extract(samples[idx].image).value;
    WristIsZero(pts, sqrt);
    UnitMaxNorm(pts, sqrt);
  }
}
