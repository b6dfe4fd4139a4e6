/** The two MongoDB collections the web app reads and writes: `detections`,
    an append-only log of predictions, and `users`, whose `progress` arrays
    grow with `$addToSet`. Only the operations the routes use are modelled:
    `insert_one`, `count_documents` with the assessment's query, `find_one`
    by `_id` and `update_one` with `$addToSet`. */
module Documents {
  import opened Common
  import opened JsonValue

  // ---------------------------------------------------------------------
  // ObjectId

  predicate IsHexDigit(c: char) {
    '0' <= c <= '9' || 'a' <= c <= 'f' || 'A' <= c <= 'F'
  }

  function LowerHex(c: char): (l: char)
    requires IsHexDigit(c)
    ensures IsHexDigit(l) && !('A' <= l <= 'F')
  {
    if 'A' <= c <= 'F' then (c as int - 'A' as int + 'a' as int) as char else c
  }

  /** `ObjectId(s)` for a string: 24 hexadecimal digits, in either case,
      name the id whose canonical text is the lower-case spelling; any other
      string raises InvalidId (None). */
  function ObjectIdOf(s: string): (r: Option<string>)
    ensures r.Some? <==> |s| == 24 && forall i :: 0 <= i < |s| ==> IsHexDigit(s[i])
    ensures r.Some? ==> |r.value| == 24
    ensures r.Some? ==> forall i :: 0 <= i < 24 ==> IsHexDigit(r.value[i]) && !('A' <= r.value[i] <= 'F')
  {
    if |s| == 24 && forall i :: 0 <= i < |s| ==> IsHexDigit(s[i])
    then Some(seq(24, i requires 0 <= i < 24 => LowerHex(s[i])))
    else None
  }

  /** The canonical text of an id names the same id. */
  lemma ObjectIdCanonical(s: string)
    requires ObjectIdOf(s).Some?
    ensures ObjectIdOf(ObjectIdOf(s).value) == ObjectIdOf(s)
  {
    var c := ObjectIdOf(s).value;
    assert forall i :: 0 <= i < |c| ==> IsHexDigit(c[i]);
    assert seq(24, i requires 0 <= i < 24 => LowerHex(c[i])) == c;
  }

  // ---------------------------------------------------------------------
  // Detections

  /** One prediction. The label is whatever JSON value the classifier
      service returned as "letter". */
  datatype Detection = Detection(
    userId: string, lessonId: int, timestamp: real, signLabel: Json, confidence: real)

  /** The filter of `count_documents` in the assessment route. */
  datatype Query = Query(
    userId: string, lessonId: int, signLabel: string, minConfidence: real, since: real)

  /** MongoDB equality on `sign_label` also matches an array holding the
      value. */
  predicate LabelMatches(stored: Json, sign: string) {
    stored == JStr(sign) || (stored.JArr? && JStr(sign) in stored.items)
  }

  /** A stored label matches a letter when it is that string or an array
      with that string among its elements; nothing else matches. */
  lemma LabelMatchesCases(stored: Json, sign: string)
    ensures stored.JStr? ==> (LabelMatches(stored, sign) <==> stored.s == sign)
    ensures stored.JArr? ==> (LabelMatches(stored, sign) <==> exists i :: 0 <= i < |stored.items| && stored.items[i] == JStr(sign))
    ensures !stored.JStr? && !stored.JArr? ==> !LabelMatches(stored, sign)
  {
  }

  predicate Matches(d: Detection, q: Query) {
    d.userId == q.userId && d.lessonId == q.lessonId && LabelMatches(d.signLabel, q.signLabel) &&
    d.confidence >= q.minConfidence && d.timestamp >= q.since
  }

  /** The number of log entries the query matches. */
  function Count(log: seq<Detection>, q: Query): (n: nat)
    ensures n <= |log|
  {
    if log == [] then 0
    else Count(log[..|log| - 1], q) + (if Matches(log[|log| - 1], q) then 1 else 0)
  }

  /** The positions of the entries the query matches. */
  function MatchingPositions(log: seq<Detection>, q: Query): set<nat> {
    set i: nat | i < |log| && Matches(log[i], q)
  }

  /** Count is the number of matching positions. */
  lemma {:induction false} CountIsMatchingPositions(log: seq<Detection>, q: Query)
    ensures Count(log, q) == |MatchingPositions(log, q)|
    decreases |log|
  {
    if log != [] {
      var init := log[..|log| - 1];
      CountIsMatchingPositions(init, q);
      var last := |log| - 1;
      assert forall i :: 0 <= i < last ==> init[i] == log[i];
      if Matches(log[last], q) {
        assert MatchingPositions(log, q) == MatchingPositions(init, q) + {last};
      } else {
        assert MatchingPositions(log, q) == MatchingPositions(init, q);
      }
    }
  }

  /** Appending an entry adds one to the count exactly when it matches. */
  lemma CountAppend(log: seq<Detection>, d: Detection, q: Query)
    ensures Count(log + [d], q) == Count(log, q) + (if Matches(d, q) then 1 else 0)
  {
    assert (log + [d])[..|log|] == log;
  }

  /** The count over two logs side by side is the sum of their counts. */
  lemma {:induction false} CountConcat(a: seq<Detection>, b: seq<Detection>, q: Query)
    ensures Count(a + b, q) == Count(a, q) + Count(b, q)
    decreases |b|
  {
    if b == [] {
      assert a + b == a;
    } else {
      var init := b[..|b| - 1];
      var last := b[|b| - 1];
      CountConcat(a, init, q);
      assert a + b == (a + init) + [last];
      CountAppend(a + init, last, q);
      assert b == init + [last];
      CountAppend(init, last, q);
    }
  }

  /** A log none of whose entries matches counts zero. */
  lemma {:induction false} CountNoneMatching(log: seq<Detection>, q: Query)
    requires forall i :: 0 <= i < |log| ==> !Matches(log[i], q)
    ensures Count(log, q) == 0
    decreases |log|
  {
    if log != [] {
      CountNoneMatching(log[..|log| - 1], q);
    }
  }

  /** Entries that the query cannot match (another user, another lesson, a
      lower confidence or an older timestamp) never change the count,
      wherever they sit in the log. */
  lemma CountIgnoresNonMatching(log: seq<Detection>, extra: seq<Detection>, q: Query)
    requires forall i :: 0 <= i < |extra| ==> !Matches(extra[i], q)
    ensures Count(log + extra, q) == Count(log, q)
    ensures Count(extra + log, q) == Count(log, q)
  {
    CountNoneMatching(extra, q);
    CountConcat(log, extra, q);
    CountConcat(extra, log, q);
  }

  // ---------------------------------------------------------------------
  // Users and progress

  datatype Progress = Progress(lessonsCompleted: Option<seq<int>>, assessmentsTaken: Option<seq<string>>)

  /** A user document as the routes read it: `username` and `progress` may
      be missing. */
  datatype UserDoc = UserDoc(username: Option<string>, progress: Option<Progress>)

  /** `$addToSet`: append unless already present. */
  function AddToSet<T(==,!new)>(xs: seq<T>, x: T): (r: seq<T>)
    ensures x in r
    ensures forall y :: y in r <==> y in xs || y == x
    ensures |xs| <= |r| <= |xs| + 1 && r[..|xs|] == xs
  {
    if x in xs then xs else xs + [x]
  }

  /** Adding twice adds once. */
  lemma AddToSetIdempotent<T(!new)>(xs: seq<T>, x: T)
    ensures AddToSet(AddToSet(xs, x), x) == AddToSet(xs, x)
  {
  }

  predicate NoDuplicates<T(==)>(xs: seq<T>) {
    forall i, j :: 0 <= i < j < |xs| ==> xs[i] != xs[j]
  }

  /** An array that never had duplicates keeps having none. */
  lemma AddToSetNoDuplicates<T(!new)>(xs: seq<T>, x: T)
    requires NoDuplicates(xs)
    ensures NoDuplicates(AddToSet(xs, x))
  {
  }

  function OrEmpty<T>(o: Option<seq<T>>): seq<T> {
    if o.Some? then o.value else []
  }

  /** The `$addToSet` of a passed assessment: the title joins
      `progress.assessments_taken` and the lesson number joins
      `progress.lessons_completed`; missing documents and arrays are
      created. */
  function RecordPass(u: UserDoc, title: string, lesson: int): (v: UserDoc)
    ensures v.username == u.username
    ensures v.progress.Some? && v.progress.value.assessmentsTaken.Some? && v.progress.value.lessonsCompleted.Some?
    ensures v.progress.value.assessmentsTaken.value ==
            AddToSet(OrEmpty(if u.progress.Some? then u.progress.value.assessmentsTaken else None), title)
    ensures v.progress.value.lessonsCompleted.value ==
            AddToSet(OrEmpty(if u.progress.Some? then u.progress.value.lessonsCompleted else None), lesson)
  {
    var p := if u.progress.Some? then u.progress.value else Progress(None, None);
    UserDoc(u.username, Some(Progress(
      Some(AddToSet(OrEmpty(p.lessonsCompleted), lesson)),
      Some(AddToSet(OrEmpty(p.assessmentsTaken), title)))))
  }

  /** Recording the same pass again changes nothing. */
  lemma RecordPassIdempotent(u: UserDoc, title: string, lesson: int)
    ensures RecordPass(RecordPass(u, title, lesson), title, lesson) == RecordPass(u, title, lesson)
  {
  }

  /** `update_one({"_id": id}, {"$addToSet": ...})`: no document matches an
      unknown id and then nothing changes (there is no upsert). */
  function UpdateUser(users: map<string, UserDoc>, id: string, title: string, lesson: int): (r: map<string, UserDoc>)
    ensures r.Keys == users.Keys
    ensures forall k :: k in users && k != id ==> r[k] == users[k]
    ensures id in users ==> r[id] == RecordPass(users[id], title, lesson)
  {
    if id in users then users[id := RecordPass(users[id], title, lesson)] else users
  }

  // ---------------------------------------------------------------------
  // The database

  class Database {
    var detections: seq<Detection>
    var users: map<string, UserDoc>

    constructor(users0: map<string, UserDoc>)
      ensures detections == [] && users == users0
    {
      detections := [];
      users := users0;
    }

    /** `db["detections"].insert_one(d)`. */
    method InsertOne(d: Detection)
      modifies this
      ensures detections == old(detections) + [d]
      ensures users == old(users)
    {
      detections := detections + [d];
    }

    /** `db["detections"].count_documents(q)`: a scan of the log. */
    method CountDocuments(q: Query) returns (n: nat)
      ensures n == Count(detections, q)
    {
      n := 0;
      var i := 0;
      while i < |detections|
        invariant 0 <= i <= |detections|
        invariant n == Count(detections[..i], q)
      {
        assert detections[..i + 1] == detections[..i] + [detections[i]];
        CountAppend(detections[..i], detections[i], q);
        if Matches(detections[i], q) {
          n := n + 1;
        }
        i := i + 1;
      }
      assert detections[..i] == detections;
    }

    /** `db["users"].update_one({"_id": id}, {"$addToSet": ...})`. */
    method AddToSetProgress(id: string, title: string, lesson: int)
      modifies this
      ensures users == UpdateUser(old(users), id, title, lesson)
      ensures detections == old(detections)
    {
      if id in users {
        users := users[id := RecordPass(users[id], title, lesson)];
      }
    }
  }
}
