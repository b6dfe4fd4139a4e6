/** The lessons and assessments of the web app (web-app/routes/training.py):
    the static lesson and assessment tables, the two lesson pages, and the
    assessment route whose POST branch asks the classifier service for a
    letter, logs it as a detection, counts the matching detections of every
    task in the time window and, on a pass, records the lesson and the
    assessment title in the user's progress. */
module Training {
  import opened Common
  import opened JsonValue
  import opened Documents

  // ---------------------------------------------------------------------
  // Lessons

  datatype Lesson = Lesson(id: int, title: string, description: string)

  /** LESSONS, in display order. */
  const Lessons: seq<Lesson> := [
    Lesson(1, "Lesson 1: ASL Alphabet A\U{2013}G",
      "Learn and practice ASL handshapes for the letters A through G."),
    Lesson(2, "Lesson 2: ASL Alphabet H\U{2013}N",
      "Learn and practice ASL handshapes for the letters H through N."),
    Lesson(3, "Lesson 3: ASL Alphabet O\U{2013}U",
      "Learn and practice ASL handshapes for the letters O through U."),
    Lesson(4, "Lesson 4: ASL Alphabet V\U{2013}Z",
      "Learn and practice ASL handshapes for the letters V through Z."),
    Lesson(5, "Final Practice Lesson",
      "Review all letters A\U{2013}Z and test your recognition skills.")
  ]

  /** The entry with the given id, searching from the end so that, as in a
      dict comprehension, a later entry would win over an earlier one. */
  function FindLesson(lessons: seq<Lesson>, id: int): (r: Option<Lesson>)
    ensures r.Some? ==> r.value in lessons && r.value.id == id
    ensures r.None? ==> forall i :: 0 <= i < |lessons| ==> lessons[i].id != id
  {
    if lessons == [] then None
    else if lessons[|lessons| - 1].id == id then Some(lessons[|lessons| - 1])
    else FindLesson(lessons[..|lessons| - 1], id)
  }

  /** `LESSON_MAP.get(num)`: the lesson whose id is num, or nothing when
      no lesson has that id; the ids of LESSONS are 1 to 5. */
  function LessonOf(num: int): (r: Option<Lesson>)
    ensures r.Some? ==> r.value in Lessons && r.value.id == num
    ensures r.Some? <==> 1 <= num <= 5
  {
    assert 1 <= num <= 5 ==> Lessons[num - 1].id == num;
    FindLesson(Lessons, num)
  }

  /** LESSON_MAP holds exactly the lessons 1 to 5, each under its own id. */
  lemma LessonMapDomain(num: int)
    ensures LessonOf(num).Some? <==> 1 <= num <= 5
    ensures LessonOf(num).Some? ==> LessonOf(num).value == Lessons[num - 1]
  {
    if 1 <= num <= 5 {
      assert Lessons[num - 1].id == num;
    }
  }

  /** `IMAGE_MAP.get(num, "all_letters.png")`. */
  function ImageFor(num: int): (f: string)
    ensures !(1 <= num <= 4) ==> f == "all_letters.png"
  {
    if num == 1 then "a_to_g.png"
    else if num == 2 then "h_to_n.png"
    else if num == 3 then "o_to_u.png"
    else if num == 4 then "v_to_z.png"
    else "all_letters.png"
  }

  // ---------------------------------------------------------------------
  // Assessments

  datatype Task = Task(prompt: string, targetSign: string, minRepetitions: nat, minConfidence: real)

  /** An assessment definition. The title is optional because the route
      reads it with a default. */
  datatype AssessmentDef = AssessmentDef(title: Option<string>, windowSeconds: real, tasks: seq<Task>)

  /** ASSESSMENTS. */
  const Assessments: map<int, AssessmentDef> := map[
    1 := AssessmentDef(Some("Lesson 1 Assessment"), 60.0, [
      Task("Sign the letter A three times.", "A", 3, 0.6),
      Task("Sign the letter C three times.", "C", 3, 0.6)]),
    2 := AssessmentDef(Some("Lesson 2 Assessment"), 60.0, [
      Task("Sign the letter H three times.", "H", 3, 0.6),
      Task("Sign the letter L three times.", "L", 3, 0.6)]),
    3 := AssessmentDef(Some("Lesson 3 Assessment"), 60.0, [
      Task("Sign the letter O three times.", "O", 3, 0.6),
      Task("Sign the letter R three times.", "R", 3, 0.6)]),
    4 := AssessmentDef(Some("Lesson 4 Assessment"), 60.0, [
      Task("Sign the letter W three times.", "W", 3, 0.6),
      Task("Sign the letter Y three times.", "Y", 3, 0.6)]),
    5 := AssessmentDef(Some("Final Practice Assessment"), 90.0, [
      Task("Sign the letter B three times.", "B", 3, 0.6),
      Task("Sign the letter R three times.", "R", 3, 0.6),
      Task("Sign the letter V three times.", "V", 3, 0.6)])
  ]

  /** `ASSESSMENTS.get(num)`: there is an assessment for the lessons 1 to
      5 and for no other number. */
  function AssessmentOf(num: int): (r: Option<AssessmentDef>)
    ensures r.Some? <==> 1 <= num <= 5
  {
    if num in Assessments then Some(Assessments[num]) else None
  }

  /** A task asking for three signs of one letter at confidence 0.6 or
      more. */
  predicate ThreeSigns(t: Task) {
    t.minRepetitions == 3 && t.minConfidence == 0.6 && |t.targetSign| == 1
  }

  /** Every lesson has an assessment and every assessment a lesson; each
      task asks for three signs of its letter at confidence 0.6 or more. */
  lemma AssessmentTable(num: int)
    ensures AssessmentOf(num).Some? <==> LessonOf(num).Some?
    ensures AssessmentOf(num).Some? ==> (
      var def := AssessmentOf(num).value;
      def.title.Some? && |def.tasks| >= 2 && def.windowSeconds >= 60.0 &&
      forall i :: 0 <= i < |def.tasks| ==> ThreeSigns(def.tasks[i]))
  {
    LessonMapDomain(num);
  }

  /** `assessment_def.get("title", f"Lesson {num} Assessment")`. */
  function AssessmentTitle(def: AssessmentDef, num: int): (t: string)
    ensures def.title.Some? ==> t == def.title.value
    ensures def.title.None? ==> t == "Lesson " + IntToString(num) + " Assessment"
  {
    if def.title.Some? then def.title.value else "Lesson " + IntToString(num) + " Assessment"
  }

  // ---------------------------------------------------------------------
  // Pages

  /** One entry of `task_results`. */
  datatype TaskResult = TaskResult(
    prompt: string, targetSign: string, minRepetitions: nat, minConfidence: real,
    matchedCount: nat, passed: bool)

  /** What a route answers. Rendered templates and redirects are tags;
      JSON replies keep their status and content; ServerError is an
      uncaught exception, which Flask turns into a 500 page. */
  datatype Page =
    | RedirectToLogin
    | RedirectToLessons
    | LessonsPage(lessons: seq<Lesson>)
    | LessonPage(lessonNum: int, description: string, imageFile: string)
    | AssessmentPage(lesson: Lesson, lessonNum: int, tasks: seq<Task>)
    | JsonError(status: nat, error: string)
    | Scored(currentLetter: Json, currentConfidence: real, taskResults: seq<TaskResult>, overallPass: bool)
    | ServerError

  const NotLoggedInText := "Not logged in"
  const InvalidLandmarksText := "Invalid landmarks"
  const PredictionFailedText := "Failed to get prediction"
  const SaveFailedText := "Failed to save detection"

  predicate SignedIn(session: Session) {
    "user_id" in session
  }

  /** `session.get("user_id")`, with a missing key read as the falsy "":
      the id is non-empty only when the session holds a non-empty one. */
  function UserIdOf(session: Session): (u: string)
    ensures u != "" <==> "user_id" in session && session["user_id"] != ""
    ensures u != "" ==> u == session["user_id"]
  {
    if "user_id" in session then session["user_id"] else ""
  }

  /** GET /training/: the lesson list, for signed-in users only. */
  function LessonsRoute(session: Session): (p: Page)
    ensures p == RedirectToLogin <==> !SignedIn(session)
    ensures p != RedirectToLogin ==> p == LessonsPage(Lessons)
  {
    if !SignedIn(session) then RedirectToLogin else LessonsPage(Lessons)
  }

  /** GET /training/lesson/<num>. */
  function LessonRoute(session: Session, num: int): (p: Page)
    ensures !SignedIn(session) ==> p == RedirectToLogin
    ensures SignedIn(session) && LessonOf(num).None? ==> p == RedirectToLessons
    ensures p.LessonPage? ==> (p.lessonNum == num && p.imageFile == ImageFor(num) &&
      exists l :: l in Lessons && l.id == num && p.description == l.description)
  {
    if !SignedIn(session) then RedirectToLogin
    else match LessonOf(num)
      case None => RedirectToLessons
      case Some(l) => LessonPage(num, l.description, ImageFor(num))
  }

  /** A signed-in user sees a lesson page exactly for the lessons 1 to 5,
      with the picture of its letter range. */
  lemma LessonPageShown(session: Session, num: int)
    ensures LessonRoute(session, num).LessonPage? <==> SignedIn(session) && 1 <= num <= 5
    ensures LessonRoute(session, num).LessonPage? ==>
      LessonRoute(session, num).description == Lessons[num - 1].description
    ensures num == 5 ==> ImageFor(num) == "all_letters.png"
  {
    LessonMapDomain(num);
  }

  // ---------------------------------------------------------------------
  // The classifier call

  /** The reply of `requests.post` to the classifier service: the call
      raised (timeout, refused connection), or it answered with a status
      that is ok or not and a body that parses as JSON (Some) or not. */
  datatype MlReply = MlRaised | MlAnswered(ok: bool, body: Option<Json>)

  datatype Prediction = Prediction(letter: Json, confidence: real)

  /** Python's float(x) for a JSON value: numbers and booleans convert,
      strings go through the float parser, anything else raises TypeError
      (None). */
  function PyFloat(j: Json, parseFloat: string -> Option<real>): (r: Option<real>)
    ensures j.JNum? ==> r == Some(j.n)
    ensures j.JBool? ==> r == Some(if j.b then 1.0 else 0.0)
    ensures j.JNull? || j.JArr? || j.JObj? ==> r.None?
  {
    match j
    case JNum(n) => Some(n)
    case JBool(b) => Some(if b then 1.0 else 0.0)
    case JStr(s) => parseFloat(s)
    case _ => None
  }

  /** The try block of the POST branch: None stands for any exception,
      including the explicit one for a missing or empty letter. A reply
      that is not ok reads as `{}`, whose letter is missing. */
  function ReadPrediction(reply: MlReply, parseFloat: string -> Option<real>): (r: Option<Prediction>)
    ensures reply.MlRaised? ==> r.None?
    ensures reply.MlAnswered? && !reply.ok ==> r.None?
    ensures r.Some? ==> reply.MlAnswered? && reply.body.Some? && reply.body.value.JObj?
    ensures r.Some? ==> (
      var fields := reply.body.value.fields;
      Truthy(r.value.letter) && r.value.letter == Get(fields, "letter") &&
      ("confidence" !in fields ==> r.value.confidence == 0.0) &&
      ("confidence" in fields ==> Some(r.value.confidence) == PyFloat(fields["confidence"], parseFloat)))
  {
    match reply
    case MlRaised => None
    case MlAnswered(ok, body) =>
      var json := if ok then body else Some(JObj(map[]));
      if json.None? || !json.value.JObj? then None
      else
        var fields := json.value.fields;
        var letter := Get(fields, "letter");
        var confidence := if "confidence" in fields then PyFloat(fields["confidence"], parseFloat) else Some(0.0);
        if confidence.None? || !Truthy(letter) then None
        else Some(Prediction(letter, confidence.value))
  }

  /** A well-formed reply is read in full: a non-empty letter and a numeric
      or missing confidence give a prediction. */
  lemma PredictionRead(fields: map<string, Json>, parseFloat: string -> Option<real>)
    requires Truthy(Get(fields, "letter"))
    requires "confidence" in fields ==> fields["confidence"].JNum?
    ensures ReadPrediction(MlAnswered(true, Some(JObj(fields))), parseFloat).Some?
  {
  }

  /** A reply without a letter, or with an empty one, is a failure. */
  lemma NoLetterFails(fields: map<string, Json>, parseFloat: string -> Option<real>)
    requires !Truthy(Get(fields, "letter"))
    ensures ReadPrediction(MlAnswered(true, Some(JObj(fields))), parseFloat).None?
  {
  }

  // ---------------------------------------------------------------------
  // Reading the landmarks

  /** What `points = data.get("points") if data else None` followed by the
      `not points or len(points) != 21` test gives: the points, the 400
      reply, or an exception (a truthy body that is not an object has no
      `get`; a truthy number or boolean has no `len`). */
  datatype PointsCheck = PointsOk(points: Json) | PointsInvalid | PointsCrash

  function PointsOf(body: Option<Json>): (r: PointsCheck)
    ensures r.PointsOk? ==> body.Some? && body.value.JObj?
    ensures r.PointsOk? ==> r.points == Get(body.value.fields, "points") && PyLen(r.points) == Some(21)
    ensures body.None? || !Truthy(body.value) ==> r == PointsInvalid
    ensures body.Some? && body.value.JObj? && !Truthy(Get(body.value.fields, "points")) ==> r == PointsInvalid
  {
    if body.None? || !Truthy(body.value) then PointsInvalid
    else if !body.value.JObj? then PointsCrash
    else
      var points := Get(body.value.fields, "points");
      if !Truthy(points) then PointsInvalid
      else match PyLen(points)
        case None => PointsCrash
        case Some(n) => if n != 21 then PointsInvalid else PointsOk(points)
  }

  /** The check raises exactly for a truthy body that is not an object (no
      `get`) and for a truthy "points" without a length. */
  lemma PointsCrashIff(body: Option<Json>)
    ensures PointsOf(body) == PointsCrash <==> (body.Some? && Truthy(body.value) &&
              (!body.value.JObj? || (Truthy(Get(body.value.fields, "points")) && PyLen(Get(body.value.fields, "points")).None?)))
  {
  }

  /** Only truthiness and length are checked: any list or string of 21
      elements, whatever they hold, passes. */
  lemma OnlyLengthChecked(fields: map<string, Json>)
    requires "points" in fields && PyLen(fields["points"]) == Some(21)
    ensures PointsOf(Some(JObj(fields))) == PointsOk(fields["points"])
  {
  }

  // ---------------------------------------------------------------------
  // Counting the tasks

  /** The `count_documents` filter of one task. */
  function TaskQuery(userId: string, num: int, task: Task, windowStart: real): Query {
    Query(userId, num, task.targetSign, task.minConfidence, windowStart)
  }

  /** What the filter of a task matches: the detections of this user and
      lesson whose label is the task's letter (or an array holding it), at
      or above the task's confidence, stamped at or after the window start. */
  lemma TaskQueryMatches(userId: string, num: int, task: Task, windowStart: real, d: Detection)
    ensures Matches(d, TaskQuery(userId, num, task, windowStart)) <==>
      d.userId == userId && d.lessonId == num &&
      (d.signLabel == JStr(task.targetSign) ||
       (d.signLabel.JArr? && exists i :: 0 <= i < |d.signLabel.items| && d.signLabel.items[i] == JStr(task.targetSign))) &&
      d.confidence >= task.minConfidence && d.timestamp >= windowStart
  {
    LabelMatchesCases(d.signLabel, task.targetSign);
  }

  /** The result entry of one task whose filter matched `count` detections. */
  function Evaluate(task: Task, count: nat): (r: TaskResult)
    ensures r.passed <==> count >= task.minRepetitions
    ensures r.matchedCount == count && r.prompt == task.prompt && r.targetSign == task.targetSign
    ensures r.minRepetitions == task.minRepetitions && r.minConfidence == task.minConfidence
  {
    TaskResult(task.prompt, task.targetSign, task.minRepetitions, task.minConfidence, count,
      count >= task.minRepetitions)
  }

  /** `task_results`: one entry per task, in the order of the definition,
      each carrying the number of log entries its filter matches. */
  function TaskResults(log: seq<Detection>, userId: string, num: int, tasks: seq<Task>, windowStart: real): (r: seq<TaskResult>)
    ensures |r| == |tasks|
    ensures forall i :: 0 <= i < |tasks| ==>
      r[i] == Evaluate(tasks[i], Count(log, TaskQuery(userId, num, tasks[i], windowStart)))
  {
    if tasks == [] then []
    else
      var last := tasks[|tasks| - 1];
      TaskResults(log, userId, num, tasks[..|tasks| - 1], windowStart) +
        [Evaluate(last, Count(log, TaskQuery(userId, num, last, windowStart)))]
  }

  lemma TaskResultsStep(log: seq<Detection>, userId: string, num: int, tasks: seq<Task>, i: nat, windowStart: real)
    requires i < |tasks|
    ensures TaskResults(log, userId, num, tasks[..i + 1], windowStart) ==
            TaskResults(log, userId, num, tasks[..i], windowStart) +
            [Evaluate(tasks[i], Count(log, TaskQuery(userId, num, tasks[i], windowStart)))]
  {
    assert tasks[..i + 1][..i] == tasks[..i];
  }

  /** `all(result["passed"] for result in task_results)`. */
  predicate AllPassed(results: seq<TaskResult>) {
    forall i :: 0 <= i < |results| ==> results[i].passed
  }

  /** A task passes exactly when the detections its filter matches are at
      least its repetitions: the detections of this user and lesson, with
      the target label, at or above the confidence, and not older than the
      start of the window. */
  lemma TaskPassedIff(log: seq<Detection>, userId: string, num: int, tasks: seq<Task>, windowStart: real, i: nat)
    requires i < |tasks|
    ensures var r := TaskResults(log, userId, num, tasks, windowStart)[i];
      r.matchedCount == |MatchingPositions(log, TaskQuery(userId, num, tasks[i], windowStart))| &&
      (r.passed <==> r.matchedCount >= tasks[i].minRepetitions)
  {
    CountIsMatchingPositions(log, TaskQuery(userId, num, tasks[i], windowStart));
  }

  /** Detections of other users or other lessons never change any task's
      result, wherever they are in the log. */
  lemma OthersNeverCount(log: seq<Detection>, others: seq<Detection>, userId: string, num: int, tasks: seq<Task>, windowStart: real)
    requires forall k :: 0 <= k < |others| ==> others[k].userId != userId || others[k].lessonId != num
    ensures TaskResults(log + others, userId, num, tasks, windowStart) == TaskResults(log, userId, num, tasks, windowStart)
    ensures TaskResults(others + log, userId, num, tasks, windowStart) == TaskResults(log, userId, num, tasks, windowStart)
  {
    forall i | 0 <= i < |tasks|
      ensures Count(log + others, TaskQuery(userId, num, tasks[i], windowStart)) == Count(log, TaskQuery(userId, num, tasks[i], windowStart))
      ensures Count(others + log, TaskQuery(userId, num, tasks[i], windowStart)) == Count(log, TaskQuery(userId, num, tasks[i], windowStart))
    {
      CountIgnoresNonMatching(log, others, TaskQuery(userId, num, tasks[i], windowStart));
    }
  }

  /** `check_tasks`: the loop of the POST branch that asks the store for
      each task's count and builds `task_results`, then `overall_pass`. */
  method CheckTasks(db: Database, userId: string, num: int, def: AssessmentDef, now: real)
    returns (results: seq<TaskResult>, overall: bool)
    ensures results == TaskResults(db.detections, userId, num, def.tasks, now - def.windowSeconds)
    ensures overall <==> AllPassed(results)
  {
    var windowStart := now - def.windowSeconds;
    results := [];
    for i := 0 to |def.tasks|
      invariant results == TaskResults(db.detections, userId, num, def.tasks[..i], windowStart)
    {
      var task := def.tasks[i];
      var matched := db.CountDocuments(TaskQuery(userId, num, task, windowStart));
      TaskResultsStep(db.detections, userId, num, def.tasks, i, windowStart);
      results := results + [Evaluate(task, matched)];
    }
    assert def.tasks[..|def.tasks|] == def.tasks;
    overall := forall r <- results :: r.passed;
  }

  // ---------------------------------------------------------------------
  // The assessment route

  /** What the route leaves behind: its answer, the detection log and the
      user documents. */
  datatype Outcome = Outcome(page: Page, log: seq<Detection>, users: map<string, UserDoc>)

  /** The services the POST branch depends on: the classifier's reply to
      the points sent, the float parser, whether `insert_one` succeeds,
      and the two readings of the clock (the detection's timestamp and the
      one the window is measured from). */
  datatype Env = Env(
    ml: Json -> MlReply, parseFloat: string -> Option<real>, insertOk: bool,
    stampClock: real, windowClock: real)

  /** The whole route, GET and POST, as a function of the state before it.
      A GET and every JSON refusal leave the log and the users alone. */
  function AssessmentSpec(log: seq<Detection>, users: map<string, UserDoc>, session: Session, num: int,
                          isPost: bool, body: Option<Json>, env: Env): (o: Outcome)
    ensures !isPost ==> o.log == log && o.users == users
    ensures o.page.JsonError? ==> o.log == log && o.users == users
  {
    var userId := UserIdOf(session);
    if userId == "" then
      Outcome(if isPost then JsonError(401, NotLoggedInText) else RedirectToLogin, log, users)
    else if LessonOf(num).None? || AssessmentOf(num).None? then
      Outcome(RedirectToLessons, log, users)
    else if !isPost then
      Outcome(AssessmentPage(LessonOf(num).value, num, AssessmentOf(num).value.tasks), log, users)
    else match PointsOf(body)
      case PointsCrash => Outcome(ServerError, log, users)
      case PointsInvalid => Outcome(JsonError(400, InvalidLandmarksText), log, users)
      case PointsOk(points) =>
        match ReadPrediction(env.ml(points), env.parseFloat)
        case None => Outcome(JsonError(500, PredictionFailedText), log, users)
        case Some(prediction) =>
          if !env.insertOk then Outcome(JsonError(500, SaveFailedText), log, users)
          else Score(log, users, userId, num, AssessmentOf(num).value, prediction, env)
  }

  /** The POST once the detection is stored: count each task over the
      grown log, answer with the results and, on a pass, record progress.
      The log gains exactly the new detection; the answer has one result
      per task and passes exactly when every task does; the users change
      only on a pass. */
  function Score(log: seq<Detection>, users: map<string, UserDoc>, userId: string, num: int,
                 def: AssessmentDef, prediction: Prediction, env: Env): (o: Outcome)
    ensures |o.log| == |log| + 1 && o.log[..|log|] == log
    ensures o.log[|log|] == Detection(userId, num, env.stampClock, prediction.letter, prediction.confidence)
    ensures o.page.Scored? || o.page == ServerError
    ensures o.page.Scored? ==>
              o.page.taskResults == TaskResults(o.log, userId, num, def.tasks, env.windowClock - def.windowSeconds)
    ensures o.page.Scored? ==> (|o.page.taskResults| == |def.tasks| &&
              (o.page.overallPass <==> forall i :: 0 <= i < |def.tasks| ==> o.page.taskResults[i].passed))
    ensures o.users != users ==> o.page.Scored? && o.page.overallPass
  {
    var log' := log + [Detection(userId, num, env.stampClock, prediction.letter, prediction.confidence)];
    var results := TaskResults(log', userId, num, def.tasks, env.windowClock - def.windowSeconds);
    var page := Scored(prediction.letter, prediction.confidence, results, AllPassed(results));
    if !AllPassed(results) then Outcome(page, log', users)
    else match ObjectIdOf(userId)
      case None => Outcome(ServerError, log', users)
      case Some(id) => Outcome(page, log', UpdateUser(users, id, AssessmentTitle(def, num), num))
  }

  /** GET and POST /training/lesson/<num>/assessment. */
  method Assessment(db: Database, session: Session, num: int, isPost: bool, body: Option<Json>, env: Env)
    returns (page: Page)
    modifies db
    ensures Outcome(page, db.detections, db.users) ==
            AssessmentSpec(old(db.detections), old(db.users), session, num, isPost, body, env)
  {
    var userId := UserIdOf(session);
    if userId == "" {
      if isPost {
        return JsonError(401, NotLoggedInText);
      }
      return RedirectToLogin;
    }
    var lesson := LessonOf(num);
    var def := AssessmentOf(num);
    if lesson.None? || def.None? {
      return RedirectToLessons;
    }
    if !isPost {
      return AssessmentPage(lesson.value, num, def.value.tasks);
    }
    var points := PointsOf(body);
    if points.PointsCrash? {
      return ServerError;
    }
    if points.PointsInvalid? {
      return JsonError(400, InvalidLandmarksText);
    }
    var prediction := ReadPrediction(env.ml(points.points), env.parseFloat);
    if prediction.None? {
      return JsonError(500, PredictionFailedText);
    }
    if !env.insertOk {
      return JsonError(500, SaveFailedText);
    }
    page := StoreAndScore(db, userId, num, def.value, prediction.value, env);
  }

  /** The POST once the prediction is read: store the detection, count the
      tasks and, on a pass, record progress. */
  method StoreAndScore(db: Database, userId: string, num: int, def: AssessmentDef, prediction: Prediction, env: Env)
    returns (page: Page)
    requires env.insertOk
    modifies db
    ensures Outcome(page, db.detections, db.users) ==
            Score(old(db.detections), old(db.users), userId, num, def, prediction, env)
  {
    db.InsertOne(Detection(userId, num, env.stampClock, prediction.letter, prediction.confidence));
    var results, overall := CheckTasks(db, userId, num, def, env.windowClock);
    if overall {
      var title := AssessmentTitle(def, num);
      var id := ObjectIdOf(userId);
      if id.None? {
        return ServerError;
      }
      db.AddToSetProgress(id.value, title, num);
    }
    page := Scored(prediction.letter, prediction.confidence, results, overall);
  }

  // ---------------------------------------------------------------------
  // Properties of the assessment route

  /** A POST without a signed-in user answers 401 and touches neither the
      detections nor any progress; a GET is sent to the login page. */
  lemma NotLoggedInRefused(log: seq<Detection>, users: map<string, UserDoc>, session: Session, num: int,
                           isPost: bool, body: Option<Json>, env: Env)
    requires UserIdOf(session) == ""
    ensures var o := AssessmentSpec(log, users, session, num, isPost, body, env);
      o.log == log && o.users == users &&
      o.page == (if isPost then JsonError(401, NotLoggedInText) else RedirectToLogin)
  {
  }

  /** A lesson number outside LESSON_MAP or ASSESSMENTS sends a signed-in
      user back to the lesson list before the store is used. */
  lemma UnknownLessonRedirected(log: seq<Detection>, users: map<string, UserDoc>, session: Session, num: int,
                                isPost: bool, body: Option<Json>, env: Env)
    requires UserIdOf(session) != "" && !(1 <= num <= 5)
    ensures AssessmentSpec(log, users, session, num, isPost, body, env) == Outcome(RedirectToLessons, log, users)
  {
    LessonMapDomain(num);
    AssessmentTable(num);
  }

  /** The state in which the POST branch reaches its own checks: a user is
      signed in and the lesson and its assessment exist. */
  predicate PostReached(session: Session, num: int, isPost: bool) {
    UserIdOf(session) != "" && 1 <= num <= 5 && isPost
  }

  /** A missing or falsy body or `points`, or `points` whose length is not
      21, gives 400 "Invalid landmarks" and appends nothing. */
  lemma InvalidLandmarksRefused(log: seq<Detection>, users: map<string, UserDoc>, session: Session, num: int,
                                body: Option<Json>, env: Env)
    requires PostReached(session, num, true)
    requires body.None? || !Truthy(body.value) ||
      (body.value.JObj? &&
        var points := Get(body.value.fields, "points");
        !Truthy(points) || (PyLen(points).Some? && PyLen(points).value != 21))
    ensures AssessmentSpec(log, users, session, num, true, body, env) ==
            Outcome(JsonError(400, InvalidLandmarksText), log, users)
  {
    LessonMapDomain(num);
    AssessmentTable(num);
  }

  /** When the classifier call raises, answers with an error status, or
      gives no letter or an empty one, the answer is 500 and nothing is
      appended. */
  lemma PredictionFailureRefused(log: seq<Detection>, users: map<string, UserDoc>, session: Session, num: int,
                                 body: Option<Json>, env: Env)
    requires PostReached(session, num, true) && PointsOf(body).PointsOk?
    requires var reply := env.ml(PointsOf(body).points);
      reply.MlRaised? || !reply.ok ||
      (reply.body.Some? && reply.body.value.JObj? && !Truthy(Get(reply.body.value.fields, "letter")))
    ensures AssessmentSpec(log, users, session, num, true, body, env) ==
            Outcome(JsonError(500, PredictionFailedText), log, users)
  {
    LessonMapDomain(num);
    AssessmentTable(num);
  }

  /** A prediction is logged as exactly one new detection at the end of the
      log, with the user, the lesson, the letter, the confidence and the
      first clock reading; earlier entries stay as they were. If the insert
      fails the answer is 500 and neither the log nor any progress changes. */
  lemma DetectionAppended(log: seq<Detection>, users: map<string, UserDoc>, session: Session, num: int,
                          body: Option<Json>, env: Env)
    requires PostReached(session, num, true) && PointsOf(body).PointsOk?
    requires ReadPrediction(env.ml(PointsOf(body).points), env.parseFloat).Some?
    ensures var o := AssessmentSpec(log, users, session, num, true, body, env);
      var p := ReadPrediction(env.ml(PointsOf(body).points), env.parseFloat).value;
      if env.insertOk then
        o.log == log + [Detection(UserIdOf(session), num, env.stampClock, p.letter, p.confidence)]
      else
        o == Outcome(JsonError(500, SaveFailedText), log, users)
  {
    LessonMapDomain(num);
    AssessmentTable(num);
  }

  /** Whatever the request, the log either stays as it was or gains one
      detection of this user and lesson at its end. */
  lemma LogOnlyGrows(log: seq<Detection>, users: map<string, UserDoc>, session: Session, num: int,
                     isPost: bool, body: Option<Json>, env: Env)
    ensures var o := AssessmentSpec(log, users, session, num, isPost, body, env);
      o.log == log ||
      (|o.log| == |log| + 1 && o.log[..|log|] == log &&
       o.log[|log|].userId == UserIdOf(session) && o.log[|log|].lessonId == num)
  {
    var o := AssessmentSpec(log, users, session, num, isPost, body, env);
    if o.log != log {
      assert o.log[..|log|] == log;
    }
  }

  /** A request that grows the log, changes a user or is answered with
      scores went all the way to the stored detection, and the rest is
      Score. */
  lemma ReachedScore(log: seq<Detection>, users: map<string, UserDoc>, session: Session, num: int,
                     isPost: bool, body: Option<Json>, env: Env)
    requires var o := AssessmentSpec(log, users, session, num, isPost, body, env);
      o.log != log || o.users != users || o.page.Scored?
    ensures UserIdOf(session) != "" && isPost && AssessmentOf(num).Some? && PointsOf(body).PointsOk?
    ensures var p := ReadPrediction(env.ml(PointsOf(body).points), env.parseFloat);
      p.Some? && env.insertOk &&
      AssessmentSpec(log, users, session, num, isPost, body, env) ==
      Score(log, users, UserIdOf(session), num, AssessmentOf(num).value, p.value, env)
  {
  }

  /** A scored answer reports one result per task of the lesson's
      assessment, in order, counted over the log with the new detection and
      the window ending at the second clock reading; `overall_pass` is the
      conjunction of the tasks' `passed`. */
  lemma ScoredResults(log: seq<Detection>, users: map<string, UserDoc>, session: Session, num: int,
                      isPost: bool, body: Option<Json>, env: Env)
    requires AssessmentSpec(log, users, session, num, isPost, body, env).page.Scored?
    ensures var o := AssessmentSpec(log, users, session, num, isPost, body, env);
      AssessmentOf(num).Some? &&
      var def := AssessmentOf(num).value;
      o.page.taskResults == TaskResults(o.log, UserIdOf(session), num, def.tasks, env.windowClock - def.windowSeconds) &&
      |o.page.taskResults| == |def.tasks| &&
      (o.page.overallPass <==> forall i :: 0 <= i < |def.tasks| ==> o.page.taskResults[i].passed)
  {
    ReachedScore(log, users, session, num, isPost, body, env);
    var p := ReadPrediction(env.ml(PointsOf(body).points), env.parseFloat).value;
    var o := AssessmentSpec(log, users, session, num, isPost, body, env);
    ScoreResults(o, log, users, UserIdOf(session), num, AssessmentOf(num).value, p, env);
  }

  /** What Score promises about a scored outcome, for an outcome known to
      be Score's only through an equation. */
  lemma ScoreResults(o: Outcome, log: seq<Detection>, users: map<string, UserDoc>, userId: string, num: int,
                     def: AssessmentDef, prediction: Prediction, env: Env)
    requires o == Score(log, users, userId, num, def, prediction, env) && o.page.Scored?
    ensures o.page.taskResults == TaskResults(o.log, userId, num, def.tasks, env.windowClock - def.windowSeconds)
    ensures |o.page.taskResults| == |def.tasks|
    ensures o.page.overallPass <==> forall i :: 0 <= i < |def.tasks| ==> o.page.taskResults[i].passed
  {
  }

  /** Progress changes only on a scored pass, and then only by adding the
      lesson number and the assessment title to the progress of the user
      whose ObjectId is the session's user id. */
  lemma ProgressOnlyOnPass(log: seq<Detection>, users: map<string, UserDoc>, session: Session, num: int,
                           isPost: bool, body: Option<Json>, env: Env)
    ensures var o := AssessmentSpec(log, users, session, num, isPost, body, env);
      o.users == users ||
      (o.page.Scored? && o.page.overallPass && ObjectIdOf(UserIdOf(session)).Some? &&
       AssessmentOf(num).Some? &&
       o.users == UpdateUser(users, ObjectIdOf(UserIdOf(session)).value, AssessmentTitle(AssessmentOf(num).value, num), num))
  {
    if AssessmentSpec(log, users, session, num, isPost, body, env).users != users {
      ReachedScore(log, users, session, num, isPost, body, env);
    }
  }

  /** Passing the same assessment again leaves the progress as the first
      pass left it. */
  lemma RepeatedPassKeepsProgress(users: map<string, UserDoc>, id: string, title: string, num: int)
    ensures UpdateUser(UpdateUser(users, id, title, num), id, title, num) == UpdateUser(users, id, title, num)
  {
    if id in users {
      RecordPassIdempotent(users[id], title, num);
    }
  }

  /** The session keeps the user name as its user id, and a name that is
      not 24 hexadecimal digits is not an ObjectId: such a user's passing
      attempt is logged and then fails with a server error, and the
      progress stays as it was. */
  lemma PassWithoutObjectIdFails(log: seq<Detection>, users: map<string, UserDoc>, session: Session, num: int,
                                 body: Option<Json>, env: Env)
    requires PostReached(session, num, true) && ObjectIdOf(UserIdOf(session)).None?
    requires AssessmentSpec(log, users, session, num, true, body, env).log != log
    requires var o := AssessmentSpec(log, users, session, num, true, body, env);
      AllPassed(TaskResults(o.log, UserIdOf(session), num, AssessmentOf(num).value.tasks,
                            env.windowClock - AssessmentOf(num).value.windowSeconds))
    ensures var o := AssessmentSpec(log, users, session, num, true, body, env);
      o.page == ServerError && |o.log| == |log| + 1 && o.users == users
  {
    ReachedScore(log, users, session, num, true, body, env);
  }

  /** Three matching detections pass a task that asks for three; one does
      not. */
  lemma CheckTasksExamples(now: real)
    ensures var d := Detection("u1", 1, now, JStr("A"), 0.9);
      var tasks := [Task("Sign A", "A", 3, 0.5)];
      AllPassed(TaskResults([d, d, d], "u1", 1, tasks, now - 60.0)) &&
      !AllPassed(TaskResults([d], "u1", 1, tasks, now - 60.0))
  {
    var d := Detection("u1", 1, now, JStr("A"), 0.9);
    var q := TaskQuery("u1", 1, Task("Sign A", "A", 3, 0.5), now - 60.0);
    assert Matches(d, q);
    assert [d, d, d][..2] == [d, d] && [d, d][..1] == [d] && [d][..0] == [];
    assert Count([d], q) == 1;
    assert Count([d, d, d], q) == 3;
  }
}
