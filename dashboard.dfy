/** The dashboard page (web-app/routes/dashboard.py): the signed-in user's
    document is looked up by ObjectId, and the lesson numbers of its
    progress are shown as lesson titles next to the assessment titles. */
module Dashboard {
  import opened Common
  import opened Documents
  import Training

  datatype HomePage =
    | RedirectToLogin
    | DashboardPage(username: string, lessonsCompleted: seq<string>, assessmentsTaken: seq<string>)
    | ServerError

  /** The answer and the session it leaves behind. */
  datatype HomeOutcome = HomeOutcome(page: HomePage, session: Session)

  /** `LESSON_MAP.get(lesson_id, {}).get("title", f"Lesson {lesson_id}")`. */
  function LessonTitle(id: int): (t: string)
    ensures 1 <= id <= 5 ==> t == Training.Lessons[id - 1].title
    ensures !(1 <= id <= 5) ==> t == "Lesson " + IntToString(id)
  {
    Training.LessonMapDomain(id);
    match Training.LessonOf(id)
    case Some(lesson) => lesson.title
    case None => "Lesson " + IntToString(id)
  }

  /** The list comprehension over the completed lesson ids. */
  function LessonTitles(ids: seq<int>): (titles: seq<string>)
    ensures |titles| == |ids|
    ensures forall i :: 0 <= i < |ids| ==> titles[i] == LessonTitle(ids[i])
  {
    if ids == [] then [] else [LessonTitle(ids[0])] + LessonTitles(ids[1..])
  }

  /** GET /dashboard/. The page is the dashboard exactly for a session
      whose user id names a stored user; an id that is no ObjectId raises;
      the session is cleared only when the id names nobody. */
  function Home(session: Session, users: map<string, UserDoc>): (o: HomeOutcome)
    ensures o.page.DashboardPage? <==>
      "user_id" in session && ObjectIdOf(session["user_id"]).Some? && ObjectIdOf(session["user_id"]).value in users
    ensures o.page == ServerError <==> "user_id" in session && ObjectIdOf(session["user_id"]).None?
    ensures o.session != session ==> o.session == map[] && o.page == RedirectToLogin
  {
    if "user_id" !in session then HomeOutcome(RedirectToLogin, session)
    else match ObjectIdOf(session["user_id"])
      case None => HomeOutcome(ServerError, session)
      case Some(id) =>
        if id !in users then HomeOutcome(RedirectToLogin, map[])
        else
          var user := users[id];
          var progress := if user.progress.Some? then user.progress.value else Progress(None, None);
          HomeOutcome(DashboardPage(
            if user.username.Some? then user.username.value else "User",
            LessonTitles(OrEmpty(progress.lessonsCompleted)),
            OrEmpty(progress.assessmentsTaken)), session)
  }

  /** Without a user id in the session the visitor is sent to the login
      page and the session is left alone. */
  lemma SignedOutRedirected(session: Session, users: map<string, UserDoc>)
    requires "user_id" !in session
    ensures Home(session, users) == HomeOutcome(RedirectToLogin, session)
  {
  }

  /** A user id that names no stored user clears the session and sends the
      visitor to the login page. */
  lemma UnknownUserSignedOut(session: Session, users: map<string, UserDoc>)
    requires "user_id" in session && ObjectIdOf(session["user_id"]).Some?
    requires ObjectIdOf(session["user_id"]).value !in users
    ensures Home(session, users) == HomeOutcome(RedirectToLogin, map[])
  {
  }

  /** The page of a stored user: the name (or "User"), one title per
      completed lesson id in the stored order, and the stored assessment
      titles unchanged, with missing progress read as empty lists. */
  lemma DashboardShowsProgress(session: Session, users: map<string, UserDoc>)
    requires "user_id" in session && ObjectIdOf(session["user_id"]).Some?
    requires ObjectIdOf(session["user_id"]).value in users
    ensures var user := users[ObjectIdOf(session["user_id"]).value];
      var o := Home(session, users);
      var ids := if user.progress.Some? then OrEmpty(user.progress.value.lessonsCompleted) else [];
      o.session == session && o.page.DashboardPage? &&
      (user.username.Some? ==> o.page.username == user.username.value) &&
      (user.username.None? ==> o.page.username == "User") &&
      |o.page.lessonsCompleted| == |ids| &&
      (forall i :: 0 <= i < |ids| ==> o.page.lessonsCompleted[i] == LessonTitle(ids[i])) &&
      o.page.assessmentsTaken == (if user.progress.Some? then OrEmpty(user.progress.value.assessmentsTaken) else [])
  {
  }

  /** After a recorded pass the dashboard of that user lists the lesson's
      title and the assessment's title. */
  lemma PassShownOnDashboard(session: Session, users: map<string, UserDoc>, title: string, num: int)
    requires "user_id" in session && ObjectIdOf(session["user_id"]).Some?
    requires ObjectIdOf(session["user_id"]).value in users
    ensures var after := UpdateUser(users, ObjectIdOf(session["user_id"]).value, title, num);
      var page := Home(session, after).page;
      page.DashboardPage? && LessonTitle(num) in page.lessonsCompleted && title in page.assessmentsTaken
  {
    var id := ObjectIdOf(session["user_id"]).value;
    var after := UpdateUser(users, id, title, num);
    var ids := OrEmpty(after[id].progress.value.lessonsCompleted);
    assert num in ids;
    var k :| 0 <= k < |ids| && ids[k] == num;
    assert LessonTitles(ids)[k] == LessonTitle(num);
  }

  /** The session holds the user name as its user id, so a user whose name
      is not 24 hexadecimal digits gets a server error instead of a
      dashboard. */
  lemma NameAsIdFails(session: Session, users: map<string, UserDoc>, username: string)
    requires ObjectIdOf(username).None?
    ensures Home(session["user_id" := username], users).page == ServerError
  {
  }
}
