# ASL trainer: a Dafny model

This is a verified model of the ASL (American Sign Language) alphabet trainer. The trainer has two parts:

- **The web app.** Users register and log in, and open lessons. In a lesson's assessment they sign letters in front of the webcam. Every frame's hand landmarks go to the classifier service. Each prediction is stored as a *detection* in MongoDB. A task passes when enough recent, confident detections of its letter exist. When every task passes, the lesson and the assessment title are added to the user's progress, and the dashboard shows that progress.
- **The machine-learning client.** It holds:
  - the `/predict` and `/health` service;
  - the landmark normalizer shared by training and inference;
  - the ASL-MNIST dataset wrapper, with its throttling-aware download loop;
  - the webcam sample recorder.

Each source file is one module:

| module | file | what it holds |
|---|---|---|
| `Training` | training.dfy | the lesson and assessment tables, the lesson routes, the assessment route |
| `Documents` | store.dfy | the `detections` log and the `users` documents, as class `Database` |
| `InferenceApi` | inference.dfy | `/predict`, `/health` |
| `Normalizer` | normalizer.dfy | `normalize_landmarks` |
| `AslDataset` | dataset.dfy | label maps, retry loop, `__getitem__` |
| `Auth` | auth.dfy | the user store and the session, as class `AuthService` |
| `Dashboard` | dashboard.dfy | the dashboard page |
| `Recorder` | recorder.dfy | the recording loop and its label map |

Two further modules hold shared pieces:

- `Common` (common.dfy): Option, decimal digits, substrings, the Flask session.
- `JsonValue` (json.dfy): JSON values with Python's truthiness and `len`.

Code that changes state is imperative Dafny, each piece proved against a function that specifies it:

- `Training.Assessment` runs on a `Database` object and is proved equal to `Training.AssessmentSpec`.
- Its task loop, `Training.CheckTasks`, is proved equal to `Training.TaskResults`.
- `Documents.Database.CountDocuments` is proved equal to `Documents.Count`.
- `AslDataset.LoadWithRetries` is proved equal to `AslDataset.RetryFrom`.
- `Recorder.RecordSamples` is proved equal to `Recorder.Run`.
- `Auth.AuthService` updates its `users` and `session` fields in place.

Pure code is written as functions, and the properties are lemmas about those functions.

Everything outside the program is a parameter:

- the classifier's reply, the clock readings and whether the insert succeeds (`Training.Env`);
- the classifier, the float parser, the square root, and the answer for NaN features (`InferenceApi.Service`);
- the download attempts (`load`);
- the landmark extractor and the camera frames;
- the password hash and its check.

## Model

| member | source | states |
|---|---|---|
| Training.FindLesson | web-app/routes/training.py:53 | the entry found is in the table and has the id asked for; no entry has that id when none is found |
| Training.LessonMapDomain | web-app/routes/training.py:25-53 | LESSON_MAP has a lesson exactly for the numbers 1 to 5, and lesson n is the n-th entry of LESSONS |
| Training.LessonOf | web-app/routes/training.py:53 | `LESSON_MAP.get(num)` gives a lesson of LESSONS with id num, and gives one exactly when num is 1 to 5, the ids LESSONS holds |
| Training.ImageFor | web-app/routes/training.py:55-61 | a number without a picture gets "all_letters.png" |
| Training.AssessmentTable | web-app/routes/training.py:65-162 | ASSESSMENTS has an entry exactly for the lessons of LESSON_MAP; each entry has a title, a window of at least 60 s and at least two tasks; every task asks for 3 repetitions of one letter at confidence 0.6 |
| Training.AssessmentOf | web-app/routes/training.py:65-162 | `ASSESSMENTS.get(num)` gives an assessment exactly for the numbers 1 to 5 |
| Training.AssessmentTitle | web-app/routes/training.py:276-278 | the stored title, or "Lesson {num} Assessment" when there is none |
| Training.LessonsRoute | web-app/routes/training.py:169-174 | the login redirect exactly when the session has no user_id; otherwise the page of all lessons |
| Training.LessonRoute | web-app/routes/training.py:177-192 | login redirect when signed out; lessons redirect for an unknown number; a lesson page carries that lesson's description and picture |
| Training.LessonPageShown | web-app/routes/training.py:177-192 | a lesson page is shown exactly to a signed-in user for lessons 1 to 5, with the description from LESSONS |
| Training.UserIdOf | web-app/routes/training.py:198-199 | the user id is non-empty (truthy) exactly when the session holds a non-empty user_id, and is then that id |
| Training.PyFloat | web-app/routes/training.py:225 | Python's float() on a JSON value: numbers as they are, booleans as 1.0 and 0.0, null, lists and objects raise |
| Training.ReadPrediction | web-app/routes/training.py:219-231 | an exception or a non-ok reply gives no prediction; a prediction has a non-empty letter from the reply and its confidence, or 0.0 when the reply has none |
| Training.PredictionRead | web-app/routes/training.py:223-228 | an ok reply with a non-empty letter and a numeric or missing confidence always gives a prediction |
| Training.NoLetterFails | web-app/routes/training.py:227-228 | a reply whose letter is missing or empty is a failure |
| Training.PointsOf | web-app/routes/training.py:212-216 | the points pass only from an object body whose "points" has length 21; a missing or falsy body or "points" is refused |
| Training.PointsCrashIff | web-app/routes/training.py:212-216 | the check raises exactly for a truthy body that is not an object, or a truthy "points" without a length |
| Training.OnlyLengthChecked | web-app/routes/training.py:215 | any "points" of length 21 passes, whatever its elements |
| Training.TaskQueryMatches | web-app/routes/training.py:252-260 | the filter matches a detection exactly when it has this user and lesson, a label equal to the target letter or an array holding it, a confidence at or above the task's minimum, and a timestamp at or after the window start |
| Training.Evaluate | web-app/routes/training.py:262-271 | a result copies its task and is passed exactly when the count reaches min_repetitions |
| Training.TaskResults | web-app/routes/training.py:251-271 | one result per task in definition order; result i is task i evaluated on the count of its filter over the log |
| Training.TaskPassedIff | web-app/routes/training.py:249-271 | matched_count is the number of log positions the task's filter matches, and passed holds exactly when it reaches min_repetitions |
| Training.OthersNeverCount | web-app/routes/training.py:252-260 | detections of other users or other lessons, put before or after the log, change no task result |
| Training.CheckTasks | web-app/routes/training.py:248-273 | the loop over the tasks builds exactly TaskResults over the stored log, with the window ending at `now`; overall_pass is the conjunction of the passed flags |
| Training.Assessment | web-app/routes/training.py:195-303 | the route's answer, its detection log and its user documents are those of AssessmentSpec applied to the state before the call |
| Training.AssessmentSpec | web-app/routes/training.py:195-303 | the route as a function of the state before it: a GET and every JSON refusal leave the log and the users unchanged |
| Training.Score | web-app/routes/training.py:233-296 | after a stored detection: the log gains exactly that detection; the answer is scores or a server error; the scores have one result per task and pass exactly when every task does; users change only on a pass |
| Training.StoreAndScore | web-app/routes/training.py:233-296 | storing the detection, scoring and recording a pass leave the state and answer Score gives |
| Training.NotLoggedInRefused | web-app/routes/training.py:198-202 | without a user id, a POST answers 401 "Not logged in" and a GET redirects to login; neither the log nor any progress changes |
| Training.UnknownLessonRedirected | web-app/routes/training.py:204-207 | a signed-in request for a number outside 1 to 5 redirects to the lessons and changes nothing |
| Training.InvalidLandmarksRefused | web-app/routes/training.py:212-216 | a missing or falsy body or "points", or "points" of a length other than 21, gives 400 "Invalid landmarks" and changes nothing |
| Training.PredictionFailureRefused | web-app/routes/training.py:218-231 | a classifier call that raises, answers not-ok or gives no letter gives 500 "Failed to get prediction" and changes nothing |
| Training.DetectionAppended | web-app/routes/training.py:233-245 | after a prediction, the log is the old log plus exactly the detection of this user, lesson, letter, confidence and first clock reading; a failed insert gives 500 and changes nothing |
| Training.LogOnlyGrows | web-app/routes/training.py:195-303 | every request leaves the log as it was or adds one detection of this user and lesson at its end, keeping earlier entries |
| Training.ReachedScore | web-app/routes/training.py:195-245 | a request that changes the log or the users, or is answered with scores, passed every earlier check and stored its detection |
| Training.ScoredResults | web-app/routes/training.py:248-296 | a scored answer holds one result per task, counted over the grown log with the window measured from the second clock reading; overall_pass holds exactly when every task passed |
| Training.ProgressOnlyOnPass | web-app/routes/training.py:273-287 | user documents change only on a scored pass, and then only by the `$addToSet` of the title and the lesson for the user whose ObjectId is the session's user id |
| Training.RepeatedPassKeepsProgress | web-app/routes/training.py:279-287 | recording the same pass twice gives the same documents as recording it once |
| Training.PassWithoutObjectIdFails | web-app/routes/training.py:275-287 | a passing attempt by a user id that is not 24 hex digits is logged, then answered with a server error, and changes no progress |
| Training.CheckTasksExamples | web-app/tests/test_training.py:107-158 | three matching detections pass a three-repetition task; one does not |
| Documents.ObjectIdOf | web-app/routes/training.py:280 | a string is an ObjectId exactly when it has 24 hex digits; the id's text is lower-case |
| Documents.ObjectIdCanonical | web-app/routes/dashboard.py:20 | the canonical text of an id names the same id |
| Documents.Count | web-app/routes/training.py:252-260 | the number of matches is at most the length of the log |
| Documents.LabelMatchesCases | web-app/routes/training.py:252-260 | a stored label matches the letter when it is that string, or an array with that string as an element; no other label matches |
| Documents.CountIsMatchingPositions | web-app/routes/training.py:252-260 | the count is the number of log positions whose detection matches the filter |
| Documents.CountAppend | web-app/routes/training.py:242 | appending a detection adds one to a count exactly when it matches |
| Documents.CountConcat | web-app/routes/training.py:252-260 | the count over two logs joined is the sum of their counts |
| Documents.CountNoneMatching | web-app/routes/training.py:252-260 | a log with no matching entry counts zero |
| Documents.CountIgnoresNonMatching | web-app/routes/training.py:252-260 | entries the filter cannot match change no count, before or after the log |
| Documents.AddToSet | web-app/routes/training.py:282-285 | the value is present afterwards, nothing else is added, and the old array is kept as a prefix |
| Documents.AddToSetIdempotent | web-app/routes/training.py:282-285 | adding a value twice is adding it once |
| Documents.AddToSetNoDuplicates | web-app/routes/training.py:282-285 | an array without duplicates keeps having none |
| Documents.RecordPass | web-app/routes/training.py:279-287 | the title joins assessments_taken and the lesson joins lessons_completed, missing progress counting as empty; the name is kept |
| Documents.RecordPassIdempotent | web-app/routes/training.py:279-287 | recording a pass twice is recording it once |
| Documents.UpdateUser | web-app/routes/training.py:279-287 | the matching document gets the pass; other documents are unchanged; an unknown id changes nothing |
| Documents.Database.InsertOne | web-app/routes/training.py:242 | the detection is appended to the log; users unchanged |
| Documents.Database.CountDocuments | web-app/routes/training.py:252-260 | the scan returns Count of the stored log |
| Documents.Database.AddToSetProgress | web-app/routes/training.py:279-287 | the users become UpdateUser of the old users; the log is unchanged |
| InferenceApi.Health | machine-learning-client/src/api.py:49-54 | always 200 with status "ok" |
| InferenceApi.ShapeOf | machine-learning-client/src/api.py:104 | a scalar has shape []; a list's shape starts with its length, and every item has the rest of the shape; a ragged list has none |
| InferenceApi.ToFloat | machine-learning-client/src/api.py:104 | numbers and booleans convert, a string converts exactly when the parser accepts it (ValueError otherwise), null becomes NaN, and a dictionary or a list is a TypeError |
| InferenceApi.AsArray | machine-learning-client/src/api.py:103-109 | a ragged list raises ValueError; otherwise an array of numbers exists exactly when every scalar converts to a number, and has the inferred shape and the converted scalars in row-major order; an array, of numbers or holding NaN, exists exactly when every scalar converts or is null; one holding NaN has the inferred shape and a null scalar |
| InferenceApi.ConvertAll | machine-learning-client/src/api.py:103-109 | the values are numbers exactly when every scalar converts to a number, one value per scalar, in order; the conversion succeeds, NaN included, exactly when every scalar converts or is null |
| InferenceApi.ArgMax | machine-learning-client/src/api.py:131-133 | the index lies within the probabilities |
| InferenceApi.ArgMaxIsFirstMax | machine-learning-client/src/api.py:131-133 | the chosen probability is at least every other, and strictly above every earlier one |
| InferenceApi.LetterFor | machine-learning-client/src/api.py:135 | the mapped letter, or "?" for an unmapped index |
| InferenceApi.Predict | machine-learning-client/src/api.py:84-145 | the status is 200, 400 or 500 |
| InferenceApi.LeavesCount | machine-learning-client/src/api.py:104 | a non-ragged list has as many scalars as the product of its shape |
| InferenceApi.ValidShape | machine-learning-client/src/api.py:111 | 21 lists of three scalars have shape (21, 3) |
| InferenceApi.LeavesLayout | machine-learning-client/src/api.py:104 | the 63 scalars of 21 lists of three are taken row by row: scalar 3i+c is coordinate c of landmark i |
| InferenceApi.ShapeRows | machine-learning-client/src/api.py:111 | 21 items of shape (21, 3) are 21 rows of three scalars |
| InferenceApi.ValidConverts | machine-learning-client/src/api.py:103-122 | 21 valid rows convert to a (21, 3) array whose rows are the landmarks, in order |
| InferenceApi.ConvertsValid | machine-learning-client/src/api.py:103-122 | 21 items that convert to a (21, 3) array of numbers are 21 valid rows |
| InferenceApi.AcceptedConverts | machine-learning-client/src/api.py:103-122 | 21 rows of three scalars that convert or are null give a (21, 3) array, of numbers or holding NaN |
| InferenceApi.ConvertsAccepted | machine-learning-client/src/api.py:103-122 | 21 items that give a (21, 3) array, of numbers or holding NaN, are 21 rows of three scalars that convert or are null |
| InferenceApi.NoBodyRefused | machine-learning-client/src/api.py:84-87 | an absent or non-JSON body gives 400 "Invalid or missing JSON body" |
| InferenceApi.MissingPointsRefused | machine-learning-client/src/api.py:89-92 | a missing or null "points" gives 400 "Missing 'points' field" |
| InferenceApi.NotAListOf21Refused | machine-learning-client/src/api.py:94-101 | a "points" that is not a list of 21 gives 400 mentioning "list of length 21" |
| InferenceApi.UnconvertibleRefused | machine-learning-client/src/api.py:103-109 | a list numpy cannot convert gives 400 "Could not convert 'points' to a float32 array" |
| InferenceApi.WrongShapeRefused | machine-learning-client/src/api.py:111-122 | a convertible list, NaN included, whose shape is not (21, 3) gives 400 "Expected 'points' shape (21, 3)" |
| InferenceApi.PredictOkIffValid | machine-learning-client/src/api.py:84-145 | the answer is 200 exactly when the body is an object whose "points" is 21 rows of three scalars numpy reads: numbers, booleans, strings the parser accepts, or null |
| InferenceApi.NaNAnswer | machine-learning-client/src/api.py:124-145 | the answer for features holding NaN is 200 with the letter mapped to the index `probs.max` picks among NaN probabilities |
| InferenceApi.NullCoordinateAnswered | machine-learning-client/src/api.py:103-145 | 21 rows numpy reads with a null coordinate are answered 200 with the answer for NaN features, whatever the other coordinates are |
| InferenceApi.PredictAnswer | machine-learning-client/src/api.py:124-145 | on a valid body, the letter is the one mapped to the first most probable class of the normalized landmarks ("?" if unmapped); the confidence is that class's probability, lies in [0, 1] and is the largest |
| InferenceApi.RefusalIgnoresModel | machine-learning-client/src/api.py:84-122 | for a body that is not 21 rows numpy reads, the answer does not depend on the classifier or the label table, and is never 200 |
| InferenceApi.ZeroPointsAnswered | machine-learning-client/tests/test_api.py:27-45 | 21 rows of three zeros are answered 200 with a letter and a numeric confidence in [0, 1] |
| InferenceApi.NullCoordinateExample | machine-learning-client/src/api.py:103-145 | a null first coordinate with zeros elsewhere is answered 200, with the answer for NaN features |
| InferenceApi.PairsRefused | machine-learning-client/tests/test_api.py:92-104 | 21 pairs are refused for their shape |
| InferenceApi.LettersRefused | machine-learning-client/tests/test_api.py:107-116 | 21 rows of letters are refused as unconvertible |
| Normalizer.Centered | machine-learning-client/src/mediapipe_utils.py:80-81 | every row is the landmark minus the wrist |
| Normalizer.FarthestIsMax | machine-learning-client/src/mediapipe_utils.py:84-85 | the chosen row has the largest squared norm |
| Normalizer.MaxSqDistIsMax | machine-learning-client/src/mediapipe_utils.py:84-85 | the largest squared wrist distance bounds every landmark's, and the farthest landmark attains it |
| Normalizer.ScaleFactor | machine-learning-client/src/mediapipe_utils.py:84-85 | the factor is the non-negative square root of the largest squared wrist distance |
| Normalizer.Normalize | machine-learning-client/src/mediapipe_utils.py:66-89 | 21 landmarks give 63 features |
| Normalizer.FlattenRows | machine-learning-client/src/mediapipe_utils.py:89 | positions 3i to 3i+2 of the flat vector hold row i |
| Normalizer.NormalizeRows | machine-learning-client/src/mediapipe_utils.py:80-89 | row i of the output is landmark i minus the wrist, divided by the largest wrist distance when that is positive |
| Normalizer.WristIsZero | machine-learning-client/src/mediapipe_utils.py:80-81 | the wrist row of the output is zero |
| Normalizer.MaxSqDistZeroIffAllAtWrist | machine-learning-client/src/mediapipe_utils.py:84-86 | the largest wrist distance is zero exactly when every landmark equals the wrist |
| Normalizer.ScaleZeroIffAllAtWrist | machine-learning-client/src/mediapipe_utils.py:84-86 | the scale factor is zero exactly when every landmark equals the wrist |
| Normalizer.AllAtWristZeroRows | machine-learning-client/src/mediapipe_utils.py:84-89 | when every landmark equals the wrist, every output row is zero |
| Normalizer.NonZeroRow | machine-learning-client/src/mediapipe_utils.py:84-89 | otherwise some output row is not zero |
| Normalizer.DegenerateIffAllZero | machine-learning-client/src/mediapipe_utils.py:84-89 | the output is all zeros exactly when every landmark equals the wrist |
| Normalizer.UnitMaxNorm | machine-learning-client/src/mediapipe_utils.py:83-87 | unless every landmark equals the wrist, the factor is positive, no output row has norm above 1, and some row has norm exactly 1 |
| Normalizer.TranslationInvariant | machine-learning-client/src/mediapipe_utils.py:80-81 | adding one vector to every landmark leaves the output unchanged |
| Normalizer.ExampleMaxSqDist | machine-learning-client/src/mediapipe_utils.py:83-85 | the largest squared wrist distance of a hand with one landmark at (2, 0, 0) and the rest at the origin is 4 |
| Normalizer.ExampleScale | machine-learning-client/src/mediapipe_utils.py:83-85 | the factor of that hand is 2 |
| Normalizer.ExampleRowOne | machine-learning-client/src/mediapipe_utils.py:80-87 | for the hand with landmark 1 at (2, 0, 0) and the rest at the origin, landmark 1's scaled row is (1, 0, 0) |
| Normalizer.UnitPointExample | machine-learning-client/src/mediapipe_utils.py:80-89 | that hand's output has a zero wrist and (1, 0, 0) at landmark 1 |
| AslDataset.PyInt | machine-learning-client/src/dataset_asl_mnist.py:34-37 | Python's int() on a JSON value: non-negative numbers floor, strings are parsed, null, lists and objects raise |
| AslDataset.Convert | machine-learning-client/src/dataset_asl_mnist.py:34-38 | the comprehension succeeds exactly when every key and value converts; the last entry is in the dict with its value |
| AslDataset.ConvertContents | machine-learning-client/src/dataset_asl_mnist.py:34-38 | the dict's keys are exactly the converted keys, and every entry no later entry overrides is found under its key |
| AslDataset.LoadLabelMaps | machine-learning-client/src/dataset_asl_mnist.py:34-39 | the maps load exactly when all three comprehensions succeed; each map has exactly the converted keys of its file object; index_to_letter keeps each letter under int() of its key, letter_to_index maps each letter to int() of its value, raw_label_to_index maps int() of each key to int() of its value (a later duplicate key wins) |
| AslDataset.IntKeyed | machine-learning-client/src/dataset_asl_mnist.py:34 | the file has one entry per table row, with the key written in decimal |
| AslDataset.IntKeyedParses | machine-learning-client/src/dataset_asl_mnist.py:34 | every written key parses back to its integer |
| AslDataset.IntKeyedKeys | machine-learning-client/src/dataset_asl_mnist.py:34 | the written keys convert to exactly the table's keys |
| AslDataset.IntKeyedLast | machine-learning-client/src/dataset_asl_mnist.py:34 | with distinct table keys, no written entry is overridden |
| AslDataset.IntKeysRoundTrip | machine-learning-client/src/dataset_asl_mnist.py:34 | a table with distinct integer keys, written and read back, is the same table |
| AslDataset.RetryFrom | machine-learning-client/src/dataset_asl_mnist.py:82-95 | at most max_retries calls, and at most one sleep per call |
| AslDataset.LoadWithRetries | machine-learning-client/src/dataset_asl_mnist.py:70-95 | the result, the sleeps and the number of calls are those of RetryFrom from attempt 0 |
| AslDataset.Backoff | machine-learning-client/src/dataset_asl_mnist.py:88 | sleep j is base_delay * 2^(a+j) |
| AslDataset.ThrottledRun | machine-learning-client/src/dataset_asl_mnist.py:86-92 | throttled attempts a to k-1 each sleep base_delay * 2^attempt and call once, then the run goes on from k |
| AslDataset.FirstSuccessReturned | machine-learning-client/src/dataset_asl_mnist.py:82-92 | after k throttled attempts, the first success is returned after k sleeps and k + 1 calls |
| AslDataset.OtherFailureReraised | machine-learning-client/src/dataset_asl_mnist.py:93-94 | a failure that is not throttling is raised again at once, with no further call or sleep |
| AslDataset.AllThrottledExceeds | machine-learning-client/src/dataset_asl_mnist.py:82-95 | when every attempt is throttled, RuntimeError comes after exactly max_retries calls, or none when max_retries is 0 or less |
| AslDataset.ThrottledOnceExample | machine-learning-client/tests/test_dataset_asl_mnist.py:37-61 | one 429 and then a success: two calls and one sleep of base_delay |
| AslDataset.GetItem | machine-learning-client/src/dataset_asl_mnist.py:148-164 | an item exists exactly for an index in range whose raw label is mapped and whose landmarks are absent or 21 points; its label is raw_label_to_index of the raw label; its features are 63 zeros without a hand and the normalized landmarks otherwise |
| AslDataset.HandFeaturesUnitScale | machine-learning-client/src/dataset_asl_mnist.py:42-59 | a sample's features from a hand have a zero wrist and, unless all points coincide with it, largest row norm 1 |
| Auth.ValidateRegistration | web-app/routes/auth.py:31-47 | (True, "") exactly for a new name with both fields non-empty and a password of 6 or more; otherwise the first failing check's message, in the order taken name, empty field, short password |
| Auth.ValidateLogin | web-app/routes/auth.py:15-28 | an unknown or missing name is refused; a known one is decided by the hash check |
| Auth.Registered | web-app/routes/auth.py:96 | exactly one entry is added, under the new name; other entries are unchanged |
| Auth.RegisteredCanLogIn | web-app/routes/auth.py:15-28 | a user who just registered can log in with the same password |
| Auth.RegisteredNameTaken | web-app/routes/auth.py:41-42 | a registered name cannot be registered again |
| Auth.AuthService.constructor | web-app/routes/auth.py:12 | the store and the session start empty |
| Auth.AuthService.Register | web-app/routes/auth.py:79-100 | a valid POST adds the account and redirects to login; an invalid one flashes the first failing check's message and leaves the store alone; the session is untouched |
| Auth.AuthService.Login | web-app/routes/auth.py:50-68 | the session gets user_id = the name only when the check succeeds; the store is untouched |
| Auth.AuthService.Logout | web-app/routes/auth.py:71-76 | the whole session is cleared |
| Dashboard.LessonTitle | web-app/routes/dashboard.py:34 | lessons 1 to 5 show their LESSONS title; any other id shows "Lesson {id}" |
| Dashboard.LessonTitles | web-app/routes/dashboard.py:33-36 | one title per id, in the same order |
| Dashboard.Home | web-app/routes/dashboard.py:10-43 | the dashboard is shown exactly when the session's user id names a stored user; an id that is not an ObjectId raises; the session is changed only by clearing it on a login redirect |
| Dashboard.SignedOutRedirected | web-app/routes/dashboard.py:13-14 | without user_id the visitor is sent to login |
| Dashboard.UnknownUserSignedOut | web-app/routes/dashboard.py:20-23 | an id that names no stored user clears the session and redirects to login |
| Dashboard.DashboardShowsProgress | web-app/routes/dashboard.py:25-43 | the page shows the stored name, or "User" when there is none, one title per stored lesson id in order, and the assessment titles unchanged; missing progress reads as empty; the session is kept |
| Dashboard.PassShownOnDashboard | web-app/routes/training.py:279-287 | after a recorded pass, the user's dashboard lists the lesson's title and the assessment's title |
| Dashboard.NameAsIdFails | web-app/routes/dashboard.py:17-20 | a user id that is not 24 hex digits gets a server error instead of a dashboard |
| Recorder.KeyCode | machine-learning-client/src/record_webcam_samples.py:81 | the key code is the low byte |
| Recorder.UpperLetter | machine-learning-client/src/record_webcam_samples.py:89 | a letter key gives its upper-case letter |
| Recorder.StepFrame | machine-learning-client/src/record_webcam_samples.py:44-102 | a failed read or 'q' stops; a letter key only changes the label, to its upper case, when the map has it; otherwise a sample of the normalized hand and the current label's index is appended exactly when a label is set and a hand is seen |
| Recorder.Run | machine-learning-client/src/record_webcam_samples.py:42-102 | over the remaining frames, X and y are only appended to, grow by the same amount and by at most one per frame, and the label stays a letter of the map |
| Recorder.RecordSamples | machine-learning-client/src/record_webcam_samples.py:42-102 | the loop collects exactly the X and y of Run over the frames |
| Recorder.RunConsistent | machine-learning-client/src/record_webcam_samples.py:98-102 | X and y keep equal lengths; every X row has 63 entries; every y entry is an index of the map |
| Recorder.SavedShape | machine-learning-client/src/record_webcam_samples.py:108 | with no samples the saved X has shape (0, 63) |
| Recorder.SavedArraysAgree | machine-learning-client/src/record_webcam_samples.py:108-109 | the saved X has one 63-entry row per y label, and every label is an index of the map |
| Recorder.QuitBeforeLabel | machine-learning-client/src/record_webcam_samples.py:83-95 | 'q' always stops; 'Q' chooses "Q" when the map has it |
| Recorder.LetterKeysUpperCase | machine-learning-client/src/record_webcam_samples.py:88-95 | 'b' and 'B' both choose "B" and record nothing |
| Recorder.NoLabelNoSamples | machine-learning-client/src/record_webcam_samples.py:98 | nothing is recorded until a letter of the map is chosen |
| Recorder.LoadLetterToIndex | machine-learning-client/src/record_webcam_samples.py:22-25 | loads exactly when every index converts; the keys are exactly the file's letters, and each letter maps to int() of its value (a later duplicate wins) |
| Recorder.LoadLetterToIndexExample | machine-learning-client/src/record_webcam_samples.py:25 | {"A": 0, "B": 1} loads as A to 0 and B to 1 |
| JsonValue.PyLen | web-app/routes/training.py:215 | Python's len is defined exactly for strings, lists and objects, and is positive exactly for truthy values |
| Common.ParseInt | machine-learning-client/src/dataset_asl_mnist.py:34-37 | Python's `int(s)` on a string succeeds exactly for digits with an optional sign |
| Common.IntRoundTrip | web-app/routes/training.py:277 | `int()` of the decimal text `f"{n}"` of an integer gives the integer back |
| Common.SubstringAt | machine-learning-client/tests/test_api.py:56-104 | Python's `sub in s` holds as soon as `sub` occurs at some offset of `s` |

## Left out

- I/O is left out: reading label_map.json, the camera and its window, `np.savez`, template rendering, and the flashed messages' storage in the session. The file contents, the frames and the saved arrays are inputs and results instead.
- The classifier network, softmax and training are left out. The classifier is a function parameter that returns probabilities.
- Floating point is left out. Coordinates, confidences and timestamps are reals, so float32 rounding and `np.allclose` tolerances are not modelled.
- Normalizer.Normalize: the square root is a parameter that is assumed to be a true square root, because Dafny's reals have none.
- Numpy's coercion is not modelled exactly. Null is read as NaN, strings go through a float-parser parameter, and exception messages are reduced to their fixed prefix; the numpy error text appended after "Could not convert" is not modelled.
- InferenceApi.NaNAnswer: for a body with a null coordinate, the index `probs.max` picks and the NaN confidence are service parameters (`nanIndex`, `nanConfidence`), not computed from the landmarks. Reals hold no NaN, so the NaN cannot be carried through Normalizer.Normalize and the classifier.
- AslDataset.LoadWithRetries: `time.sleep` is not performed. The sleep durations are returned as a list.
- Documents.Database: MongoDB's atomicity and concurrency are not modelled.
- Documents.Database.CountDocuments and Documents.Database.AddToSetProgress never fail. In the route, `count_documents` and `update_one` run outside any `try`, so a database failure there raises and answers 500 after the detection is already stored; only the failure of `insert_one` is modelled (`Training.Env.insertOk`).
- Documents.UserDoc: a missing field and a null one are not told apart. Both read as absent.
- AslDataset.GetItem takes a natural index, so Python's negative indices are not modelled.
- Common.ParseInt accepts only an optional sign followed by digits. Python's `int()` also accepts surrounding whitespace and underscores, which are not modelled.
- Normalizer.Normalize: the promise that the input array is not modified needs no proof here. Dafny sequences are values.
- Training.AssessmentTable does not state the text of each task's prompt. A statement over the prompts of all 11 tasks was too expensive to prove, so only the letters, repetitions, confidences and windows are stated.
- Some tests target helpers the route files do not define: `call_ml_api`, `save_detection`, `check_tasks` and `update_progress` in web-app/tests/test_training.py, and `append_to_npz` in the recorder's tests. Neither their signatures nor the email-based registration in web-app/tests/test_auth.py are modelled. The behaviour of the inline code is modelled instead; CheckTasks plays the part of `check_tasks`.
- The `users` progress arrays are sequences with `$addToSet` semantics, not sets, so the dashboard shows them in stored order.
- The login route stores the user name as the session's user id. The assessment and the dashboard turn that id into an ObjectId. For a name that is not 24 hexadecimal digits, this raises InvalidId. Training.PassWithoutObjectIdFails and Dashboard.NameAsIdFails state the consequence. The model follows the code rather than guessing at a fix.
