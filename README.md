# TEQuest attempt lifecycle and scoring: a Dafny model

TEQuest is a Django quiz platform. A quiz is either multiple-choice (MCQ) or a
crossword. The core modelled here is how a user takes a quiz:

- starting an attempt, gated by the publication flag, the quiz's time window
  and its attempt limit;
- submitting answers. An MCQ option is checked against the correct letter. A
  crossword answer is compared with the clue's answer after stripping
  surrounding whitespace and lower-casing both.
- finalizing the attempt. Its score is the sum of the points awarded to its
  answers. The user's leaderboard row then gets the better of the old best and
  the new score, and the recount of submitted attempts.
- reading a quiz's leaderboard: the best score first, then the earliest last
  attempt, then the first 100 rows.

The files:

- `models.dfy` (module `Models`): the record shapes, the `is_active` window
  test and the error kinds of the endpoints.
- `scoring.dfy` (module `Scoring`): the MCQ verdict, the Python `strip()` and
  `lower()` over ASCII, and the crossword verdict. There are lemmas for
  case-insensitivity, whitespace-insensitivity and idempotence of the
  normalization.
- `submissions.dfy` (module `SubmissionTables`): answer tables with one row per
  (attempt, item). The module holds `update_or_create` as an upsert, and the
  `Sum('points_awarded')` aggregate with its laws.
- `attempts.dfy` (module `Attempts`): the count of submitted attempts, the best
  submitted score, the attempt score and the start gate.
- `leaderboard.dfy` (module `Leaderboard`): `get_or_create` and the update done
  at finalize time, plus the ordering, the sort, the page of 100 and the
  leaderboard endpoint.
- `invariants.dfy` (module `StoreInvariants`): the invariant that ties the
  tables together, and one preservation lemma per state-changing endpoint. The
  invariant says:
  - each submitted attempt's score equals the sum of its answers' points;
  - each leaderboard row holds the best submitted score and the submitted count
    of its (quiz, user);
  - answer rows are unique per (attempt, item) and consistent with the
    catalogue.
- `views.dfy` (module `Views`): class `Store`. Its fields are the catalogue and
  the four tables the endpoints write. Its methods are `start_attempt`,
  `submit_mcq_answer`, `submit_crossword_answer` and `finalize_attempt`.
- `scenarios.dfy` (module `Scenarios`): concrete request sequences over a small
  catalogue, each with the responses the endpoints give.

How the model represents the source:

- Each table is a sequence of rows in primary-key order. An attempt's id is its
  position in the attempt table.
- The request's user and the current instant (`timezone.now()`) are
  parameters. One instant serves a whole request, so `ended_at` and the
  leaderboard's `last_attempt_at` (set by `auto_now` on save) are equal.
- A method's `selected` or `answer` argument is the value the request
  serializer validated. That value has already had surrounding whitespace
  trimmed and has passed the length check (1 for an option, 64 for an answer).
  A request that leaves the field out is not expressible (see "Left out").

Where the code departs from the system's design notes, the model follows the
code:

- An unknown question or clue id is refused by the request serializer with
  status 400 (`InvalidInput`), not with 404.
- The leaderboard endpoint looks the quiz up without checking that it is
  published.
- The attempt limit is checked only when an attempt starts. A user can open
  several attempts within the limit and finalize all of them, so more
  submitted attempts than `max_attempts` can exist
  (`Scenarios.LimitCheckedOnlyAtStart`).
- `unique_together` on crossword clues is declared in `models.py` but missing
  from migration `0001_initial.py`. The model assumes the `models.py`
  constraint (`ClueKeysUnique`).

## Model

| member | source | states |
|---|---|---|
| Models.IsActive | TEQuestMonolithicContainer/api/models.py:44-50 | a quiz is active exactly when it has no start time or has started, and has no end time or has not ended |
| Models.IsActiveIgnoresPublication | TEQuestMonolithicContainer/api/models.py:44-50 | the publication flag does not affect `is_active` |
| Models.ActiveInstantsAreInterval | TEQuestMonolithicContainer/api/models.py:44-50 | if a quiz is active at two instants, it is active at every instant between them |
| Models.NewAttempt | TEQuestMonolithicContainer/api/models.py:108-111 | the row `Attempt.objects.create` makes: start instant `now`, no end time, score 0, not submitted (a definition without a contract; `Views.Store.StartAttempt` appends it and `Attempts.AppendInProgress` shows it changes no count or best) |
| Models.NewLeaderboardEntry | TEQuestMonolithicContainer/api/models.py:150-152 | the row `get_or_create` makes: best score 0, count 0 (a definition without a contract; `Leaderboard.GetOrCreate` and `Leaderboard.RecordResultSpec` state its use) |
| Scoring.ParseTag | TEQuestMonolithicContainer/api/views.py:155-157 | an option is accepted exactly when it is one of "A", "B", "C", "D", and the accepted tag spells the input |
| Scoring.ParseTagName | TEQuestMonolithicContainer/api/views.py:155-157 | every option letter is accepted as itself (round trip with its name) |
| Scoring.ScoreMcq | TEQuestMonolithicContainer/api/views.py:158-159 | the verdict is correct exactly when the selected tag is the question's correct option; it awards the question's points when correct and 0 otherwise |
| Scoring.ExactlyOneTagCorrect | TEQuestMonolithicContainer/api/views.py:158-159 | the correct option earns the full points; each of the other three earns (false, 0) |
| Scoring.TrimStart | TEQuestMonolithicContainer/api/views.py:178 | the result is a suffix of the input, the removed prefix is all whitespace, and the result does not start with whitespace |
| Scoring.TrimEnd | TEQuestMonolithicContainer/api/views.py:178 | the result is a prefix of the input, the removed suffix is all whitespace, and the result does not end with whitespace |
| Scoring.StripSpec | TEQuestMonolithicContainer/api/views.py:178 | `strip()` yields a contiguous slice with whitespace-only margins and no whitespace at either end |
| Scoring.Strip | TEQuestMonolithicContainer/api/views.py:178 | `strip()` never lengthens its input; what it removes is pinned down by `Scoring.StripSpec` |
| Scoring.Lower | TEQuestMonolithicContainer/api/views.py:178 | `lower()` keeps the length; no capital A-Z remains; each capital becomes its small letter (code point + 32) in place; every other character is kept |
| Scoring.Normalize | TEQuestMonolithicContainer/api/views.py:178 | `strip().lower()` never lengthens its input; it is idempotent by `Scoring.NormalizeIdempotent` |
| Scoring.AnswerMatches | TEQuestMonolithicContainer/api/views.py:178 | a predicate without a contract: the two normalized forms are equal; its behaviour is stated by `Scoring.CaseInsensitive`, `Scoring.WhitespaceInsensitive`, `Scoring.UnpaddedSameLowerMatch` and `Scoring.UnpaddedLengthMismatch` |
| Scoring.ScoreCrossword | TEQuestMonolithicContainer/api/views.py:177-179 | the verdict is correct exactly when the normalized answer equals the normalized clue answer; it awards the clue's points when correct and 0 otherwise |
| Scoring.StripPadded | TEQuestMonolithicContainer/api/views.py:178 | adding whitespace on either side does not change the stripped string |
| Scoring.StripLower | TEQuestMonolithicContainer/api/views.py:178 | stripping and lower-casing commute |
| Scoring.NormalizeIdempotent | TEQuestMonolithicContainer/api/views.py:178 | normalizing twice is normalizing once |
| Scoring.CaseInsensitive | TEQuestMonolithicContainer/api/views.py:178 | answers that differ only in letter case get the same verdict |
| Scoring.WhitespaceInsensitive | TEQuestMonolithicContainer/api/views.py:178 | surrounding whitespace does not change the verdict |
| Scoring.UnpaddedSameLowerMatch | TEQuestMonolithicContainer/api/views.py:178 | two unpadded strings of equal length that agree character by character after lower-casing match |
| Scoring.UnpaddedLengthMismatch | TEQuestMonolithicContainer/api/views.py:178 | two unpadded strings of different lengths never match |
| Scoring.PaddedMixedCaseMatches | TEQuestMonolithicContainer/api/views.py:178 | " Cat " matches the clue answer "CAT" |
| Scoring.LowerCaseMatches | TEQuestMonolithicContainer/api/views.py:178 | "cat" matches "CAT" |
| Scoring.NoFuzzyMatch | TEQuestMonolithicContainer/api/views.py:178 | "cats" and "c at" do not match "CAT": the comparison is exact after normalization |
| SubmissionTables.Find | TEQuestMonolithicContainer/api/views.py:160-163 | the lookup returns the index of a row with the (attempt, item) key, or reports that no row has that key |
| SubmissionTables.FindUnique | TEQuestMonolithicContainer/api/models.py:130-131 | when keys are unique, the lookup of a row's key finds that row |
| SubmissionTables.Upsert | TEQuestMonolithicContainer/api/views.py:160-163 | after `update_or_create` the new row is in the table and the table grew by at most one row; the full contract is `SubmissionTables.UpsertSpec` |
| SubmissionTables.UpsertSpec | TEQuestMonolithicContainer/api/views.py:160-163 | `update_or_create` keeps keys unique; afterwards the new row is present and is the only row with its key; rows with other keys are unchanged; the table grows by one exactly when the key was new |
| SubmissionTables.UpsertOverwrites | TEQuestMonolithicContainer/api/views.py:160-163 | answering the same item twice leaves only the second answer |
| SubmissionTables.PointsFor | TEQuestMonolithicContainer/api/views.py:186-187 | a definition without a contract (`Sum('points_awarded')` over one attempt's rows); its laws are `PointsForNonNegative`, `PointsForNoRows`, `PointsForAppend` and `UpsertPoints` |
| SubmissionTables.PointsForNonNegative | TEQuestMonolithicContainer/api/views.py:185-188 | the sum of non-negative awards is non-negative |
| SubmissionTables.PointsForNoRows | TEQuestMonolithicContainer/api/views.py:186-187 | an attempt without answers sums to 0 (the `or 0` of an empty aggregate) |
| SubmissionTables.PointsForAppend | TEQuestMonolithicContainer/api/views.py:186-187 | a new row adds its own points to its attempt's total only |
| SubmissionTables.UpsertPoints | TEQuestMonolithicContainer/api/views.py:160-163 | after the upsert, the attempt's total changes by the new award minus the award it replaced |
| Attempts.BestSubmittedScoreSpec | TEQuestMonolithicContainer/api/views.py:202-204 | the best submitted score is non-negative, at least every submitted score, and either 0 or one of them |
| Attempts.SubmittedCount | TEQuestMonolithicContainer/api/views.py:127 | the submitted count of a (user, quiz) pair never exceeds the number of attempts; `Attempts.SubmittedCountZero` and `Attempts.SubmitAt` state how it behaves |
| Attempts.BestSubmittedScore | TEQuestMonolithicContainer/api/views.py:203 | the best score is never below the leaderboard default 0; `Attempts.BestSubmittedScoreSpec` states that it is the maximum |
| Attempts.SubmittedCountZero | TEQuestMonolithicContainer/api/views.py:204 | the submitted count is 0 exactly when the user has no submitted attempt on the quiz |
| Attempts.AppendInProgress | TEQuestMonolithicContainer/api/views.py:140 | a new in-progress attempt changes neither the submitted count nor the best score |
| Attempts.SubmitAt | TEQuestMonolithicContainer/api/views.py:197-200 | submitting one attempt raises its (user, quiz) count by one and its best score to the max with the new score, and changes no other pair |
| Attempts.Finalized | TEQuestMonolithicContainer/api/views.py:197-199 | a definition without a contract (end time `now`, computed score, submitted); `Views.Store.FinalizeAttempt` and `StoreInvariants.FinalizePreserves` state its effect |
| Attempts.AttemptScore | TEQuestMonolithicContainer/api/views.py:185-188 | a definition without a contract (`_compute_score` as the two aggregates added); `Attempts.AttemptScoreBounds` and `SubmissionTables.UpsertPoints` state its behaviour |
| Attempts.AttemptScoreBounds | TEQuestMonolithicContainer/api/views.py:185-188 | an attempt's score is non-negative, and 0 when it has no answers |
| Attempts.CanStartAttempt | TEQuestMonolithicContainer/api/views.py:124-128 | a start is allowed exactly when the quiz is active and either the limit is 0 or the user's submitted attempts are below it |
| Leaderboard.FindEntry | TEQuestMonolithicContainer/api/views.py:202 | the lookup returns the index of the (quiz, user) row, or reports that there is none |
| Leaderboard.FindEntryUnique | TEQuestMonolithicContainer/api/models.py:155 | when (quiz, user) is unique, every row is found at its own index |
| Leaderboard.GetOrCreate | TEQuestMonolithicContainer/api/views.py:202 | `get_or_create` returns the index of the (quiz, user) row; an existing row is returned as it is and the table is unchanged; otherwise exactly one row with best 0 and count 0 is appended |
| Leaderboard.RecordResult | TEQuestMonolithicContainer/api/views.py:202-205 | a definition without a contract (get or create, then the three field updates); `Leaderboard.RecordResultSpec` states the result |
| Leaderboard.RecordResultSpec | TEQuestMonolithicContainer/api/views.py:202-205 | keys stay unique; the pair's row has best = max(old best or 0, score), the given count and the instant; every other row is unchanged; the table grows exactly when the row was created |
| Leaderboard.RecordResultOrderIndependent | TEQuestMonolithicContainer/api/views.py:203 | two finalized scores give the same best score in either order |
| Leaderboard.RanksBeforeOrder | TEQuestMonolithicContainer/api/models.py:156 | the order (best score descending, last attempt ascending) is total and transitive |
| Leaderboard.Insert | TEQuestMonolithicContainer/api/views.py:235 | inserting adds one row and the inserted row is present; `Leaderboard.InsertSpec` states order and contents |
| Leaderboard.InsertSpec | TEQuestMonolithicContainer/api/views.py:235 | inserting into a ranked list keeps it ranked and adds exactly that entry |
| Leaderboard.Sort | TEQuestMonolithicContainer/api/views.py:235 | sorting keeps the number of rows; `Leaderboard.SortSpec` states that the result is a ranked permutation |
| Leaderboard.SortSpec | TEQuestMonolithicContainer/api/views.py:235 | sorting yields a ranked permutation of the rows |
| Leaderboard.OfQuiz | TEQuestMonolithicContainer/api/views.py:235 | the filter returns no more rows than the table, all of the quiz; `Leaderboard.OfQuizSpec` states it keeps exactly those rows |
| Leaderboard.OfQuizSpec | TEQuestMonolithicContainer/api/views.py:235 | the filter keeps exactly the quiz's rows, with their multiplicities |
| Leaderboard.RankedPrefix | TEQuestMonolithicContainer/api/views.py:235 | a prefix of a ranked list is ranked and ranks before every entry it leaves out |
| Leaderboard.TopEntries | TEQuestMonolithicContainer/api/views.py:235 | a definition without a contract (filter, sort, slice to 100); `Leaderboard.TopEntriesSpec` states the page |
| Leaderboard.TopEntriesSpec | TEQuestMonolithicContainer/api/views.py:235 | the page holds exactly min(n, 100) of the quiz's n rows, ranked; it holds all of them when n is at most 100; no row left out outranks a row shown |
| Leaderboard.LeaderboardView | TEQuestMonolithicContainer/api/views.py:229-236 | 404 exactly when the quiz does not exist, published or not; otherwise a ranked page of exactly min(n, 100) of the quiz's n rows, all of them when n is at most 100, and no row left out outranks a row shown |
| StoreInvariants.LeaderboardSummarizesAttempts | TEQuestMonolithicContainer/api/views.py:202-205 | under the invariant, each leaderboard row's best is non-negative, at least each submitted score for its pair and attained (or 0); its count is 0 exactly when the pair has no submitted attempt |
| StoreInvariants.EmptyStoreValid | TEQuestMonolithicContainer/api/models.py:97 | a store with no attempts, answers or leaderboard rows satisfies the invariant, given unique clue keys |
| StoreInvariants.SubmittedScoresNonNegative | TEQuestMonolithicContainer/api/views.py:185-188 | under the invariant, every computed attempt score is non-negative |
| StoreInvariants.StartPreserves | TEQuestMonolithicContainer/api/views.py:140 | appending a fresh attempt keeps the invariant and leaves submitted attempts untouched |
| StoreInvariants.SubmitMcqPreserves | TEQuestMonolithicContainer/api/views.py:158-163 | upserting a scored MCQ answer for an in-progress attempt keeps the invariant |
| StoreInvariants.SubmitCrosswordPreserves | TEQuestMonolithicContainer/api/views.py:177-182 | upserting a scored crossword answer for an in-progress attempt keeps the invariant |
| StoreInvariants.FinalizeLeaderboard | TEQuestMonolithicContainer/api/views.py:202-205 | after one attempt is submitted, recording its result keeps every leaderboard row in agreement with the attempts |
| StoreInvariants.FinalizePreserves | TEQuestMonolithicContainer/api/views.py:195-205 | saving the attempt with its computed score and recording the result keeps the invariant; no other submitted attempt changes; the pair's count rises by one |
| Views.Store.constructor | TEQuestMonolithicContainer/api/models.py:97 | a store over a catalogue with unique clue keys starts valid, with empty tables |
| Views.Store.StartAttempt | TEQuestMonolithicContainer/api/views.py:132-142 | 404 exactly when the quiz is unknown or unpublished; success exactly when it is published and the gate allows it; on success the id is the next position and the new attempt is appended; otherwise nothing changes; always keeps the invariant |
| Views.Store.SubmitMcqAnswer | TEQuestMonolithicContainer/api/views.py:146-164 | 404 unless the attempt is the user's and in progress; then 400 for an unknown question or an option outside A-D; success exactly otherwise, returning the verdict and leaving that verdict as the only row for (attempt, question); on error the answers are unchanged; other tables never change |
| Views.Store.SubmitCrosswordAnswer | TEQuestMonolithicContainer/api/views.py:166-183 | 404 unless the attempt is the user's and in progress; then 400 for an unknown clue; success exactly otherwise, returning the normalized-comparison verdict and leaving it as the only row for (attempt, clue); on error the answers are unchanged |
| Views.Store.FinalizeAttempt | TEQuestMonolithicContainer/api/views.py:190-224 | success exactly when the attempt is the user's and in progress, else 404 with no change; the returned score is the sum of the attempt's answers and is non-negative; the attempt becomes submitted with that score and end time; the pair's count rises by one; its leaderboard row holds max(old best or 0, score), the instant and the new count; no existing row's best decreases |
| Scenarios.BestScoreKept | TEQuestMonolithicContainer/api/views.py:203 | a second attempt scoring 3 after a first scoring 5 leaves best 5 and count 2 |
| Scenarios.OverwrittenAnswerScoresZero | TEQuestMonolithicContainer/api/views.py:160-163 | a correct answer that is resubmitted wrong contributes nothing to the score |
| Scenarios.LimitCheckedOnlyAtStart | TEQuestMonolithicContainer/api/views.py:124-128 | with limit 1, two attempts opened together can both be finalized (count 2), and a third start is refused |
| Scenarios.FinalizeExactlyOnce | TEQuestMonolithicContainer/api/views.py:196 | a second finalize and a later answer on a submitted attempt are both 404 |
| Scenarios.StartGate | TEQuestMonolithicContainer/api/views.py:132-139 | unpublished or unknown quiz: 404; before the start or after the end: "not allowed"; at either boundary instant the start succeeds |
| Scenarios.InvalidAnswers | TEQuestMonolithicContainer/api/views.py:152-157 | option "E" and an unknown question are both 400 and store nothing |
| Scenarios.LeaderboardIgnoresPublication | TEQuestMonolithicContainer/api/views.py:232-234 | the leaderboard of an unpublished quiz is served; that of an unknown quiz is 404 |
| Scenarios.AcceptedCrosswordAnswer | TEQuestMonolithicContainer/api/views.py:177-179 | any answer matching the clue after normalization earns the clue's 4 points |

## Left out

- Authentication, registration, profiles and permissions: the user is a parameter of each endpoint.
- `_audit` and the `send_mail` notification of `finalize_attempt`: side effects outside the tables modelled, and the notification fails silently.
- Database transactions and `select_for_update`: each endpoint is one atomic method on the store, so concurrent requests are not modelled.
- Request serializer validation (the 1- and 64-character limits, whitespace trimming by `CharField`, primary-key lookup): the model receives the validated value. An unknown primary key becomes `InvalidInput`.
- Unicode `str.strip()` and `str.lower()`: only ASCII whitespace (code points 9-13 and 28-32) and the letters A-Z are modelled.
- Date-times: instants are integers, and `auto_now_add` and `auto_now` take the request's `now`.
- Fields the lifecycle never reads: titles, descriptions, option texts, `time_limit_seconds`, `total_points`, crossword grid size.
- The read-only endpoints (quiz list, quiz detail, attempt list) and the admin, signal and management code.
- Whether a question or clue belongs to the attempt's quiz: the code does not check it, and neither does the model.
- Models.Quiz: the field defaults (`max_attempts` 1, `is_published` false) are not applied, since every quiz is given in full.
- A request that omits `selected_option` or `answer`: both fields are `blank=True` (models.py:126, 138), so the serializer accepts the request without them and the view then fails on the missing key (views.py:155, 177) with a server error and nothing stored. The model's arguments are always present strings, so this error path is not modelled.
- Integer width: `score` and `points_awarded` are 32-bit database integers (models.py:110, 128, 140), while the model's scores and awards are unbounded, so an overflowing total is not modelled.
- Leaderboard.Sort: the database's order among rows tied on both best score and last attempt time is unspecified; the model uses one stable order and proves only that the result is ranked and a permutation.
