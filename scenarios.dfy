/** Concrete runs of the lifecycle over a small catalogue, each stated as the
    responses the endpoints give. */
module Scenarios {
  import opened Models
  import opened Scoring
  import opened SubmissionTables
  import opened Attempts
  import opened Leaderboard
  import opened Views

  /** Quiz 1: published multiple-choice quiz, no window, unlimited attempts.
      Quiz 2: published, at most one submitted attempt.
      Quiz 3: not published.
      Quiz 4: published, open from instant 100 to instant 200. */
  function Catalogue(): map<QuizId, Quiz>
  {
    map[1 := Quiz(Mcq, true, None, None, 0),
        2 := Quiz(Crossword, true, None, None, 1),
        3 := Quiz(Mcq, false, None, None, 0),
        4 := Quiz(Mcq, true, Some(100), Some(200), 0)]
  }

  /** Two questions of quiz 1 worth 3 and 2 points. */
  function Questions(): map<QuestionId, MCQQuestion>
  {
    map[10 := MCQQuestion(1, A, 3, 1), 11 := MCQQuestion(1, B, 2, 2)]
  }

  /** One clue of quiz 2's crossword worth 4 points, with the given answer. */
  function Clues(answer: string): map<ClueId, CrosswordClue>
  {
    map[20 := CrosswordClue(5, 1, Across, 0, 0, answer, 4)]
  }

  /** The total of a one-row table. */
  lemma OneRowTotal<V>(r: Submission<V>, attempt: AttemptId)
    ensures PointsFor([r], attempt) == Share(r, attempt)
  {
    assert [r][1..] == [];
  }

  /** The total of a two-row table. */
  lemma TwoRowsTotal<V>(r1: Submission<V>, r2: Submission<V>, attempt: AttemptId)
    ensures PointsFor([r1, r2], attempt) == Share(r1, attempt) + Share(r2, attempt)
  {
    var rows := [r1, r2];
    assert rows[1..] == [r2];
    assert [r2][1..] == [];
    assert PointsFor([r2], attempt) == Share(r2, attempt) + PointsFor([r2][1..], attempt);
    assert PointsFor(rows, attempt) == Share(r1, attempt) + PointsFor(rows[1..], attempt);
  }

  /** A store over the sample catalogue in which user 7 has just started
      attempt 0 on quiz 1. */
  method OpenMcqAttempt() returns (store: Store)
    ensures fresh(store) && store.Valid()
    ensures store.quizzes == Catalogue() && store.questions == Questions()
    ensures store.attempts == [NewAttempt(7, 1, 100)]
    ensures store.mcqSubmissions == [] && store.crosswordAnswers == [] && store.leaderboard == []
  {
    store := new Store(Catalogue(), Questions(), map[]);
    var id := store.StartAttempt(7, 1, 100);
    assert id == Ok(0);
  }

  /** Both questions answered correctly: each answer earns its question's
      points and is stored as a row of the attempt. */
  method AnswerBothCorrectly() returns (store: Store, first: Result<Verdict>, second: Result<Verdict>)
    ensures first == Ok(Verdict(true, 3)) && second == Ok(Verdict(true, 2))
    ensures fresh(store) && store.Valid()
    ensures store.quizzes == Catalogue() && store.questions == Questions()
    ensures store.attempts == [NewAttempt(7, 1, 100)]
    ensures store.mcqSubmissions == [Submission(0, 10, A, true, 3), Submission(0, 11, B, true, 2)]
    ensures store.crosswordAnswers == [] && store.leaderboard == []
  {
    store := OpenMcqAttempt();
    ParseTagName(A);
    ParseTagName(B);
    first := store.SubmitMcqAnswer(7, 0, 10, TagName(A));
    assert store.mcqSubmissions == [Submission(0, 10, A, true, 3)];
    second := store.SubmitMcqAnswer(7, 0, 11, TagName(B));
  }

  /** Finalizing the attempt scores 3 + 2; the user's leaderboard row is
      created with that score and a count of 1. */
  method BothCorrectScoresFive() returns (store: Store, score: Result<int>)
    ensures score == Ok(5)
    ensures fresh(store) && store.Valid()
    ensures store.quizzes == Catalogue() && store.questions == Questions()
    ensures store.attempts == [Finalized(NewAttempt(7, 1, 100), 5, 200)]
    ensures store.mcqSubmissions == [Submission(0, 10, A, true, 3), Submission(0, 11, B, true, 2)]
    ensures store.crosswordAnswers == []
    ensures store.leaderboard == [LeaderboardEntry(1, 7, 5, 200, 1)]
  {
    var first, second;
    store, first, second := AnswerBothCorrectly();
    TwoRowsTotal(store.mcqSubmissions[0], store.mcqSubmissions[1], 0);
    score := store.FinalizeAttempt(7, 0, 200);
    assert store.attempts[..0] == [];
  }

  /** A second attempt of the same user, answered for 3 points. */
  method SecondAttemptAnswered() returns (store: Store)
    ensures fresh(store) && store.Valid()
    ensures store.attempts == [Finalized(NewAttempt(7, 1, 100), 5, 200), NewAttempt(7, 1, 300)]
    ensures store.mcqSubmissions ==
      [Submission(0, 10, A, true, 3), Submission(0, 11, B, true, 2), Submission(1, 10, A, true, 3)]
    ensures store.crosswordAnswers == []
    ensures store.leaderboard == [LeaderboardEntry(1, 7, 5, 200, 1)]
  {
    var score;
    store, score := BothCorrectScoresFive();
    var id := store.StartAttempt(7, 1, 300);
    assert id == Ok(1);
    ParseTagName(A);
    var v := store.SubmitMcqAnswer(7, 1, 10, TagName(A));
  }

  /** The later 3-point attempt leaves the best score at 5 and counts 2. */
  method BestScoreKept() returns (score: Result<int>, entry: LeaderboardEntry)
    ensures score == Ok(3)
    ensures entry == LeaderboardEntry(1, 7, 5, 400, 2)
  {
    var store := SecondAttemptAnswered();
    var earlier := store.mcqSubmissions[..2];
    assert store.mcqSubmissions == earlier + [store.mcqSubmissions[2]];
    assert earlier == [earlier[0], earlier[1]];
    TwoRowsTotal(earlier[0], earlier[1], 1);
    PointsForAppend(earlier, store.mcqSubmissions[2], 1);
    assert store.attempts[..1] == [store.attempts[0]];
    assert store.attempts[..1][..0] == [];
    assert AttemptScore(store.mcqSubmissions, store.crosswordAnswers, 1) == 3;
    score := store.FinalizeAttempt(7, 1, 400);
    entry := store.leaderboard[0];
  }

  /** Changing the answer replaces the row: answered correctly and then
      wrongly on the same question, the attempt holds one row worth 0. */
  method ResubmitOverwrites() returns (store: Store, first: Result<Verdict>, second: Result<Verdict>)
    ensures first == Ok(Verdict(true, 3)) && second == Ok(Verdict(false, 0))
    ensures fresh(store) && store.Valid()
    ensures store.attempts == [NewAttempt(7, 1, 100)]
    ensures store.mcqSubmissions == [Submission(0, 10, C, false, 0)]
    ensures store.crosswordAnswers == []
  {
    store := OpenMcqAttempt();
    ParseTagName(A);
    ParseTagName(C);
    first := store.SubmitMcqAnswer(7, 0, 10, TagName(A));
    second := store.SubmitMcqAnswer(7, 0, 10, TagName(C));
  }

  /** The overwritten answer no longer counts: the attempt scores 0, not 3. */
  method OverwrittenAnswerScoresZero() returns (score: Result<int>)
    ensures score == Ok(0)
  {
    var store, r1, r2 := ResubmitOverwrites();
    OneRowTotal(store.mcqSubmissions[0], 0);
    score := store.FinalizeAttempt(7, 0, 200);
  }

  /** User 8 starts two attempts on quiz 2 before submitting either; both
      are accepted because no attempt is submitted yet. */
  method TwoOpenAttempts() returns (store: Store, first: Result<AttemptId>, second: Result<AttemptId>)
    ensures first == Ok(0) && second == Ok(1)
    ensures fresh(store) && store.Valid()
    ensures store.quizzes == Catalogue()
    ensures store.attempts == [NewAttempt(8, 2, 100), NewAttempt(8, 2, 110)]
    ensures store.mcqSubmissions == [] && store.crosswordAnswers == [] && store.leaderboard == []
  {
    store := new Store(Catalogue(), map[], map[]);
    first := store.StartAttempt(8, 2, 100);
    second := store.StartAttempt(8, 2, 110);
  }

  /** Both open attempts can be finalized. */
  method BothSubmitted() returns (store: Store)
    ensures fresh(store) && store.Valid()
    ensures store.quizzes == Catalogue()
    ensures store.attempts == [Finalized(NewAttempt(8, 2, 100), 0, 200), Finalized(NewAttempt(8, 2, 110), 0, 300)]
    ensures store.leaderboard == [LeaderboardEntry(2, 8, 0, 300, 2)]
  {
    var first, second;
    store, first, second := TwoOpenAttempts();
    var s1 := store.FinalizeAttempt(8, 0, 200);
    assert store.attempts[..1] == [store.attempts[0]];
    assert store.attempts[..0] == [];
    assert store.attempts[..1][..0] == [];
    assert SubmittedCount(store.attempts[..1], 8, 2) == 1;
    assert SubmittedCount(store.attempts, 8, 2) == 1;
    assert store.leaderboard == [LeaderboardEntry(2, 8, 0, 200, 1)];
    var s2 := store.FinalizeAttempt(8, 1, 300);
    assert store.attempts[..1] == [store.attempts[0]];
  }

  /** Quiz 2 allows one submitted attempt, but the limit counts only
      submitted attempts, so it ends up with two, which the leaderboard
      counts. Only then is a further start refused. */
  method LimitCheckedOnlyAtStart() returns (submitted: nat, entry: LeaderboardEntry, third: Result<AttemptId>)
    ensures Catalogue()[2].maxAttempts == 1
    ensures submitted == 2
    ensures entry == LeaderboardEntry(2, 8, 0, 300, 2)
    ensures third == Err(AttemptNotAllowed)
  {
    var store := BothSubmitted();
    assert store.attempts[..1] == [store.attempts[0]];
    assert store.attempts[..0] == [];
    submitted := SubmittedCount(store.attempts, 8, 2);
    entry := store.leaderboard[0];
    assert store.quizzes[2] == Quiz(Crossword, true, None, None, 1);
    third := store.StartAttempt(8, 2, 400);
  }

  /** Another user cannot finalize the attempt; its owner can. */
  method FinalizeOnlyByOwner() returns (store: Store, byOther: Result<int>, byOwner: Result<int>)
    ensures byOther == Err(NotFound) && byOwner == Ok(0)
    ensures fresh(store) && store.Valid()
    ensures store.questions == Questions()
    ensures store.attempts == [Finalized(NewAttempt(7, 1, 100), 0, 200)]
  {
    store := OpenMcqAttempt();
    byOther := store.FinalizeAttempt(9, 0, 150);
    byOwner := store.FinalizeAttempt(7, 0, 200);
  }

  /** A finalized attempt cannot be finalized again and accepts no more
      answers. */
  method FinalizeExactlyOnce() returns (again: Result<int>, late: Result<Verdict>)
    ensures again == Err(NotFound)
    ensures late == Err(NotFound)
  {
    var store, r1, r2 := FinalizeOnlyByOwner();
    again := store.FinalizeAttempt(7, 0, 250);
    ParseTagName(A);
    late := store.SubmitMcqAnswer(7, 0, 10, TagName(A));
  }

  /** Starting is refused with 404 for an unpublished or unknown quiz and
      with 400 outside the window, whose two ends are both open instants. */
  method StartGate() returns (unpublished: Result<AttemptId>, unknown: Result<AttemptId>,
                               early: Result<AttemptId>, atStart: Result<AttemptId>, atEnd: Result<AttemptId>, late: Result<AttemptId>)
    ensures unpublished == Err(NotFound) && unknown == Err(NotFound)
    ensures early == Err(AttemptNotAllowed) && late == Err(AttemptNotAllowed)
    ensures atStart == Ok(0) && atEnd == Ok(1)
  {
    var store := new Store(Catalogue(), map[], map[]);
    unpublished := store.StartAttempt(7, 3, 100);
    unknown := store.StartAttempt(7, 5, 100);
    early := store.StartAttempt(7, 4, 99);
    atStart := store.StartAttempt(7, 4, 100);
    atEnd := store.StartAttempt(7, 4, 200);
    late := store.StartAttempt(7, 4, 201);
  }

  /** An option outside A-D and an unknown question are both rejected as bad
      input, and nothing is stored. */
  method InvalidAnswers(bad: string) returns (badOption: Result<Verdict>, unknownQuestion: Result<Verdict>, stored: nat)
    requires bad == "E"
    ensures badOption == Err(InvalidInput) && unknownQuestion == Err(InvalidInput)
    ensures stored == 0
  {
    var store := OpenMcqAttempt();
    badOption := store.SubmitMcqAnswer(7, 0, 10, bad);
    ParseTagName(A);
    unknownQuestion := store.SubmitMcqAnswer(7, 0, 99, TagName(A));
    stored := |store.mcqSubmissions|;
  }

  /** The leaderboard of an unpublished quiz is served (empty here); only an
      unknown quiz is a 404. */
  lemma LeaderboardIgnoresPublication()
    ensures LeaderboardView(Catalogue(), [], 3) == Ok([])
    ensures LeaderboardView(Catalogue(), [], 5) == Err(NotFound)
  {
    assert OfQuiz([], 3) == [];
  }

  /** User 8 has just started attempt 0 on quiz 2, whose clue's answer is
      `canonical`. */
  method OpenCrosswordAttempt(canonical: string) returns (store: Store)
    ensures fresh(store) && store.Valid()
    ensures store.clues == Clues(canonical)
    ensures store.attempts == [NewAttempt(8, 2, 100)] && store.crosswordAnswers == []
  {
    store := new Store(Catalogue(), map[], Clues(canonical));
    var id := store.StartAttempt(8, 2, 100);
    assert id == Ok(0);
  }

  /** An accepted crossword answer earns the clue's points and is stored as
      given; `PaddedMixedCaseMatches` shows that " Cat " is accepted for
      "CAT". */
  method AcceptedCrosswordAnswer(canonical: string, given: string) returns (verdict: Result<Verdict>)
    requires AnswerMatches(given, canonical)
    ensures verdict == Ok(Verdict(true, 4))
  {
    var store := OpenCrosswordAttempt(canonical);
    verdict := store.SubmitCrosswordAnswer(8, 0, 20, given);
  }
}
