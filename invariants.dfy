/** The consistency the lifecycle keeps between the tables, and the proofs
    that starting, answering and finalizing preserve it. Stated over plain
    values so that the store's methods only have to call these lemmas. */
module StoreInvariants {
  import opened Models
  import opened Scoring
  import opened SubmissionTables
  import opened Attempts
  import opened Leaderboard

  /** Field-level facts of one attempt row: it belongs to an existing quiz,
      its score is never negative, it has an end time exactly when it is
      submitted, and it scores 0 while in progress. */
  predicate AttemptWellFormed(quizzes: map<QuizId, Quiz>, a: Attempt)
  {
    && a.quiz in quizzes
    && a.score >= 0
    && (a.isSubmitted <==> a.endedAt.Some?)
    && (!a.isSubmitted ==> a.score == 0)
  }

  predicate AttemptsWellFormed(quizzes: map<QuizId, Quiz>, attempts: seq<Attempt>)
  {
    forall i | 0 <= i < |attempts| :: AttemptWellFormed(quizzes, attempts[i])
  }

  /** A multiple-choice row refers to an existing attempt and question, and
      its verdict is the one the scoring rule gives for its option. */
  predicate McqRowValid(questions: map<QuestionId, MCQQuestion>, attemptCount: nat, r: MCQSubmission)
  {
    0 <= r.attempt < attemptCount && r.item in questions &&
    ScoreMcq(r.value, questions[r.item]) == Verdict(r.isCorrect, r.pointsAwarded)
  }

  predicate CrosswordRowValid(clues: map<ClueId, CrosswordClue>, attemptCount: nat, r: CrosswordAnswer)
  {
    0 <= r.attempt < attemptCount && r.item in clues &&
    ScoreCrossword(r.value, clues[r.item]) == Verdict(r.isCorrect, r.pointsAwarded)
  }

  predicate McqTableValid(questions: map<QuestionId, MCQQuestion>, attemptCount: nat, rows: seq<MCQSubmission>)
  {
    KeysUnique(rows) && forall i | 0 <= i < |rows| :: McqRowValid(questions, attemptCount, rows[i])
  }

  predicate CrosswordTableValid(clues: map<ClueId, CrosswordClue>, attemptCount: nat, rows: seq<CrosswordAnswer>)
  {
    KeysUnique(rows) && forall i | 0 <= i < |rows| :: CrosswordRowValid(clues, attemptCount, rows[i])
  }

  /** A submitted attempt's score is the sum of its answers' points. */
  predicate ScoresMatchAnswers(attempts: seq<Attempt>, mcq: seq<MCQSubmission>, crossword: seq<CrosswordAnswer>)
  {
    forall i | 0 <= i < |attempts| && attempts[i].isSubmitted ::
      attempts[i].score == AttemptScore(mcq, crossword, i)
  }

  /** A leaderboard row agrees with the attempt table: its count is the
      number of submitted attempts and its best score their best. */
  predicate EntryAgrees(attempts: seq<Attempt>, e: LeaderboardEntry)
  {
    e.attemptsCount == SubmittedCount(attempts, e.user, e.quiz) &&
    e.bestScore == BestSubmittedScore(attempts, e.user, e.quiz)
  }

  /** The leaderboard is unique per (quiz, user), every row agrees with the
      attempts, and every submitted attempt has its row. */
  predicate LeaderboardMatchesAttempts(attempts: seq<Attempt>, lb: seq<LeaderboardEntry>)
  {
    && EntryKeysUnique(lb)
    && (forall k | 0 <= k < |lb| :: EntryAgrees(attempts, lb[k]))
    && (forall i | 0 <= i < |attempts| && attempts[i].isSubmitted ::
          FindEntry(lb, attempts[i].quiz, attempts[i].user).Some?)
  }

  predicate StoreInvariant(
    quizzes: map<QuizId, Quiz>, questions: map<QuestionId, MCQQuestion>, clues: map<ClueId, CrosswordClue>,
    attempts: seq<Attempt>, mcq: seq<MCQSubmission>, crossword: seq<CrosswordAnswer>, lb: seq<LeaderboardEntry>)
  {
    && ClueKeysUnique(clues)
    && AttemptsWellFormed(quizzes, attempts)
    && McqTableValid(questions, |attempts|, mcq)
    && CrosswordTableValid(clues, |attempts|, crossword)
    && ScoresMatchAnswers(attempts, mcq, crossword)
    && LeaderboardMatchesAttempts(attempts, lb)
  }

  /** What a consistent leaderboard row says about the attempt table: its
      best score is at least every submitted score of its (quiz, user) pair
      and is either 0 or one of them, and its count is zero exactly when the
      pair has no submitted attempt. */
  lemma LeaderboardSummarizesAttempts(attempts: seq<Attempt>, lb: seq<LeaderboardEntry>, k: nat)
    requires LeaderboardMatchesAttempts(attempts, lb) && k < |lb|
    ensures var e := lb[k];
      && e.bestScore >= 0
      && (forall i | 0 <= i < |attempts| && attempts[i].isSubmitted && Belongs(attempts[i], e.user, e.quiz) ::
            attempts[i].score <= e.bestScore)
      && (e.bestScore == 0 ||
          exists i | 0 <= i < |attempts| :: attempts[i].isSubmitted && Belongs(attempts[i], e.user, e.quiz) &&
            attempts[i].score == e.bestScore)
      && (e.attemptsCount == 0 <==>
          forall i | 0 <= i < |attempts| :: !(attempts[i].isSubmitted && Belongs(attempts[i], e.user, e.quiz)))
  {
    assert EntryAgrees(attempts, lb[k]);
    BestSubmittedScoreSpec(attempts, lb[k].user, lb[k].quiz);
    SubmittedCountZero(attempts, lb[k].user, lb[k].quiz);
  }

  /** Submitted attempts are never changed again and no attempt disappears. */
  predicate SubmittedFrozen(before: seq<Attempt>, after: seq<Attempt>)
  {
    |before| <= |after| &&
    forall i | 0 <= i < |before| && before[i].isSubmitted :: after[i] == before[i]
  }

  /** The empty tables satisfy the invariant. */
  lemma EmptyStoreValid(quizzes: map<QuizId, Quiz>, questions: map<QuestionId, MCQQuestion>, clues: map<ClueId, CrosswordClue>)
    requires ClueKeysUnique(clues)
    ensures StoreInvariant(quizzes, questions, clues, [], [], [], [])
  {
  }

  lemma McqPointsNonNegative(questions: map<QuestionId, MCQQuestion>, n: nat, rows: seq<MCQSubmission>)
    requires McqTableValid(questions, n, rows)
    ensures PointsNonNegative(rows)
  {
    forall i | 0 <= i < |rows| ensures rows[i].pointsAwarded >= 0 {
      assert McqRowValid(questions, n, rows[i]);
    }
  }

  lemma CrosswordPointsNonNegative(clues: map<ClueId, CrosswordClue>, n: nat, rows: seq<CrosswordAnswer>)
    requires CrosswordTableValid(clues, n, rows)
    ensures PointsNonNegative(rows)
  {
    forall i | 0 <= i < |rows| ensures rows[i].pointsAwarded >= 0 {
      assert CrosswordRowValid(clues, n, rows[i]);
    }
  }

  /** Every stored score is non-negative. */
  lemma SubmittedScoresNonNegative(
    quizzes: map<QuizId, Quiz>, questions: map<QuestionId, MCQQuestion>, clues: map<ClueId, CrosswordClue>,
    attempts: seq<Attempt>, mcq: seq<MCQSubmission>, crossword: seq<CrosswordAnswer>, lb: seq<LeaderboardEntry>,
    id: AttemptId)
    requires StoreInvariant(quizzes, questions, clues, attempts, mcq, crossword, lb)
    ensures AttemptScore(mcq, crossword, id) >= 0
  {
    McqPointsNonNegative(questions, |attempts|, mcq);
    CrosswordPointsNonNegative(clues, |attempts|, crossword);
    AttemptScoreBounds(mcq, crossword, id);
  }

  /** Appending a fresh in-progress attempt keeps the invariant. */
  lemma StartPreserves(
    quizzes: map<QuizId, Quiz>, questions: map<QuestionId, MCQQuestion>, clues: map<ClueId, CrosswordClue>,
    attempts: seq<Attempt>, mcq: seq<MCQSubmission>, crossword: seq<CrosswordAnswer>, lb: seq<LeaderboardEntry>,
    a: Attempt)
    requires StoreInvariant(quizzes, questions, clues, attempts, mcq, crossword, lb)
    requires a.quiz in quizzes && !a.isSubmitted && a.score == 0 && a.endedAt.None?
    ensures StoreInvariant(quizzes, questions, clues, attempts + [a], mcq, crossword, lb)
    ensures SubmittedFrozen(attempts, attempts + [a])
  {
    var after := attempts + [a];
    assert forall i | 0 <= i < |attempts| :: after[i] == attempts[i];
    forall k | 0 <= k < |lb| ensures EntryAgrees(after, lb[k]) {
      AppendInProgress(attempts, a, lb[k].user, lb[k].quiz);
    }
  }

  /** Storing a multiple-choice row of an in-progress attempt keeps the
      invariant: no submitted attempt's total moves. */
  lemma SubmitMcqPreserves(
    quizzes: map<QuizId, Quiz>, questions: map<QuestionId, MCQQuestion>, clues: map<ClueId, CrosswordClue>,
    attempts: seq<Attempt>, mcq: seq<MCQSubmission>, crossword: seq<CrosswordAnswer>, lb: seq<LeaderboardEntry>,
    row: MCQSubmission)
    requires StoreInvariant(quizzes, questions, clues, attempts, mcq, crossword, lb)
    requires McqRowValid(questions, |attempts|, row) && !attempts[row.attempt].isSubmitted
    ensures StoreInvariant(quizzes, questions, clues, attempts, Upsert(mcq, row), crossword, lb)
  {
    var after := Upsert(mcq, row);
    UpsertSpec(mcq, row);
    forall i | 0 <= i < |after| ensures McqRowValid(questions, |attempts|, after[i]) {
      if !SameKey(after[i], row.attempt, row.item) {
        assert after[i] in mcq;
      }
    }
    forall i | 0 <= i < |attempts| && attempts[i].isSubmitted
      ensures attempts[i].score == AttemptScore(after, crossword, i)
    {
      UpsertPoints(mcq, row, i);
    }
  }

  /** Storing a crossword row of an in-progress attempt keeps the invariant. */
  lemma SubmitCrosswordPreserves(
    quizzes: map<QuizId, Quiz>, questions: map<QuestionId, MCQQuestion>, clues: map<ClueId, CrosswordClue>,
    attempts: seq<Attempt>, mcq: seq<MCQSubmission>, crossword: seq<CrosswordAnswer>, lb: seq<LeaderboardEntry>,
    row: CrosswordAnswer)
    requires StoreInvariant(quizzes, questions, clues, attempts, mcq, crossword, lb)
    requires CrosswordRowValid(clues, |attempts|, row) && !attempts[row.attempt].isSubmitted
    ensures StoreInvariant(quizzes, questions, clues, attempts, mcq, Upsert(crossword, row), lb)
  {
    var after := Upsert(crossword, row);
    UpsertSpec(crossword, row);
    forall i | 0 <= i < |after| ensures CrosswordRowValid(clues, |attempts|, after[i]) {
      if !SameKey(after[i], row.attempt, row.item) {
        assert after[i] in crossword;
      }
    }
    forall i | 0 <= i < |attempts| && attempts[i].isSubmitted
      ensures attempts[i].score == AttemptScore(mcq, after, i)
    {
      UpsertPoints(crossword, row, i);
    }
  }

  /** The leaderboard half of finalize: after submitting attempt `id` and
      recording its result, the leaderboard again agrees with the attempts. */
  lemma FinalizeLeaderboard(attempts: seq<Attempt>, lb: seq<LeaderboardEntry>, id: nat, done: Attempt, now: int)
    requires LeaderboardMatchesAttempts(attempts, lb)
    requires id < |attempts| && !attempts[id].isSubmitted
    requires done == Finalized(attempts[id], done.score, now)
    ensures var after := attempts[id := done];
      LeaderboardMatchesAttempts(after,
        RecordResult(lb, done.quiz, done.user, done.score, SubmittedCount(after, done.user, done.quiz), now))
  {
    var after := attempts[id := done];
    var quiz, user := done.quiz, done.user;
    var count := SubmittedCount(after, user, quiz);
    var lb' := RecordResult(lb, quiz, user, done.score, count, now);
    RecordResultSpec(lb, quiz, user, done.score, count, now);
    SubmitAt(attempts, id, done, user, quiz);
    if FindEntry(lb, quiz, user).None? {
      // No row yet: the user has no submitted attempt on the quiz.
      assert forall i | 0 <= i < |attempts| :: !(attempts[i].isSubmitted && Belongs(attempts[i], user, quiz));
      BestSubmittedScoreSpec(attempts, user, quiz);
    }
    forall k | 0 <= k < |lb'| ensures EntryAgrees(after, lb'[k]) {
      if k < |lb| && !IsEntryOf(lb[k], quiz, user) {
        SubmitAt(attempts, id, done, lb[k].user, lb[k].quiz);
      } else {
        FindEntryUnique(lb', k);
      }
    }
    forall i | 0 <= i < |after| && after[i].isSubmitted
      ensures FindEntry(lb', after[i].quiz, after[i].user).Some?
    {
      if i != id {
        var k := FindEntry(lb, attempts[i].quiz, attempts[i].user).value;
        assert IsEntryOf(lb'[k], after[i].quiz, after[i].user);
      }
    }
  }

  /** Finalizing an in-progress attempt keeps the invariant. */
  lemma FinalizePreserves(
    quizzes: map<QuizId, Quiz>, questions: map<QuestionId, MCQQuestion>, clues: map<ClueId, CrosswordClue>,
    attempts: seq<Attempt>, mcq: seq<MCQSubmission>, crossword: seq<CrosswordAnswer>, lb: seq<LeaderboardEntry>,
    id: nat, now: int)
    requires StoreInvariant(quizzes, questions, clues, attempts, mcq, crossword, lb)
    requires id < |attempts| && !attempts[id].isSubmitted
    ensures var done := Finalized(attempts[id], AttemptScore(mcq, crossword, id), now);
      var after := attempts[id := done];
      && StoreInvariant(quizzes, questions, clues, after, mcq, crossword,
           RecordResult(lb, done.quiz, done.user, done.score, SubmittedCount(after, done.user, done.quiz), now))
      && SubmittedFrozen(attempts, after)
      && SubmittedCount(after, done.user, done.quiz) == SubmittedCount(attempts, done.user, done.quiz) + 1
  {
    var done := Finalized(attempts[id], AttemptScore(mcq, crossword, id), now);
    var after := attempts[id := done];
    SubmittedScoresNonNegative(quizzes, questions, clues, attempts, mcq, crossword, lb, id);
    FinalizeLeaderboard(attempts, lb, id, done, now);
    SubmitAt(attempts, id, done, done.user, done.quiz);
    assert AttemptsWellFormed(quizzes, after);
  }
}
