/** The attempt-lifecycle endpoints of api/views.py over one in-memory store:
    the catalogue (quizzes, questions, clues) is fixed, the four tables the
    endpoints write are fields the methods update. Each method keeps the
    store invariant and leaves submitted attempts untouched. */
module Views {
  import opened Models
  import opened Scoring
  import opened SubmissionTables
  import opened Attempts
  import opened Leaderboard
  import opened StoreInvariants

  class Store {
    const quizzes: map<QuizId, Quiz>
    const questions: map<QuestionId, MCQQuestion>
    const clues: map<ClueId, CrosswordClue>
    var attempts: seq<Attempt>
    var mcqSubmissions: seq<MCQSubmission>
    var crosswordAnswers: seq<CrosswordAnswer>
    var leaderboard: seq<LeaderboardEntry>

    ghost predicate Valid()
      reads this
    {
      StoreInvariant(quizzes, questions, clues, attempts, mcqSubmissions, crosswordAnswers, leaderboard)
    }

    /** A store over a given catalogue with no attempts, answers or
        leaderboard rows yet. */
    constructor (quizzes: map<QuizId, Quiz>, questions: map<QuestionId, MCQQuestion>, clues: map<ClueId, CrosswordClue>)
      requires ClueKeysUnique(clues)
      ensures Valid()
      ensures this.quizzes == quizzes && this.questions == questions && this.clues == clues
      ensures attempts == [] && mcqSubmissions == [] && crosswordAnswers == [] && leaderboard == []
    {
      this.quizzes := quizzes;
      this.questions := questions;
      this.clues := clues;
      attempts := [];
      mcqSubmissions := [];
      crosswordAnswers := [];
      leaderboard := [];
      EmptyStoreValid(quizzes, questions, clues);
    }

    /** `start_attempt`: 404 unless the quiz exists and is published, 400
        "Attempt not allowed" when the gate refuses, otherwise a new
        in-progress attempt whose id is returned. */
    method StartAttempt(user: UserId, quizId: QuizId, now: int) returns (r: Result<AttemptId>)
      requires Valid()
      modifies this
      ensures Valid()
      ensures r == Err(NotFound) <==> quizId !in quizzes || !quizzes[quizId].isPublished
      ensures r.Ok? <==>
        (quizId in quizzes && quizzes[quizId].isPublished &&
         CanStartAttempt(old(attempts), user, quizId, quizzes[quizId], now))
      ensures r.Err? ==> r.error != InvalidInput && attempts == old(attempts)
      ensures r.Ok? ==> r.value == |old(attempts)| && attempts == old(attempts) + [NewAttempt(user, quizId, now)]
      ensures SubmittedFrozen(old(attempts), attempts)
      ensures mcqSubmissions == old(mcqSubmissions) && crosswordAnswers == old(crosswordAnswers)
      ensures leaderboard == old(leaderboard)
    {
      if quizId !in quizzes || !quizzes[quizId].isPublished {
        return Err(NotFound);
      }
      var quiz := quizzes[quizId];
      if !CanStartAttempt(attempts, user, quizId, quiz, now) {
        return Err(AttemptNotAllowed);
      }
      var attempt := NewAttempt(user, quizId, now);
      StartPreserves(quizzes, questions, clues, attempts, mcqSubmissions, crosswordAnswers, leaderboard, attempt);
      r := Ok(|attempts|);
      attempts := attempts + [attempt];
    }

    /** `submit_mcq_answer`: 404 unless the attempt is the user's and in
        progress, 400 for an unknown question or an option other than A-D,
        otherwise the verdict, stored as the only row for (attempt,
        question). */
    method SubmitMcqAnswer(user: UserId, attemptId: AttemptId, questionId: QuestionId, selected: string)
      returns (r: Result<Verdict>)
      requires Valid()
      modifies this
      ensures Valid()
      ensures !IsOpenAttempt(old(attempts), user, attemptId) ==> r == Err(NotFound)
      ensures IsOpenAttempt(old(attempts), user, attemptId) && (questionId !in questions || ParseTag(selected).None?)
        ==> r == Err(InvalidInput)
      ensures r.Ok? <==> IsOpenAttempt(old(attempts), user, attemptId) && questionId in questions && ParseTag(selected).Some?
      ensures r.Ok? ==>
        && r.value == ScoreMcq(ParseTag(selected).value, questions[questionId])
        && var row := Submission(attemptId, questionId, ParseTag(selected).value, r.value.isCorrect, r.value.pointsAwarded);
           && mcqSubmissions == Upsert(old(mcqSubmissions), row)
           && row in mcqSubmissions
           && (forall i | 0 <= i < |mcqSubmissions| && SameKey(mcqSubmissions[i], attemptId, questionId) ::
                 mcqSubmissions[i] == row)
      ensures r.Err? ==> mcqSubmissions == old(mcqSubmissions)
      ensures attempts == old(attempts) && crosswordAnswers == old(crosswordAnswers)
      ensures leaderboard == old(leaderboard)
    {
      if !IsOpenAttempt(attempts, user, attemptId) {
        return Err(NotFound);
      }
      if questionId !in questions {
        return Err(InvalidInput);
      }
      var question := questions[questionId];
      var tag := ParseTag(selected);
      if tag.None? {
        return Err(InvalidInput);
      }
      var verdict := ScoreMcq(tag.value, question);
      var row := Submission(attemptId, questionId, tag.value, verdict.isCorrect, verdict.pointsAwarded);
      UpsertSpec(mcqSubmissions, row);
      SubmitMcqPreserves(quizzes, questions, clues, attempts, mcqSubmissions, crosswordAnswers, leaderboard, row);
      mcqSubmissions := Upsert(mcqSubmissions, row);
      r := Ok(verdict);
    }

    /** `submit_crossword_answer`: 404 unless the attempt is the user's and
        in progress, 400 for an unknown clue, otherwise the verdict of the
        normalized comparison, stored as the only row for (attempt, clue). */
    method SubmitCrosswordAnswer(user: UserId, attemptId: AttemptId, clueId: ClueId, answer: string)
      returns (r: Result<Verdict>)
      requires Valid()
      modifies this
      ensures Valid()
      ensures !IsOpenAttempt(old(attempts), user, attemptId) ==> r == Err(NotFound)
      ensures IsOpenAttempt(old(attempts), user, attemptId) && clueId !in clues ==> r == Err(InvalidInput)
      ensures r.Ok? <==> IsOpenAttempt(old(attempts), user, attemptId) && clueId in clues
      ensures r.Ok? ==>
        && r.value == ScoreCrossword(answer, clues[clueId])
        && var row := Submission(attemptId, clueId, answer, r.value.isCorrect, r.value.pointsAwarded);
           && crosswordAnswers == Upsert(old(crosswordAnswers), row)
           && row in crosswordAnswers
           && (forall i | 0 <= i < |crosswordAnswers| && SameKey(crosswordAnswers[i], attemptId, clueId) ::
                 crosswordAnswers[i] == row)
      ensures r.Err? ==> crosswordAnswers == old(crosswordAnswers)
      ensures attempts == old(attempts) && mcqSubmissions == old(mcqSubmissions)
      ensures leaderboard == old(leaderboard)
    {
      if !IsOpenAttempt(attempts, user, attemptId) {
        return Err(NotFound);
      }
      if clueId !in clues {
        return Err(InvalidInput);
      }
      var clue := clues[clueId];
      var verdict := ScoreCrossword(answer, clue);
      var row := Submission(attemptId, clueId, answer, verdict.isCorrect, verdict.pointsAwarded);
      UpsertSpec(crosswordAnswers, row);
      SubmitCrosswordPreserves(quizzes, questions, clues, attempts, mcqSubmissions, crosswordAnswers, leaderboard, row);
      crosswordAnswers := Upsert(crosswordAnswers, row);
      r := Ok(verdict);
    }

    /** `finalize_attempt`: 404 (and no change) unless the attempt is the
        user's and in progress; otherwise the attempt is saved as submitted
        with its computed score, the user's leaderboard row is fetched or
        created and given the better score and the fresh count, and the
        score is returned. */
    method FinalizeAttempt(user: UserId, attemptId: AttemptId, now: int) returns (r: Result<int>)
      requires Valid()
      modifies this
      ensures Valid()
      ensures r.Ok? <==> IsOpenAttempt(old(attempts), user, attemptId)
      ensures r.Err? ==> r.error == NotFound && attempts == old(attempts) && leaderboard == old(leaderboard)
      ensures r.Ok? ==>
        var a := old(attempts)[attemptId];
        && r.value == AttemptScore(mcqSubmissions, crosswordAnswers, attemptId)
        && r.value >= 0
        && attempts == old(attempts)[attemptId := Finalized(a, r.value, now)]
        && SubmittedCount(attempts, user, a.quiz) == SubmittedCount(old(attempts), user, a.quiz) + 1
        && leaderboard ==
             RecordResult(old(leaderboard), a.quiz, user, r.value, SubmittedCount(attempts, user, a.quiz), now)
        && FindEntry(leaderboard, a.quiz, user).Some?
        && leaderboard[FindEntry(leaderboard, a.quiz, user).value] ==
             LeaderboardEntry(a.quiz, user, Max(BestOf(old(leaderboard), a.quiz, user), r.value), now,
                              SubmittedCount(attempts, user, a.quiz))
      ensures forall k | 0 <= k < |old(leaderboard)| ::
        k < |leaderboard| && IsEntryOf(leaderboard[k], old(leaderboard)[k].quiz, old(leaderboard)[k].user) &&
        leaderboard[k].bestScore >= old(leaderboard)[k].bestScore
      ensures SubmittedFrozen(old(attempts), attempts)
      ensures mcqSubmissions == old(mcqSubmissions) && crosswordAnswers == old(crosswordAnswers)
    {
      if !IsOpenAttempt(attempts, user, attemptId) {
        return Err(NotFound);
      }
      var score := AttemptScore(mcqSubmissions, crosswordAnswers, attemptId);
      FinalizePreserves(quizzes, questions, clues, attempts, mcqSubmissions, crosswordAnswers, leaderboard, attemptId, now);
      SubmittedScoresNonNegative(quizzes, questions, clues, attempts, mcqSubmissions, crosswordAnswers, leaderboard, attemptId);
      RecordResultSpec(leaderboard, attempts[attemptId].quiz, user, score,
                       SubmittedCount(attempts[attemptId := Finalized(attempts[attemptId], score, now)], user, attempts[attemptId].quiz), now);
      // The attempt row, as saved.
      var attempt := attempts[attemptId];
      attempt := attempt.(endedAt := Some(now));
      attempt := attempt.(score := score);
      attempt := attempt.(isSubmitted := true);
      attempts := attempts[attemptId := attempt];
      // The leaderboard row: fetched or created, then updated and saved.
      var count := SubmittedCount(attempts, user, attempt.quiz);
      var fetched := GetOrCreate(leaderboard, attempt.quiz, user, now);
      var table, k := fetched.0, fetched.1;
      var entry := table[k];
      entry := entry.(bestScore := Max(entry.bestScore, score));
      entry := entry.(attemptsCount := count);
      entry := entry.(lastAttemptAt := now);
      leaderboard := table[k := entry];
      r := Ok(score);
    }
  }
}
