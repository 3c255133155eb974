/** Queries over the attempt table used by the lifecycle (api/views.py):
    the submitted-attempt count behind both the start gate and the
    leaderboard recount, the best submitted score, the score aggregate, and
    the start gate itself. */
module Attempts {
  import opened Models
  import opened SubmissionTables

  predicate Belongs(a: Attempt, user: UserId, quiz: QuizId)
  {
    a.user == user && a.quiz == quiz
  }

  /** `Attempt.objects.filter(user=…, quiz=…, is_submitted=True).count()`. */
  function SubmittedCount(attempts: seq<Attempt>, user: UserId, quiz: QuizId): (n: nat)
    ensures n <= |attempts|
  {
    if |attempts| == 0 then 0
    else
      var last := attempts[|attempts| - 1];
      SubmittedCount(attempts[..|attempts| - 1], user, quiz) +
        (if last.isSubmitted && Belongs(last, user, quiz) then 1 else 0)
  }

  /** The best score among the user's submitted attempts on the quiz, where
      the leaderboard's default of 0 is the floor. */
  function BestSubmittedScore(attempts: seq<Attempt>, user: UserId, quiz: QuizId): (best: int)
    ensures best >= 0
  {
    if |attempts| == 0 then 0
    else
      var last := attempts[|attempts| - 1];
      var rest := BestSubmittedScore(attempts[..|attempts| - 1], user, quiz);
      if last.isSubmitted && Belongs(last, user, quiz) then Max(rest, last.score) else rest
  }

  /** `BestSubmittedScore` is the maximum of 0 and the submitted scores: it
      bounds each of them and is either 0 or reached by one of them. */
  lemma {:induction false} BestSubmittedScoreSpec(attempts: seq<Attempt>, user: UserId, quiz: QuizId)
    ensures BestSubmittedScore(attempts, user, quiz) >= 0
    ensures forall i | 0 <= i < |attempts| && attempts[i].isSubmitted && Belongs(attempts[i], user, quiz) ::
      attempts[i].score <= BestSubmittedScore(attempts, user, quiz)
    ensures BestSubmittedScore(attempts, user, quiz) == 0 ||
      exists i | 0 <= i < |attempts| :: attempts[i].isSubmitted && Belongs(attempts[i], user, quiz) &&
        attempts[i].score == BestSubmittedScore(attempts, user, quiz)
  {
    if |attempts| > 0 {
      var prefix := attempts[..|attempts| - 1];
      BestSubmittedScoreSpec(prefix, user, quiz);
      assert forall i | 0 <= i < |prefix| :: prefix[i] == attempts[i];
    }
  }

  /** The count is zero exactly when no attempt of the user on the quiz is
      submitted. */
  lemma {:induction false} SubmittedCountZero(attempts: seq<Attempt>, user: UserId, quiz: QuizId)
    ensures SubmittedCount(attempts, user, quiz) == 0 <==>
      forall i | 0 <= i < |attempts| :: !(attempts[i].isSubmitted && Belongs(attempts[i], user, quiz))
  {
    if |attempts| > 0 {
      var prefix := attempts[..|attempts| - 1];
      SubmittedCountZero(prefix, user, quiz);
      assert forall i | 0 <= i < |prefix| :: prefix[i] == attempts[i];
    }
  }

  /** Adding an in-progress attempt changes neither the count nor the best. */
  lemma AppendInProgress(attempts: seq<Attempt>, a: Attempt, user: UserId, quiz: QuizId)
    requires !a.isSubmitted
    ensures SubmittedCount(attempts + [a], user, quiz) == SubmittedCount(attempts, user, quiz)
    ensures BestSubmittedScore(attempts + [a], user, quiz) == BestSubmittedScore(attempts, user, quiz)
  {
    assert (attempts + [a])[..|attempts|] == attempts;
  }

  /** Replacing the in-progress attempt at `i` by its submitted form `a`
      adds one to the count of its (user, quiz) pair and takes the maximum
      with `a.score` for its best; every other pair is unaffected. */
  lemma {:induction false} SubmitAt(attempts: seq<Attempt>, i: nat, a: Attempt, user: UserId, quiz: QuizId)
    requires i < |attempts| && !attempts[i].isSubmitted && a.isSubmitted
    requires a.user == attempts[i].user && a.quiz == attempts[i].quiz
    ensures SubmittedCount(attempts[i := a], user, quiz) ==
      SubmittedCount(attempts, user, quiz) + (if Belongs(a, user, quiz) then 1 else 0)
    ensures BestSubmittedScore(attempts[i := a], user, quiz) ==
      if Belongs(a, user, quiz) then Max(BestSubmittedScore(attempts, user, quiz), a.score)
      else BestSubmittedScore(attempts, user, quiz)
  {
    var n := |attempts|;
    var updated := attempts[i := a];
    if i == n - 1 {
      assert updated[..n - 1] == attempts[..n - 1];
    } else {
      assert updated[..n - 1] == attempts[..n - 1][i := a];
      SubmitAt(attempts[..n - 1], i, a, user, quiz);
    }
  }

  /** `_compute_score`: the multiple-choice total plus the crossword total. */
  function AttemptScore(mcq: seq<MCQSubmission>, crossword: seq<CrosswordAnswer>, attempt: AttemptId): int
  {
    PointsFor(mcq, attempt) + PointsFor(crossword, attempt)
  }

  /** The score of an attempt is never negative, and is 0 without answers. */
  lemma AttemptScoreBounds(mcq: seq<MCQSubmission>, crossword: seq<CrosswordAnswer>, attempt: AttemptId)
    requires PointsNonNegative(mcq) && PointsNonNegative(crossword)
    ensures AttemptScore(mcq, crossword, attempt) >= 0
    ensures (forall i | 0 <= i < |mcq| :: mcq[i].attempt != attempt) &&
            (forall i | 0 <= i < |crossword| :: crossword[i].attempt != attempt) ==>
            AttemptScore(mcq, crossword, attempt) == 0
  {
    PointsForNonNegative(mcq, attempt);
    PointsForNonNegative(crossword, attempt);
    if (forall i | 0 <= i < |mcq| :: mcq[i].attempt != attempt) &&
       (forall i | 0 <= i < |crossword| :: crossword[i].attempt != attempt) {
      PointsForNoRows(mcq, attempt);
      PointsForNoRows(crossword, attempt);
    }
  }

  /** `_can_start_attempt`: the quiz is inside its window and the user has
      fewer submitted attempts than the limit, a limit of 0 meaning none. */
  function CanStartAttempt(attempts: seq<Attempt>, user: UserId, quizId: QuizId, quiz: Quiz, now: int): (ok: bool)
    ensures ok <==>
      (IsActive(quiz, now) &&
       (quiz.maxAttempts == 0 || SubmittedCount(attempts, user, quizId) < quiz.maxAttempts))
  {
    if !IsActive(quiz, now) then false
    else
      var submitted := SubmittedCount(attempts, user, quizId);
      if quiz.maxAttempts > 0 then submitted < quiz.maxAttempts else true
  }

  /** The row `Attempt.objects.get(id=…, user=…, is_submitted=False)` finds. */
  predicate IsOpenAttempt(attempts: seq<Attempt>, user: UserId, id: AttemptId)
  {
    0 <= id < |attempts| && attempts[id].user == user && !attempts[id].isSubmitted
  }

  /** The attempt as `finalize_attempt` saves it. */
  function Finalized(a: Attempt, score: int, now: int): Attempt
  {
    a.(endedAt := Some(now), score := score, isSubmitted := true)
  }
}
