/** Record shapes of the quiz platform's tables (api/models.py): the fields
    the attempt lifecycle reads or writes, their defaults, and the
    uniqueness constraints it relies on. Time instants are plain integers. */
module Models {

  type UserId = int
  type QuizId = int
  type QuestionId = int
  type ClueId = int
  type CrosswordId = int
  /** An attempt is identified by its position in the attempt table. */
  type AttemptId = int

  datatype Option<+T> = None | Some(value: T)

  /** The error responses of the lifecycle endpoints: 404 for a quiz or an
      attempt that is absent or not in the expected state, 400 "Attempt not
      allowed", and 400 for a request the view or its serializer rejects. */
  datatype Error = NotFound | AttemptNotAllowed | InvalidInput

  datatype Result<+T> = Ok(value: T) | Err(error: Error)

  datatype QuizType = Mcq | Crossword

  /** The four option slots of a multiple-choice question. */
  datatype OptionTag = A | B | C | D

  datatype Direction = Across | Down

  /** A quiz: publication flag, optional time window and attempt limit
      (0 = unlimited). Title, description, time limit and total points are
      not read by the lifecycle. */
  datatype Quiz = Quiz(
    kind: QuizType,
    isPublished: bool,
    startTime: Option<int>,
    endTime: Option<int>,
    maxAttempts: nat)

  /** `Quiz.is_active`: the quiz is open at `now` unless it has not started
      yet or has already ended. Publication is not consulted. */
  function IsActive(quiz: Quiz, now: int): (active: bool)
    ensures active <==>
      (quiz.startTime.None? || quiz.startTime.value <= now) &&
      (quiz.endTime.None? || now <= quiz.endTime.value)
  {
    if quiz.startTime.Some? && now < quiz.startTime.value then false
    else if quiz.endTime.Some? && now > quiz.endTime.value then false
    else true
  }

  /** Publication plays no part in `is_active`; callers check it separately. */
  lemma IsActiveIgnoresPublication(quiz: Quiz, published: bool, now: int)
    ensures IsActive(quiz.(isPublished := published), now) == IsActive(quiz, now)
  {
  }

  /** The instants at which a quiz is active form one closed interval. */
  lemma ActiveInstantsAreInterval(quiz: Quiz, t1: int, t2: int, t3: int)
    requires t1 <= t2 <= t3
    requires IsActive(quiz, t1) && IsActive(quiz, t3)
    ensures IsActive(quiz, t2)
  {
  }

  /** A multiple-choice question; the option texts are not modelled. */
  datatype MCQQuestion = MCQQuestion(
    quiz: QuizId,
    correctOption: OptionTag,
    points: nat,
    order: nat)

  /** A crossword clue with its canonical answer. */
  datatype CrosswordClue = CrosswordClue(
    crossword: CrosswordId,
    number: nat,
    direction: Direction,
    row: nat,
    col: nat,
    answer: string,
    points: nat)

  /** Clues are unique per (crossword, number, direction). */
  predicate ClueKeysUnique(clues: map<ClueId, CrosswordClue>)
  {
    forall c1, c2 | c1 in clues && c2 in clues && c1 != c2 ::
      (clues[c1].crossword, clues[c1].number, clues[c1].direction) !=
      (clues[c2].crossword, clues[c2].number, clues[c2].direction)
  }

  /** One user's pass at one quiz. */
  datatype Attempt = Attempt(
    user: UserId,
    quiz: QuizId,
    startedAt: int,
    endedAt: Option<int>,
    score: int,
    isSubmitted: bool)

  /** An attempt as created: score 0, in progress, no end time. */
  function NewAttempt(user: UserId, quiz: QuizId, now: int): Attempt
  {
    Attempt(user, quiz, now, None, 0, false)
  }

  /** One answer row of an attempt: `MCQSubmission` when `V` is `OptionTag`
      (item = question), `CrosswordAnswer` when `V` is `string` (item = clue). */
  datatype Submission<V> = Submission(
    attempt: AttemptId,
    item: int,
    value: V,
    isCorrect: bool,
    pointsAwarded: int)

  type MCQSubmission = Submission<OptionTag>
  type CrosswordAnswer = Submission<string>

  /** The per-(quiz, user) aggregate row. */
  datatype LeaderboardEntry = LeaderboardEntry(
    quiz: QuizId,
    user: UserId,
    bestScore: int,
    lastAttemptAt: int,
    attemptsCount: nat)

  /** A leaderboard row as `get_or_create` makes it: both counters 0. */
  function NewLeaderboardEntry(quiz: QuizId, user: UserId, now: int): LeaderboardEntry
  {
    LeaderboardEntry(quiz, user, 0, now, 0)
  }

  function Max(a: int, b: int): int
  {
    if a >= b then a else b
  }
}
