/** The leaderboard table (api/models.py `LeaderboardEntry`, unique per
    (quiz, user)), the update `finalize_attempt` applies to it, and the
    `leaderboard` query: best score descending, then earliest
    `last_attempt_at`, at most 100 rows. */
module Leaderboard {
  import opened Models

  predicate IsEntryOf(e: LeaderboardEntry, quiz: QuizId, user: UserId)
  {
    e.quiz == quiz && e.user == user
  }

  /** `unique_together = ('quiz', 'user')`. */
  predicate EntryKeysUnique(rows: seq<LeaderboardEntry>)
  {
    forall i, j | 0 <= i < j < |rows| :: !IsEntryOf(rows[j], rows[i].quiz, rows[i].user)
  }

  /** The position of the (quiz, user) row, if there is one. */
  function FindEntry(rows: seq<LeaderboardEntry>, quiz: QuizId, user: UserId): (r: Option<nat>)
    ensures r.Some? ==> r.value < |rows| && IsEntryOf(rows[r.value], quiz, user)
    ensures r.None? ==> forall i | 0 <= i < |rows| :: !IsEntryOf(rows[i], quiz, user)
  {
    if |rows| == 0 then None
    else if IsEntryOf(rows[0], quiz, user) then Some(0)
    else
      match FindEntry(rows[1..], quiz, user)
      case None => None
      case Some(k) => Some(k + 1)
  }

  lemma FindEntryUnique(rows: seq<LeaderboardEntry>, i: nat)
    requires EntryKeysUnique(rows) && i < |rows|
    ensures FindEntry(rows, rows[i].quiz, rows[i].user) == Some(i)
  {
  }

  /** The best score the (quiz, user) row holds, 0 when there is no row (the
      field's default). */
  function BestOf(rows: seq<LeaderboardEntry>, quiz: QuizId, user: UserId): int
  {
    match FindEntry(rows, quiz, user)
    case Some(k) => rows[k].bestScore
    case None => 0
  }

  /** `get_or_create(quiz=…, user=…)`: the table, with a default row
      appended when there was none, and the position of the row. */
  function GetOrCreate(rows: seq<LeaderboardEntry>, quiz: QuizId, user: UserId, now: int)
    : (r: (seq<LeaderboardEntry>, nat))
    ensures r.1 < |r.0| && IsEntryOf(r.0[r.1], quiz, user)
    ensures |rows| <= |r.0| <= |rows| + 1 && r.0[..|rows|] == rows
    ensures |r.0| == |rows| + 1 <==> FindEntry(rows, quiz, user).None?
    ensures r.1 >= |rows| ==> r.0[r.1] == NewLeaderboardEntry(quiz, user, now)
  {
    match FindEntry(rows, quiz, user)
    case Some(k) => (rows, k)
    case None => (rows + [NewLeaderboardEntry(quiz, user, now)], |rows|)
  }

  /** The field updates of `finalize_attempt` before `lb.save()`, which also
      stamps `last_attempt_at`. */
  function Updated(e: LeaderboardEntry, score: int, count: nat, now: int): LeaderboardEntry
  {
    e.(bestScore := Max(e.bestScore, score), attemptsCount := count, lastAttemptAt := now)
  }

  /** The whole leaderboard write of one finalize. */
  function RecordResult(rows: seq<LeaderboardEntry>, quiz: QuizId, user: UserId, score: int, count: nat, now: int)
    : seq<LeaderboardEntry>
  {
    var (created, k) := GetOrCreate(rows, quiz, user, now);
    created[k := Updated(created[k], score, count, now)]
  }

  /** After recording a result there is exactly one (quiz, user) row; its
      best score is the maximum of the old best (0 for a fresh row) and the
      new score, its count is the recount, and no other row changes. Every
      existing row keeps its key and no row's best score goes down. */
  lemma RecordResultSpec(rows: seq<LeaderboardEntry>, quiz: QuizId, user: UserId, score: int, count: nat, now: int)
    requires EntryKeysUnique(rows)
    ensures var r := RecordResult(rows, quiz, user, score, count, now);
      && EntryKeysUnique(r)
      && FindEntry(r, quiz, user).Some?
      && r[FindEntry(r, quiz, user).value] ==
           LeaderboardEntry(quiz, user, Max(BestOf(rows, quiz, user), score), now, count)
      && |r| == |rows| + (if FindEntry(rows, quiz, user).Some? then 0 else 1)
      && (forall k | 0 <= k < |rows| ::
            IsEntryOf(r[k], rows[k].quiz, rows[k].user) && r[k].bestScore >= rows[k].bestScore)
      && (forall k | 0 <= k < |rows| && !IsEntryOf(rows[k], quiz, user) :: r[k] == rows[k])
  {
    var r := RecordResult(rows, quiz, user, score, count, now);
    var (created, k) := GetOrCreate(rows, quiz, user, now);
    assert EntryKeysUnique(created);
    FindEntryUnique(r, k);
  }

  /** Two finalizes by the same user on the same quiz leave the larger score,
      whichever order they commit in. */
  lemma RecordResultOrderIndependent(
    rows: seq<LeaderboardEntry>, quiz: QuizId, user: UserId,
    s1: int, c1: nat, t1: int, s2: int, c2: nat, t2: int)
    requires EntryKeysUnique(rows)
    ensures BestOf(RecordResult(RecordResult(rows, quiz, user, s1, c1, t1), quiz, user, s2, c2, t2), quiz, user)
         == Max(BestOf(rows, quiz, user), Max(s1, s2))
    ensures BestOf(RecordResult(RecordResult(rows, quiz, user, s2, c2, t2), quiz, user, s1, c1, t1), quiz, user)
         == Max(BestOf(rows, quiz, user), Max(s1, s2))
  {
    RecordResultSpec(rows, quiz, user, s1, c1, t1);
    RecordResultSpec(RecordResult(rows, quiz, user, s1, c1, t1), quiz, user, s2, c2, t2);
    RecordResultSpec(rows, quiz, user, s2, c2, t2);
    RecordResultSpec(RecordResult(rows, quiz, user, s2, c2, t2), quiz, user, s1, c1, t1);
  }

  // ----- the leaderboard query ---------------------------------------------

  /** The page size of the `leaderboard` endpoint. */
  const PageSize: nat := 100

  /** `order_by('-best_score', 'last_attempt_at')`: `a` may be listed before `b`. */
  predicate RanksBefore(a: LeaderboardEntry, b: LeaderboardEntry)
  {
    a.bestScore > b.bestScore || (a.bestScore == b.bestScore && a.lastAttemptAt <= b.lastAttemptAt)
  }

  predicate Ranked(s: seq<LeaderboardEntry>)
  {
    forall i, j | 0 <= i < j < |s| :: RanksBefore(s[i], s[j])
  }

  function Insert(e: LeaderboardEntry, s: seq<LeaderboardEntry>): (r: seq<LeaderboardEntry>)
    ensures |r| == |s| + 1 && e in r
  {
    if |s| == 0 then [e]
    else if RanksBefore(e, s[0]) then [e] + s
    else [s[0]] + Insert(e, s[1..])
  }

  /** The ranking order is transitive and any two rows are comparable. */
  lemma RanksBeforeOrder(a: LeaderboardEntry, b: LeaderboardEntry, c: LeaderboardEntry)
    ensures RanksBefore(a, b) || RanksBefore(b, a)
    ensures RanksBefore(a, b) && RanksBefore(b, c) ==> RanksBefore(a, c)
  {
  }

  lemma {:induction false} InsertMultiset(e: LeaderboardEntry, s: seq<LeaderboardEntry>)
    ensures multiset(Insert(e, s)) == multiset(s) + multiset{e}
  {
    if |s| > 0 && !RanksBefore(e, s[0]) {
      InsertMultiset(e, s[1..]);
      assert s == [s[0]] + s[1..];
    }
  }

  /** A row that ranks before everything in a ranked sequence can head it. */
  lemma PrependRanked(head: LeaderboardEntry, s: seq<LeaderboardEntry>)
    requires Ranked(s)
    requires forall x | x in s :: RanksBefore(head, x)
    ensures Ranked([head] + s)
  {
    var r := [head] + s;
    forall i, j | 0 <= i < j < |r| ensures RanksBefore(r[i], r[j]) {
      if i == 0 {
        assert r[j] == s[j - 1];
      } else {
        assert r[i] == s[i - 1] && r[j] == s[j - 1];
      }
    }
  }

  /** Inserting into a ranked sequence keeps it ranked and adds exactly `e`. */
  lemma {:induction false} InsertSpec(e: LeaderboardEntry, s: seq<LeaderboardEntry>)
    requires Ranked(s)
    ensures Ranked(Insert(e, s))
    ensures multiset(Insert(e, s)) == multiset(s) + multiset{e}
  {
    InsertMultiset(e, s);
    if |s| == 0 {
    } else if RanksBefore(e, s[0]) {
      forall x | x in s ensures RanksBefore(e, x) {
        RanksBeforeOrder(e, s[0], x);
      }
      PrependRanked(e, s);
    } else {
      var tail := Insert(e, s[1..]);
      InsertSpec(e, s[1..]);
      RanksBeforeOrder(e, s[0], e);
      assert s == [s[0]] + s[1..];
      forall x | x in tail ensures RanksBefore(s[0], x) {
        assert x in multiset(tail);
      }
      PrependRanked(s[0], tail);
    }
  }

  /** Sorts by the ranking order (an insertion sort). */
  function Sort(s: seq<LeaderboardEntry>): (r: seq<LeaderboardEntry>)
    ensures |r| == |s|
  {
    if |s| == 0 then [] else Insert(s[0], Sort(s[1..]))
  }

  lemma {:induction false} SortSpec(s: seq<LeaderboardEntry>)
    ensures Ranked(Sort(s))
    ensures multiset(Sort(s)) == multiset(s)
  {
    if |s| > 0 {
      SortSpec(s[1..]);
      InsertSpec(s[0], Sort(s[1..]));
      assert s == [s[0]] + s[1..];
    }
  }

  /** `LeaderboardEntry.objects.filter(quiz=…)`. */
  function OfQuiz(rows: seq<LeaderboardEntry>, quiz: QuizId): (r: seq<LeaderboardEntry>)
    ensures |r| <= |rows|
    ensures forall i | 0 <= i < |r| :: r[i].quiz == quiz
  {
    if |rows| == 0 then []
    else (if rows[0].quiz == quiz then [rows[0]] else []) + OfQuiz(rows[1..], quiz)
  }

  lemma {:induction false} OfQuizSpec(rows: seq<LeaderboardEntry>, quiz: QuizId)
    ensures forall x :: x in OfQuiz(rows, quiz) <==> x in rows && x.quiz == quiz
    ensures forall x :: multiset(OfQuiz(rows, quiz))[x] == if x.quiz == quiz then multiset(rows)[x] else 0
  {
    if |rows| > 0 {
      OfQuizSpec(rows[1..], quiz);
      assert rows == [rows[0]] + rows[1..];
    }
  }

  /** The rows the endpoint returns for a quiz. */
  function TopEntries(rows: seq<LeaderboardEntry>, quiz: QuizId): seq<LeaderboardEntry>
  {
    var ranked := Sort(OfQuiz(rows, quiz));
    ranked[..if |ranked| <= PageSize then |ranked| else PageSize]
  }

  /** A prefix of a ranked sequence is ranked, and everything after the
      prefix ranks after everything in it. */
  lemma RankedPrefix(ranked: seq<LeaderboardEntry>, n: nat)
    requires Ranked(ranked) && n <= |ranked|
    ensures Ranked(ranked[..n])
    ensures multiset(ranked[..n]) <= multiset(ranked)
    ensures forall x, y | y in ranked[..n] && x in multiset(ranked) - multiset(ranked[..n]) :: RanksBefore(y, x)
  {
    var top := ranked[..n];
    assert ranked == top + ranked[n..];
    assert multiset(ranked) == multiset(top) + multiset(ranked[n..]);
    forall x, y | y in top && x in multiset(ranked) - multiset(top) ensures RanksBefore(y, x) {
      assert x in multiset(ranked[n..]);
      var j :| n <= j < |ranked| && ranked[j] == x;
      var i :| 0 <= i < n && ranked[i] == y;
    }
  }

  /** The page holds the quiz's first 100 rows in ranking order, or all of
      them when there are fewer; a row of the quiz left off the page ranks
      after every row on it. */
  lemma TopEntriesSpec(rows: seq<LeaderboardEntry>, quiz: QuizId)
    ensures var top := TopEntries(rows, quiz);
      && |top| == (if |OfQuiz(rows, quiz)| <= PageSize then |OfQuiz(rows, quiz)| else PageSize)
      && (forall x | x in top :: x in rows && x.quiz == quiz)
      && Ranked(top)
      && multiset(top) <= multiset(OfQuiz(rows, quiz))
      && (|OfQuiz(rows, quiz)| <= PageSize ==> multiset(top) == multiset(OfQuiz(rows, quiz)))
      && (forall x, y | y in top && x in multiset(OfQuiz(rows, quiz)) - multiset(top) :: RanksBefore(y, x))
  {
    var all := OfQuiz(rows, quiz);
    var ranked := Sort(all);
    SortSpec(all);
    OfQuizSpec(rows, quiz);
    var n := if |ranked| <= PageSize then |ranked| else PageSize;
    RankedPrefix(ranked, n);
    var top := ranked[..n];
    assert top == TopEntries(rows, quiz);
    assert |all| <= PageSize ==> top == ranked;
    forall x | x in top ensures x in rows && x.quiz == quiz {
      assert x in multiset(top);
      assert x in multiset(all);
    }
  }

  /** The `leaderboard` endpoint: 404 for an unknown quiz (publication is not
      checked), otherwise the ranked page. */
  function LeaderboardView(quizzes: map<QuizId, Quiz>, rows: seq<LeaderboardEntry>, quizId: QuizId)
    : (r: Result<seq<LeaderboardEntry>>)
    ensures r.Err? <==> quizId !in quizzes
    ensures r.Err? ==> r.error == NotFound
    ensures r.Ok? ==>
      var all := OfQuiz(rows, quizId);
      && |r.value| == (if |all| <= PageSize then |all| else PageSize)
      && (forall x | x in r.value :: x in rows && x.quiz == quizId)
      && Ranked(r.value)
      && multiset(r.value) <= multiset(all)
      && (|all| <= PageSize ==> multiset(r.value) == multiset(all))
      && (forall x, y | y in r.value && x in multiset(all) - multiset(r.value) :: RanksBefore(y, x))
  {
    if quizId !in quizzes then Err(NotFound)
    else
      TopEntriesSpec(rows, quizId);
      Ok(TopEntries(rows, quizId))
  }
}
