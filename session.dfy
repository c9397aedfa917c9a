/**
 * The quiz session: after the tier is read and lower-cased, each turn fetches a
 * question at that tier, reads and upper-cases an answer, scores it, and writes
 * `(user_id, score)` to `res`; the session ends at the first "EXIT" or the first
 * fetch that finds nothing.
 *
 * `Play` and `Session` say what a whole session does, as a function of the
 * question table, the store's draws and the console lines; `Quiz.StartQuiz` is the
 * loop, proved to do exactly that.
 */
module Session {
  import opened Wrappers
  import opened Ascii
  import opened Records
  import opened Store
  import opened Terminal

  /** The answer token that ends the quiz. */
  const EXIT_TOKEN := "EXIT"

  /** How a session ended: by "EXIT", by a fetch that found nothing, or by running out of input. */
  datatype Ending = Exited | NoQuestions | InputClosed

  /** A served and answered turn: the question and the upper-cased answer token. */
  datatype Turn = Turn(question: Question, token: string)

  /** What a session did: its turns, the `res` rows it wrote, its final score and how it ended. */
  datatype Trace = Trace(turns: seq<Turn>, rows: seq<ResultRow>, score: int, ending: Ending)

  /** A turn earns a point when its token is not "EXIT" and equals the correct option. */
  predicate Earns(t: Turn)
  {
    t.token != EXIT_TOKEN && t.token == t.question.correctOption
  }

  function Gain(t: Turn): nat
  {
    if Earns(t) then 1 else 0
  }

  /** The number of turns that earn a point. */
  function CountCorrect(turns: seq<Turn>): (n: nat)
    ensures n <= |turns|
  {
    if turns == [] then 0 else Gain(turns[0]) + CountCorrect(turns[1..])
  }

  /** `rest` preceded by one more turn and the row written after it. */
  function Prepend(head: Turn, row: ResultRow, rest: Trace): Trace
  {
    Trace([head] + rest.turns, [row] + rest.rows, rest.score, rest.ending)
  }

  /**
   * The turns from turn number `turn` on, with the score at `score`. `fetch(k)` is
   * what the `k`th fetch returns; `answers` are the console lines after the tier.
   */
  function Play(uid: int, fetch: nat -> Option<Question>, answers: seq<string>, turn: nat, score: int): (t: Trace)
    requires turn <= |answers|
    ensures |t.rows| == |t.turns|
    ensures turn + |t.turns| <= |answers|
    ensures t.score >= score
    decreases |answers| - turn
  {
    match fetch(turn)
    case None => Trace([], [], score, NoQuestions)
    case Some(q) =>
      if turn == |answers| then Trace([], [], score, InputClosed)
      else
        var token := UpperCase(answers[turn]);
        if token == EXIT_TOKEN then Trace([Turn(q, token)], [(uid, score)], score, Exited)
        else
          var s := if token == q.correctOption then score + 1 else score;
          Prepend(Turn(q, token), (uid, s), Play(uid, fetch, answers, turn + 1, s))
  }

  /** The fetches of a session: the `k`th one asks `que` for `level` and draws `pick(k)`. */
  function Fetcher(que: seq<QuestionRow>, level: string, pick: nat -> nat): nat -> Option<Question>
  {
    (k: nat) => FetchQuestionByDifficulty(que, level, pick(k))
  }

  /** A whole session: the first console line is the tier, lower-cased once for every fetch. */
  function Session(uid: int, score: int, que: seq<QuestionRow>, pick: nat -> nat, input: seq<string>): (t: Trace)
    ensures input == [] ==> t == Trace([], [], score, InputClosed)
    ensures input != [] ==> |t.turns| < |input|
    ensures |t.rows| == |t.turns| && t.score >= score
  {
    if input == [] then Trace([], [], score, InputClosed)
    else Play(uid, Fetcher(que, LowerCase(input[0]), pick), input[1..], 0, score)
  }

  /**
   * One turn of `Play` that neither exits nor runs out: a question `q` is fetched, the
   * answer is not "EXIT", and the rest of the session continues from the new score.
   */
  lemma PlayContinues(uid: int, fetch: nat -> Option<Question>, answers: seq<string>, turn: nat, score: int, q: Question)
    requires turn < |answers|
    requires fetch(turn) == Some(q)
    requires UpperCase(answers[turn]) != EXIT_TOKEN
    ensures var head := Turn(q, UpperCase(answers[turn]));
      var s := score + Gain(head);
      Play(uid, fetch, answers, turn, score) == Prepend(head, (uid, s), Play(uid, fetch, answers, turn + 1, s))
  {
  }

  /** The turns of `Play` that end it at once: an empty fetch, exhausted input, or "EXIT". */
  lemma PlayStops(uid: int, fetch: nat -> Option<Question>, answers: seq<string>, turn: nat, score: int)
    requires turn <= |answers|
    ensures var f := fetch(turn);
      var t := Play(uid, fetch, answers, turn, score);
      && (f.None? ==> t == Trace([], [], score, NoQuestions))
      && (f.Some? && turn == |answers| ==> t == Trace([], [], score, InputClosed))
      && (f.Some? && turn < |answers| && UpperCase(answers[turn]) == EXIT_TOKEN ==>
            t == Trace([Turn(f.value, EXIT_TOKEN)], [(uid, score)], score, Exited))
  {
  }

  /**
   * Row `i` was written after turn `i` and carries the score after it: the starting
   * score plus the points of turns `0..i`; the final score is the starting score plus
   * the points of all turns.
   */
  ghost predicate RunningScores(t: Trace, uid: int, score: int)
  {
    && |t.rows| == |t.turns|
    && t.score == score + CountCorrect(t.turns)
    && forall i :: 0 <= i < |t.rows| ==> t.rows[i] == (uid, score + CountCorrect(t.turns[..i + 1]))
  }

  /** The rows written after `turns`, starting from `score`: each carries the score after its turn. */
  function RunningRows(uid: int, score: int, turns: seq<Turn>): (rows: seq<ResultRow>)
    ensures |rows| == |turns|
    decreases turns
  {
    if turns == [] then []
    else
      var s := score + Gain(turns[0]);
      [(uid, s)] + RunningRows(uid, s, turns[1..])
  }

  /** Row `i` of the running rows holds the starting score plus the points of turns `0..i`. */
  lemma {:induction false} RunningRowsAt(uid: int, score: int, turns: seq<Turn>)
    ensures forall i :: 0 <= i < |turns| ==> RunningRows(uid, score, turns)[i] == (uid, score + CountCorrect(turns[..i + 1]))
    decreases turns
  {
    if turns != [] {
      var s := score + Gain(turns[0]);
      RunningRowsAt(uid, s, turns[1..]);
      forall i | 0 <= i < |turns|
        ensures RunningRows(uid, score, turns)[i] == (uid, score + CountCorrect(turns[..i + 1]))
      {
        assert turns[..i + 1][1..] == turns[1..][..i];
        if i > 0 {
          assert turns[1..][..i] == turns[1..][..(i - 1) + 1];
        }
      }
    }
  }

  /** `t` wrote exactly the running rows of its turns, and its score counts all their points. */
  ghost predicate RowsRun(t: Trace, uid: int, score: int)
  {
    && t.rows == RunningRows(uid, score, t.turns)
    && t.score == score + CountCorrect(t.turns)
  }

  /** One more turn in front of `rest`, with the row it writes, keeps the running rows. */
  lemma RowsRunPrepend(t: Trace, uid: int, score: int, head: Turn, rest: Trace)
    requires RowsRun(rest, uid, score + Gain(head))
    requires t == Prepend(head, (uid, score + Gain(head)), rest)
    ensures RowsRun(t, uid, score)
  {
    assert t.turns[1..] == rest.turns;
  }

  /** A session that stops at turn `turn` (no question, no input or "EXIT") writes the running rows. */
  lemma RowsRunOfStop(uid: int, fetch: nat -> Option<Question>, answers: seq<string>, turn: nat, score: int)
    requires turn <= |answers|
    requires fetch(turn).None? || turn == |answers| || UpperCase(answers[turn]) == EXIT_TOKEN
    ensures RowsRun(Play(uid, fetch, answers, turn, score), uid, score)
  {
    PlayStops(uid, fetch, answers, turn, score);
    if fetch(turn).Some? && turn < |answers| {
      var head := Turn(fetch(turn).value, EXIT_TOKEN);
      assert [head][1..] == [];
    }
  }

  /** A turn that continues the session extends the running rows of the rest by its own row. */
  lemma RowsRunOfTurn(uid: int, fetch: nat -> Option<Question>, answers: seq<string>, turn: nat, score: int, q: Question)
    requires turn < |answers| && fetch(turn) == Some(q) && UpperCase(answers[turn]) != EXIT_TOKEN
    requires var s := score + Gain(Turn(q, UpperCase(answers[turn])));
      RowsRun(Play(uid, fetch, answers, turn + 1, s), uid, s)
    ensures RowsRun(Play(uid, fetch, answers, turn, score), uid, score)
  {
    var head := Turn(q, UpperCase(answers[turn]));
    var s := score + Gain(head);
    PlayContinues(uid, fetch, answers, turn, score, q);
    RowsRunPrepend(Play(uid, fetch, answers, turn, score), uid, score, head, Play(uid, fetch, answers, turn + 1, s));
  }

  /** A session writes exactly the running rows of the turns it serves. */
  lemma {:induction false} PlayRowsRun(uid: int, fetch: nat -> Option<Question>, answers: seq<string>,
                                       turn: nat, score: int)
    requires turn <= |answers|
    ensures RowsRun(Play(uid, fetch, answers, turn, score), uid, score)
    decreases |answers| - turn
  {
    var f := fetch(turn);
    if f.Some? && turn < |answers| && UpperCase(answers[turn]) != EXIT_TOKEN {
      var s := score + Gain(Turn(f.value, UpperCase(answers[turn])));
      PlayRowsRun(uid, fetch, answers, turn + 1, s);
      RowsRunOfTurn(uid, fetch, answers, turn, score, f.value);
    } else {
      RowsRunOfStop(uid, fetch, answers, turn, score);
    }
  }

  /** Every row of a session carries the running score, and the final score counts the turns that earned a point. */
  lemma RowsCarryRunningScore(uid: int, fetch: nat -> Option<Question>, answers: seq<string>, turn: nat, score: int)
    requires turn <= |answers|
    ensures RunningScores(Play(uid, fetch, answers, turn, score), uid, score)
  {
    var t := Play(uid, fetch, answers, turn, score);
    PlayRowsRun(uid, fetch, answers, turn, score);
    RunningRowsAt(uid, score, t.turns);
  }

  /** A longer prefix of the turns never has fewer points. */
  lemma {:induction false} CountCorrectPrefix(turns: seq<Turn>, i: nat, j: nat)
    requires i <= j <= |turns|
    ensures CountCorrect(turns[..i]) <= CountCorrect(turns[..j]) <= CountCorrect(turns)
  {
    if i > 0 {
      CountCorrectPrefix(turns[1..], i - 1, j - 1);
      assert turns[..i][1..] == turns[1..][..i - 1];
      assert turns[..j][1..] == turns[1..][..j - 1];
    } else if j > 0 {
      CountCorrectPrefix(turns[1..], 0, j - 1);
      assert turns[..j][1..] == turns[1..][..j - 1];
    } else if turns != [] {
      CountCorrectPrefix(turns[1..], 0, 0);
    }
  }

  /** The scores written to `res` never fall: they start no lower than the starting score and end at the final score. */
  lemma ScoreNeverDecreases(uid: int, fetch: nat -> Option<Question>, answers: seq<string>, turn: nat, score: int)
    requires turn <= |answers|
    ensures var t := Play(uid, fetch, answers, turn, score);
      && (forall i :: 0 <= i < |t.rows| ==> score <= t.rows[i].1 <= t.score)
      && (forall i, j :: 0 <= i <= j < |t.rows| ==> t.rows[i].1 <= t.rows[j].1)
  {
    var t := Play(uid, fetch, answers, turn, score);
    RowsCarryRunningScore(uid, fetch, answers, turn, score);
    forall i | 0 <= i < |t.rows| ensures score <= t.rows[i].1 <= t.score {
      CountCorrectPrefix(t.turns, i + 1, i + 1);
    }
    forall i, j | 0 <= i <= j < |t.rows| ensures t.rows[i].1 <= t.rows[j].1 {
      CountCorrectPrefix(t.turns, i + 1, j + 1);
    }
  }

  /** Turn `i` of `t` served the `(turn + i)`th fetch and read the `(turn + i)`th answer, upper-cased. */
  ghost predicate FollowsInput(t: Trace, fetch: nat -> Option<Question>, answers: seq<string>, turn: nat)
  {
    && turn + |t.turns| <= |answers|
    && forall i :: 0 <= i < |t.turns| ==>
         fetch(turn + i) == Some(t.turns[i].question) && t.turns[i].token == UpperCase(answers[turn + i])
  }

  /**
   * `t` stopped at the right place: only its last turn may have answered "EXIT", and it
   * ended by "EXIT" exactly when that one did; otherwise the next fetch decides, ending
   * for want of questions when it found none and for want of input, after the last
   * answer, when it found one.
   */
  ghost predicate StopsRight(t: Trace, fetch: nat -> Option<Question>, answers: seq<string>, turn: nat)
  {
    var n := |t.turns|;
    && (forall i :: 0 <= i < n - 1 ==> t.turns[i].token != EXIT_TOKEN)
    && (t.ending == Exited <==> n > 0 && t.turns[n - 1].token == EXIT_TOKEN)
    && (t.ending != Exited ==> (t.ending == NoQuestions <==> fetch(turn + n).None?))
    && (t.ending == InputClosed ==> turn + n == |answers|)
  }

  lemma FollowsInputPrepend(t: Trace, head: Turn, row: ResultRow, rest: Trace,
                            fetch: nat -> Option<Question>, answers: seq<string>, turn: nat)
    requires turn < |answers| && fetch(turn) == Some(head.question) && head.token == UpperCase(answers[turn])
    requires FollowsInput(rest, fetch, answers, turn + 1)
    requires t == Prepend(head, row, rest)
    ensures FollowsInput(t, fetch, answers, turn)
  {
    forall i | 0 <= i < |t.turns|
      ensures fetch(turn + i) == Some(t.turns[i].question) && t.turns[i].token == UpperCase(answers[turn + i])
    {
      if i > 0 {
        assert t.turns[i] == rest.turns[i - 1] && turn + i == (turn + 1) + (i - 1);
      }
    }
  }

  lemma StopsRightPrepend(t: Trace, head: Turn, row: ResultRow, rest: Trace,
                          fetch: nat -> Option<Question>, answers: seq<string>, turn: nat)
    requires head.token != EXIT_TOKEN
    requires StopsRight(rest, fetch, answers, turn + 1)
    requires t == Prepend(head, row, rest)
    ensures StopsRight(t, fetch, answers, turn)
  {
    var m := |rest.turns|;
    assert turn + |t.turns| == (turn + 1) + m;
    forall i | 0 <= i < |t.turns| - 1 ensures t.turns[i].token != EXIT_TOKEN {
      if i > 0 { assert t.turns[i] == rest.turns[i - 1]; }
    }
    if m > 0 {
      assert t.turns[|t.turns| - 1] == rest.turns[m - 1];
    }
  }

  /** A session that stops at turn `turn` follows its input and stops at the right place. */
  lemma StopsRightOfStop(uid: int, fetch: nat -> Option<Question>, answers: seq<string>, turn: nat, score: int)
    requires turn <= |answers|
    requires fetch(turn).None? || turn == |answers| || UpperCase(answers[turn]) == EXIT_TOKEN
    ensures FollowsInput(Play(uid, fetch, answers, turn, score), fetch, answers, turn)
    ensures StopsRight(Play(uid, fetch, answers, turn, score), fetch, answers, turn)
  {
    PlayStops(uid, fetch, answers, turn, score);
  }

  /** A turn that continues the session keeps following the input and stopping at the right place. */
  lemma StopsRightOfTurn(uid: int, fetch: nat -> Option<Question>, answers: seq<string>, turn: nat, score: int, q: Question)
    requires turn < |answers| && fetch(turn) == Some(q) && UpperCase(answers[turn]) != EXIT_TOKEN
    requires var s := score + Gain(Turn(q, UpperCase(answers[turn])));
      && FollowsInput(Play(uid, fetch, answers, turn + 1, s), fetch, answers, turn + 1)
      && StopsRight(Play(uid, fetch, answers, turn + 1, s), fetch, answers, turn + 1)
    ensures FollowsInput(Play(uid, fetch, answers, turn, score), fetch, answers, turn)
    ensures StopsRight(Play(uid, fetch, answers, turn, score), fetch, answers, turn)
  {
    var head := Turn(q, UpperCase(answers[turn]));
    var s := score + Gain(head);
    var t := Play(uid, fetch, answers, turn, score);
    var rest := Play(uid, fetch, answers, turn + 1, s);
    PlayContinues(uid, fetch, answers, turn, score, q);
    FollowsInputPrepend(t, head, (uid, s), rest, fetch, answers, turn);
    StopsRightPrepend(t, head, (uid, s), rest, fetch, answers, turn);
  }

  /**
   * A session's turns are its fetches and answers in order, and it ends at the first
   * "EXIT" or the first fetch that finds nothing (or when the input runs out).
   */
  lemma {:induction false} StopsAtFirstExitOrEmptyFetch(uid: int, fetch: nat -> Option<Question>, answers: seq<string>,
                                                        turn: nat, score: int)
    requires turn <= |answers|
    ensures FollowsInput(Play(uid, fetch, answers, turn, score), fetch, answers, turn)
    ensures StopsRight(Play(uid, fetch, answers, turn, score), fetch, answers, turn)
    decreases |answers| - turn
  {
    var f := fetch(turn);
    if f.Some? && turn < |answers| && UpperCase(answers[turn]) != EXIT_TOKEN {
      var s := score + Gain(Turn(f.value, UpperCase(answers[turn])));
      StopsAtFirstExitOrEmptyFetch(uid, fetch, answers, turn + 1, s);
      StopsRightOfTurn(uid, fetch, answers, turn, score, f.value);
    } else {
      StopsRightOfStop(uid, fetch, answers, turn, score);
    }
  }

  /** The row written on the "EXIT" turn repeats the score of the row before it (or the starting score). */
  lemma ExitRowKeepsScore(uid: int, fetch: nat -> Option<Question>, answers: seq<string>, turn: nat, score: int)
    requires turn <= |answers|
    ensures var t := Play(uid, fetch, answers, turn, score);
      var n := |t.rows|;
      t.ending == Exited ==>
        n > 0 && t.rows[n - 1] == (uid, t.score) && t.rows[n - 1].1 == (if n > 1 then t.rows[n - 2].1 else score)
  {
    var t := Play(uid, fetch, answers, turn, score);
    var n := |t.rows|;
    if t.ending == Exited {
      StopsAtFirstExitOrEmptyFetch(uid, fetch, answers, turn, score);
      RowsCarryRunningScore(uid, fetch, answers, turn, score);
      var last := t.turns[n - 1];
      assert !Earns(last);
      assert t.turns[..n] == t.turns;
      CountCorrectSnoc(t.turns[..n - 1], last);
      assert t.turns[..n - 1] + [last] == t.turns;
      if n > 1 {
        assert t.turns[..(n - 2) + 1] == t.turns[..n - 1];
      }
    }
  }

  lemma {:induction false} CountCorrectSnoc(turns: seq<Turn>, last: Turn)
    ensures CountCorrect(turns + [last]) == CountCorrect(turns) + Gain(last)
  {
    if turns != [] {
      assert (turns + [last])[1..] == turns[1..] + [last];
      CountCorrectSnoc(turns[1..], last);
    }
  }

  /** Fetches that never come back empty end a session only by "EXIT" or by running out of input. */
  lemma {:induction false} NeverRunsDry(uid: int, fetch: nat -> Option<Question>,
                                        answers: seq<string>, turn: nat, score: int)
    requires turn <= |answers|
    requires forall k :: turn <= k ==> fetch(k).Some?
    ensures Play(uid, fetch, answers, turn, score).ending != NoQuestions
    decreases |answers| - turn
  {
    var q := fetch(turn).value;
    PlayStops(uid, fetch, answers, turn, score);
    if turn < |answers| && UpperCase(answers[turn]) != EXIT_TOKEN {
      var token := UpperCase(answers[turn]);
      var s := if token == q.correctOption then score + 1 else score;
      PlayContinues(uid, fetch, answers, turn, score, q);
      NeverRunsDry(uid, fetch, answers, turn + 1, s);
    }
  }

  /**
   * The question table does not change during a session, so a session that ran out
   * of questions did so at its first fetch: it served nothing, wrote nothing and
   * kept its score.
   */
  lemma NoQuestionsOnlyAtStart(uid: int, score: int, que: seq<QuestionRow>, pick: nat -> nat, input: seq<string>)
    ensures var t := Session(uid, score, que, pick, input);
      t.ending == NoQuestions ==> t.turns == [] && t.rows == [] && t.score == score
  {
    if input != [] {
      var level := LowerCase(input[0]);
      var fetch := Fetcher(que, level, pick);
      PlayStops(uid, fetch, input[1..], 0, score);
      if fetch(0).Some? {
        forall k: nat ensures fetch(k).Some? {
          FetchNoneForEveryDraw(que, level, pick(0), pick(k));
        }
        NeverRunsDry(uid, fetch, input[1..], 0, score);
      }
    }
  }

  /** A tier with no stored question ends the session at once, with its score and no row. */
  lemma EmptyTierWritesNothing(uid: int, score: int, que: seq<QuestionRow>, pick: nat -> nat, input: seq<string>)
    requires input != []
    requires forall i :: 0 <= i < |que| ==> que[i].difficultyLevel != LowerCase(input[0])
    ensures Session(uid, score, que, pick, input) == Trace([], [], score, NoQuestions)
  {
    var level := LowerCase(input[0]);
    var fetch := Fetcher(que, level, pick);
    assert fetch(0) == FetchQuestionByDifficulty(que, level, pick(0));
    PlayStops(uid, fetch, input[1..], 0, score);
  }

  /** The tier is matched without regard to case: typing it in capitals runs the same session. */
  lemma TierIgnoresCase(uid: int, score: int, que: seq<QuestionRow>, pick: nat -> nat, tier: string, answers: seq<string>)
    ensures Session(uid, score, que, pick, [UpperCase(tier)] + answers) == Session(uid, score, que, pick, [tier] + answers)
  {
    LowerOfUpper(tier);
    assert ([UpperCase(tier)] + answers)[1..] == answers == ([tier] + answers)[1..];
  }

  /** Every question a session serves is stored at the tier typed, lower-cased. */
  lemma ServedFromTier(uid: int, score: int, que: seq<QuestionRow>, pick: nat -> nat, input: seq<string>)
    ensures var t := Session(uid, score, que, pick, input);
      forall i :: 0 <= i < |t.turns| ==> QuestionRow(t.turns[i].question, LowerCase(input[0])) in que
  {
    if input != [] {
      var level := LowerCase(input[0]);
      var fetch := Fetcher(que, level, pick);
      var t := Play(uid, fetch, input[1..], 0, score);
      StopsAtFirstExitOrEmptyFetch(uid, fetch, input[1..], 0, score);
      forall i | 0 <= i < |t.turns| ensures QuestionRow(t.turns[i].question, level) in que {
        assert fetch(i) == FetchQuestionByDifficulty(que, level, pick(i)) == Some(t.turns[i].question);
      }
    }
  }

  /** A stored answer key that holds a lower-case letter, or is "EXIT" itself, never earns a point. */
  lemma KeyNeverMatches(q: Question, answer: string)
    requires !NoLower(q.correctOption) || q.correctOption == EXIT_TOKEN
    ensures !Earns(Turn(q, UpperCase(answer)))
  {
    if !NoLower(q.correctOption) {
      UpperCaseNeverHasLower(answer, q.correctOption);
    }
  }

  /**
   * Loop state of `Quiz.StartQuiz` part-way through the session `whole`: the rows in
   * `written` are written, `turn` turns are done, and `rest` is what remains.
   */
  ghost predicate Resumes(whole: Trace, written: seq<ResultRow>, turn: nat, rest: Trace)
  {
    && whole.rows == written + rest.rows
    && |whole.turns| == turn + |rest.turns|
    && whole.score == rest.score
    && whole.ending == rest.ending
  }

  lemma ResumesPrepend(whole: Trace, written: seq<ResultRow>, turn: nat, head: Turn, row: ResultRow, next: Trace)
    requires Resumes(whole, written, turn, Prepend(head, row, next))
    ensures Resumes(whole, written + [row], turn + 1, next)
  {
    assert written + ([row] + next.rows) == (written + [row]) + next.rows;
  }

  /**
   * One served and answered turn moves the loop state of `Quiz.StartQuiz` one row
   * forward: `s` is the score after the turn and `next` what remains of the session.
   */
  lemma ResumesAfterTurn(uid: int, fetch: nat -> Option<Question>, answers: seq<string>, turn: nat, score: int,
                         q: Question, whole: Trace, written: seq<ResultRow>)
    returns (s: int, next: Trace)
    requires turn < |answers| && fetch(turn) == Some(q)
    requires Resumes(whole, written, turn, Play(uid, fetch, answers, turn, score))
    ensures var token := UpperCase(answers[turn]);
      && s == (if token != EXIT_TOKEN && token == q.correctOption then score + 1 else score)
      && next == (if token == EXIT_TOKEN then Trace([], [], score, Exited) else Play(uid, fetch, answers, turn + 1, s))
    ensures Resumes(whole, written + [(uid, s)], turn + 1, next)
  {
    var head := Turn(q, UpperCase(answers[turn]));
    PlayStops(uid, fetch, answers, turn, score);
    s := score + Gain(head);
    if head.token == EXIT_TOKEN {
      next := Trace([], [], score, Exited);
      ResumesPrepend(whole, written, turn, head, (uid, score), next);
    } else {
      PlayContinues(uid, fetch, answers, turn, score, q);
      next := Play(uid, fetch, answers, turn + 1, s);
      ResumesPrepend(whole, written, turn, head, (uid, s), next);
    }
  }

  lemma AppendRow(table: seq<ResultRow>, written: seq<ResultRow>, row: ResultRow)
    ensures (table + written) + [row] == table + (written + [row])
  {
  }

  /** `Quiz`: a session for one user, with its running score. */
  class Quiz {
    const user: User
    var score: int

    constructor (user: User)
      ensures this.user == user && score == 0
    {
      this.user := user;
      score := 0;
    }

    /** `saveUserResult`: insert `(user_id, score)` into `res`. */
    method SaveUserResult(db: Database)
      modifies db`res
      ensures db.res == old(db.res) + [(user.userId, score)]
    {
      db.res := db.res + [(user.userId, score)];
    }

    /**
     * One turn of `startQuiz` once a question is served: read the answer and upper-case
     * it; unless it is "EXIT", score a point when it is the correct option; then save
     * the running score. With no line left, nothing happens and `None` comes back.
     */
    method AnswerQuestion(db: Database, console: Console, question: Question) returns (token: Option<string>)
      modifies this`score, db`res, console
      ensures old(console.pending) == [] ==>
        token == None && score == old(score) && db.res == old(db.res) && console.pending == []
      ensures old(console.pending) != [] ==>
        && token == Some(UpperCase(old(console.pending)[0]))
        && console.pending == old(console.pending)[1..]
        && score == old(score) + Gain(Turn(question, token.value))
        && db.res == old(db.res) + [(user.userId, score)]
    {
      var line := console.NextLine();
      if line.None? {
        return None;
      }
      var userAnswer := UpperCase(line.value);
      if userAnswer != EXIT_TOKEN && userAnswer == question.correctOption {
        score := score + 1;
      }
      SaveUserResult(db);
      token := Some(userAnswer);
    }

    /**
     * `startQuiz`: read the tier, then serve turns until "EXIT" or an empty fetch.
     * The rows written, the final score, the ending and the lines read are those of
     * `Session`.
     */
    method StartQuiz(db: Database, console: Console, pick: nat -> nat) returns (ending: Ending)
      modifies this`score, db`res, console
      ensures var t := Session(user.userId, old(score), db.que, pick, old(console.pending));
        && db.res == old(db.res) + t.rows
        && score == t.score
        && ending == t.ending
        && console.pending == old(console.pending)[if old(console.pending) == [] then 0 else 1 + |t.turns|..]
    {
      ghost var input := console.pending;
      ghost var res0 := db.res;
      var tier := console.NextLine();
      if tier.None? {
        return InputClosed;
      }
      var difficultyLevel := LowerCase(tier.value);
      ghost var answers := input[1..];
      ghost var fetch := Fetcher(db.que, difficultyLevel, pick);
      ghost var whole := Play(user.userId, fetch, answers, 0, score);
      ghost var written: seq<ResultRow> := [];
      ghost var rest := whole;
      var turn := 0;
      var continueQuiz := true;
      ending := NoQuestions;
      while continueQuiz
        invariant turn <= |answers|
        invariant db.res == res0 + written
        invariant console.pending == answers[turn..]
        invariant Resumes(whole, written, turn, rest)
        invariant continueQuiz ==> rest == Play(user.userId, fetch, answers, turn, score)
        invariant !continueQuiz ==> rest == Trace([], [], score, ending)
        decreases |answers| - turn + (if continueQuiz then 1 else 0)
      {
        var question := FetchQuestionByDifficulty(db.que, difficultyLevel, pick(turn));
        assert question == fetch(turn);
        if question.Some? {
          ghost var score0 := score;
          var token := AnswerQuestion(db, console, question.value);
          if token.None? {
            // `nextLine` throws: the session stops without writing a row
            PlayStops(user.userId, fetch, answers, turn, score);
            continueQuiz := false;
            ending := InputClosed;
            rest := Trace([], [], score, InputClosed);
          } else {
            assert turn < |answers| && token.value == UpperCase(answers[turn]);
            ghost var s, next := ResumesAfterTurn(user.userId, fetch, answers, turn, score0, question.value, whole, written);
            if token.value == EXIT_TOKEN {
              continueQuiz := false;
              ending := Exited;
            }
            assert score == s;
            rest := next;
            AppendRow(res0, written, (user.userId, score));
            written := written + [(user.userId, score)];
            turn := turn + 1;
          }
        } else {
          PlayStops(user.userId, fetch, answers, turn, score);
          continueQuiz := false;
          ending := NoQuestions;
          rest := Trace([], [], score, NoQuestions);
        }
      }
      assert input[1..][turn..] == input[1 + turn..];
    }
  }
}
