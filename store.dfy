/**
 * The relational store the quiz talks to, reduced to its three tables:
 * `users(user_id, username, email, password)`, `que(..., difficulty_level)` and
 * `res(user_id, score)`. Queries are functions of the table contents; inserts are
 * methods of `Database`.
 */
module Store {
  import opened Wrappers
  import opened Records

  datatype UserRow = UserRow(userId: int, username: string, email: string, password: string)

  /** A row of `que`: the question it holds and its free-text difficulty tier. */
  datatype QuestionRow = QuestionRow(question: Question, difficultyLevel: string)

  /** A row of `res`: `(user_id, score)`. */
  type ResultRow = (int, int)

  class Database {
    var users: seq<UserRow>
    /** The next value of the `user_id` serial, which the store hands to an inserted user. */
    var nextUserId: int
    /** The question table, which the quiz only reads. */
    const que: seq<QuestionRow>
    var res: seq<ResultRow>

    constructor (users: seq<UserRow>, nextUserId: int, que: seq<QuestionRow>, res: seq<ResultRow>)
      ensures this.users == users && this.nextUserId == nextUserId && this.que == que && this.res == res
    {
      this.users := users;
      this.nextUserId := nextUserId;
      this.que := que;
      this.res := res;
    }

    /**
     * `INSERT INTO users (username, email, password)`: the row gets the next value of
     * the `user_id` serial, which is returned.
     */
    method InsertUser(username: string, email: string, password: string) returns (userId: int)
      modifies this`users, this`nextUserId
      ensures userId == old(nextUserId) && nextUserId == old(nextUserId) + 1
      ensures users == old(users) + [UserRow(userId, username, email, password)]
    {
      userId := nextUserId;
      users := users + [UserRow(userId, username, email, password)];
      nextUserId := nextUserId + 1;
    }
  }

  /**
   * `SELECT * FROM users WHERE username = ?` followed by one `rs.next()`: the first row
   * whose username is exactly `name`, or `None` when there is none.
   */
  function FindUser(users: seq<UserRow>, name: string): (r: Option<UserRow>)
    ensures r.None? <==> forall i :: 0 <= i < |users| ==> users[i].username != name
    ensures r.Some? ==> exists i :: 0 <= i < |users| && users[i] == r.value && r.value.username == name &&
                          forall j :: 0 <= j < i ==> users[j].username != name
  {
    if users == [] then None
    else if users[0].username == name then Some(users[0])
    else
      FindUser(users[1..], name)
  }

  /** The questions of `que` at difficulty `level`, in table order. */
  function Matching(que: seq<QuestionRow>, level: string): (r: seq<Question>)
    ensures forall k :: 0 <= k < |r| ==> QuestionRow(r[k], level) in que
    ensures forall i :: 0 <= i < |que| && que[i].difficultyLevel == level ==> que[i].question in r
  {
    if que == [] then []
    else
      var rest := Matching(que[1..], level);
      assert forall k :: 0 <= k < |rest| ==> QuestionRow(rest[k], level) in que by {
        forall k | 0 <= k < |rest| ensures QuestionRow(rest[k], level) in que {
          assert QuestionRow(rest[k], level) in que[1..];
        }
      }
      assert forall i :: 1 <= i < |que| && que[i].difficultyLevel == level ==> que[i].question in rest by {
        forall i | 1 <= i < |que| && que[i].difficultyLevel == level ensures que[i].question in rest {
          assert que[1..][i - 1] == que[i];
        }
      }
      if que[0].difficultyLevel == level then [que[0].question] + rest else rest
  }

  /**
   * `fetchQuestionByDifficulty`: one question at exactly the tier `level`, or `None`
   * when the tier has none. `draw` stands for the store's `ORDER BY RANDOM()` choice.
   */
  function FetchQuestionByDifficulty(que: seq<QuestionRow>, level: string, draw: nat): (r: Option<Question>)
    ensures r.None? <==> forall i :: 0 <= i < |que| ==> que[i].difficultyLevel != level
    ensures r.Some? ==> QuestionRow(r.value, level) in que
  {
    var matches := Matching(que, level);
    if matches == [] then None else Some(matches[draw % |matches|])
  }

  /** Whether a tier has questions does not depend on the draw. */
  lemma FetchNoneForEveryDraw(que: seq<QuestionRow>, level: string, d1: nat, d2: nat)
    ensures FetchQuestionByDifficulty(que, level, d1).None? <==> FetchQuestionByDifficulty(que, level, d2).None?
  {
  }

  /** Every question stored at the tier is served for some draw: the choice is never stuck on one row. */
  lemma EveryMatchReachable(que: seq<QuestionRow>, level: string, i: nat)
    requires i < |que| && que[i].difficultyLevel == level
    ensures exists draw: nat :: FetchQuestionByDifficulty(que, level, draw) == Some(que[i].question)
  {
    var matches := Matching(que, level);
    var k :| 0 <= k < |matches| && matches[k] == que[i].question;
    assert k % |matches| == k;
    assert FetchQuestionByDifficulty(que, level, k) == Some(que[i].question);
  }
}
