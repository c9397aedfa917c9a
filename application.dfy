/**
 * The program's entry: identify or register the user (`loginUser`), then, when a user
 * was resolved, run one quiz session for them.
 */
module Application {
  import opened Wrappers
  import opened Records
  import opened Store
  import opened Terminal
  import Session

  /** What `loginUser` gives back: a user or `null`, unless the console ran out first. */
  datatype Login = Login(user: Option<User>) | NoInput

  /** The effect of resolving a user: the answer, the new `users` table and serial, and the lines read. */
  datatype Resolution = Resolution(login: Login, users: seq<UserRow>, nextUserId: int, consumed: nat)

  /** No two rows share a username. */
  ghost predicate UniqueNames(users: seq<UserRow>)
  {
    forall i, j :: 0 <= i < j < |users| ==> users[i].username != users[j].username
  }

  /** Every stored id was handed out before `nextUserId`, and no two rows share one. */
  ghost predicate IdsIssued(users: seq<UserRow>, nextUserId: int)
  {
    && (forall i :: 0 <= i < |users| ==> users[i].userId < nextUserId)
    && (forall i, j :: 0 <= i < j < |users| ==> users[i].userId != users[j].userId)
  }

  /**
   * What `loginUser` does with the `users` table and the console lines `input`
   * (username, then, for a new user, email and password). `keyReturned` says whether
   * the driver hands back the generated key after the insert.
   */
  function Resolve(users: seq<UserRow>, nextUserId: int, input: seq<string>, keyReturned: bool): (r: Resolution)
    ensures r.consumed <= |input|
    // no username: nothing is read and nothing changes
    ensures input == [] ==> r.login == NoInput && r.users == users && r.nextUserId == nextUserId && r.consumed == 0
    // a known name: its stored user (the first row under that name), one line read, nothing written
    ensures input != [] && FindUser(users, input[0]).Some? ==>
      var row := FindUser(users, input[0]).value;
      && r.login == Login(Some(User(row.userId, input[0], row.email)))
      && r.users == users && r.nextUserId == nextUserId && r.consumed == 1
    // an unknown name with email and password: exactly one row appended under the next id,
    // and the new user returned exactly when the key comes back
    ensures input != [] && FindUser(users, input[0]).None? && |input| >= 3 ==>
      && r.users == users + [UserRow(nextUserId, input[0], input[1], input[2])]
      && r.nextUserId == nextUserId + 1 && r.consumed == 3
      && r.login == Login(if keyReturned then Some(User(nextUserId, input[0], input[1])) else None)
    // an unknown name without both further lines: the input runs out and nothing is written
    ensures input != [] && FindUser(users, input[0]).None? && |input| < 3 ==>
      r.login == NoInput && r.users == users && r.nextUserId == nextUserId
    // the table changes only by registering an unknown name
    ensures r.users != users ==> input != [] && FindUser(users, input[0]).None? && |input| >= 3
    ensures r.login == NoInput <==> input == [] || (FindUser(users, input[0]).None? && |input| < 3)
  {
    if input == [] then Resolution(NoInput, users, nextUserId, 0)
    else
      var username := input[0];
      match FindUser(users, username)
      case Some(row) => Resolution(Login(Some(User(row.userId, username, row.email))), users, nextUserId, 1)
      case None =>
        if |input| < 3 then Resolution(NoInput, users, nextUserId, |input|)
        else
          var email, password := input[1], input[2];
          var users' := users + [UserRow(nextUserId, username, email, password)];
          Resolution(Login(if keyReturned then Some(User(nextUserId, username, email)) else None),
                     users', nextUserId + 1, 3)
  }

  /** Appending a row with a fresh name makes that row the one found under its name. */
  lemma {:induction false} FindUserAfterInsert(users: seq<UserRow>, row: UserRow)
    requires FindUser(users, row.username).None?
    ensures FindUser(users + [row], row.username) == Some(row)
  {
    if users != [] {
      assert (users + [row])[1..] == users[1..] + [row];
      FindUserAfterInsert(users[1..], row);
    }
  }

  /**
   * Logging in is identification, and it settles: once a name is resolved to a user,
   * logging in again under that name returns the same user and changes nothing.
   */
  lemma LoginAgainFindsSameUser(users: seq<UserRow>, nextUserId: int, input: seq<string>, keyReturned: bool,
                                again: seq<string>, keyReturned': bool)
    requires input != [] && Resolve(users, nextUserId, input, keyReturned).login.Login?
    ensures var r := Resolve(users, nextUserId, input, keyReturned);
      var r' := Resolve(r.users, r.nextUserId, [input[0]] + again, keyReturned');
      && r'.users == r.users && r'.nextUserId == r.nextUserId
      && (r.login.user.Some? ==> r'.login == r.login)
  {
    var r := Resolve(users, nextUserId, input, keyReturned);
    if FindUser(users, input[0]).None? {
      FindUserAfterInsert(users, UserRow(nextUserId, input[0], input[1], input[2]));
    }
  }

  /** Resolving a user keeps usernames unique: a row is added only under a name not yet stored. */
  lemma ResolveKeepsNamesUnique(users: seq<UserRow>, nextUserId: int, input: seq<string>, keyReturned: bool)
    requires UniqueNames(users)
    ensures UniqueNames(Resolve(users, nextUserId, input, keyReturned).users)
  {
    var r := Resolve(users, nextUserId, input, keyReturned);
    if r.users != users {
      forall i, j | 0 <= i < j < |r.users| ensures r.users[i].username != r.users[j].username {
        if j == |users| {
          assert r.users[i] == users[i];
        } else {
          assert r.users[i] == users[i] && r.users[j] == users[j];
        }
      }
    }
  }

  /** Resolving a user keeps ids distinct and below the serial: a new row takes the serial's next value. */
  lemma ResolveKeepsIdsIssued(users: seq<UserRow>, nextUserId: int, input: seq<string>, keyReturned: bool)
    requires IdsIssued(users, nextUserId)
    ensures var r := Resolve(users, nextUserId, input, keyReturned);
      IdsIssued(r.users, r.nextUserId)
  {
    var r := Resolve(users, nextUserId, input, keyReturned);
    if r.users != users {
      forall i, j | 0 <= i < j < |r.users| ensures r.users[i].userId != r.users[j].userId {
        assert r.users[i] == users[i];
      }
    }
  }

  /**
   * `loginUser`: read a username; return the stored user under that name, or read an
   * email and a password, insert the new user and return it with the generated key,
   * or `None` when no key comes back.
   */
  method LoginUser(db: Database, console: Console, keyReturned: bool) returns (login: Login)
    modifies db`users, db`nextUserId, console
    ensures var r := Resolve(old(db.users), old(db.nextUserId), old(console.pending), keyReturned);
      && login == r.login
      && db.users == r.users && db.nextUserId == r.nextUserId
      && console.pending == old(console.pending)[r.consumed..]
  {
    var username := console.NextLine();
    if username.None? {
      return NoInput;
    }
    var found := FindUser(db.users, username.value);
    if found.Some? {
      return Login(Some(User(found.value.userId, username.value, found.value.email)));
    }
    var email := console.NextLine();
    if email.None? {
      return NoInput;
    }
    var password := console.NextLine();
    if password.None? {
      return NoInput;
    }
    var newUserId := db.InsertUser(username.value, email.value, password.value);
    if keyReturned {
      login := Login(Some(User(newUserId, username.value, email.value)));
    } else {
      login := Login(None);
    }
  }

  /**
   * `main`: resolve the user; with a user, run a quiz starting from score 0; without
   * one, stop without touching `res`. The result is how the quiz ended, if it ran.
   */
  method Run(db: Database, console: Console, keyReturned: bool, pick: nat -> nat) returns (ending: Option<Session.Ending>)
    modifies db`users, db`nextUserId, db`res, console
    ensures var r := Resolve(old(db.users), old(db.nextUserId), old(console.pending), keyReturned);
      && db.users == r.users && db.nextUserId == r.nextUserId
      && (r.login.Login? && r.login.user.Some? <==> ending.Some?)
      && (ending.None? ==> db.res == old(db.res))
      && (ending.Some? ==>
            var t := Session.Session(r.login.user.value.userId, 0, db.que, pick, old(console.pending)[r.consumed..]);
            db.res == old(db.res) + t.rows && ending.value == t.ending)
  {
    var login := LoginUser(db, console, keyReturned);
    if login.Login? && login.user.Some? {
      var quiz := new Session.Quiz(login.user.value);
      var e := quiz.StartQuiz(db, console, pick);
      ending := Some(e);
    } else {
      ending := None;
    }
  }
}
