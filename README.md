# Console quiz: a verified model

This project models the core of a console quiz backed by a relational store. The program:

- identifies or registers a user by username (`loginUser`);
- asks for a difficulty tier;
- serves random questions from that tier;
- reads an answer after each question;
- writes the running score to the `res` table after every answered question.

A session ends at the first answer that upper-cases to `EXIT`, or at the first fetch that finds no question.

The model is split into modules.

- `Ascii`: the case mapping that `toUpperCase` and `toLowerCase` perform on ASCII text.
- `Records`: the `User` and `Question` records, and the text `displayQuestion` builds.
- `Store`: the store's three tables.
  - `users` and `res` are fields of the `Database` class, and inserts append to them.
  - The question table `que` is read only.
  - The two queries are functions of the table contents.
- `Terminal`: the console (`Scanner`), a class holding the lines not read yet.
- `Session`: the quiz itself.
  - `Play` and `Session` define, as a function, what a whole session does: the turns, the rows written, the final score and how it ended.
  - `Quiz.StartQuiz` is the source's loop, and it is proved to do exactly that. The body of one answered turn, from reading the answer to saving the row, is the method `Quiz.AnswerQuestion`.
  - The lemmas state what a session promises: the running score in every row, a score that never falls, a stop at the first `EXIT` or empty fetch, questions only from the chosen tier, and a tier that ignores case.
- `Application`: `loginUser` and the top-level flow.
  - `Resolve` specifies identification and registration.
  - `LoginUser` and `Run` are the methods, proved against `Resolve` and `Session`.

Some things in the source cannot be written down directly, so the model takes them as parameters:

- `ORDER BY RANDOM() LIMIT 1` becomes a draw oracle `pick: nat -> nat`. The `k`th fetch of a session serves the matching row with index `pick(k) mod` (the number of matches).
- Whether the driver hands back a generated key after the insert is a boolean `keyReturned`.

When the console runs out of lines, `Scanner.nextLine` throws, and `main` does not catch it. The model represents this as the outcome `InputClosed`. Rows already written stay written.

A point is scored only when the upper-cased answer equals the stored `correct_option` exactly. The check for `EXIT` comes first, so a key that holds a lower-case letter, or that is `EXIT` itself, can never be matched. `Session.KeyNeverMatches` states this.

## Model

| member | source | states |
|---|---|---|
| Ascii.ToUpper | src/quizproject/QuizApplication.java:102 | an upper-cased character is never a lower-case letter; a character changes only when it is a lower-case letter, and it becomes the upper-case letter at the same place in the alphabet |
| Ascii.ToLower | src/quizproject/QuizApplication.java:93 | a lower-cased character is never an upper-case letter; a character changes only when it is an upper-case letter, and it becomes the lower-case letter at the same place in the alphabet |
| Ascii.UpperCase | src/quizproject/QuizApplication.java:102 | `toUpperCase` keeps the length of the text; its per-character meaning is stated by `Ascii.UpperCaseAt` |
| Ascii.LowerCase | src/quizproject/QuizApplication.java:93 | `toLowerCase` keeps the length of the text; its per-character meaning is stated by `Ascii.LowerCaseAt` |
| Ascii.UpperCaseAt | src/quizproject/QuizApplication.java:102 | `toUpperCase` maps each character in place, keeps the length, and leaves no lower-case letter |
| Ascii.LowerCaseAt | src/quizproject/QuizApplication.java:93 | `toLowerCase` maps each character in place, keeps the length, and leaves no upper-case letter |
| Ascii.LowerOfUpperChar | src/quizproject/QuizApplication.java:93 | on one character, lower-casing after upper-casing is the same as lower-casing, and the other way round |
| Ascii.UpperCaseIdempotent | src/quizproject/QuizApplication.java:102 | upper-casing twice gives the same text as upper-casing once |
| Ascii.LowerOfUpper | src/quizproject/QuizApplication.java:93 | lower-casing ignores the case the text was typed in |
| Ascii.ToUpperToLetter | src/quizproject/QuizApplication.java:102 | a character upper-cases to a given capital letter exactly when it is that letter in either case |
| Ascii.ExitSpellings | src/quizproject/QuizApplication.java:102-104 | an answer ends the quiz exactly when it has four characters, each one the matching letter of "exit" in either case |
| Ascii.UpperCaseNeverHasLower | src/quizproject/QuizApplication.java:102-108 | no upper-cased answer equals a key that holds a lower-case letter |
| Records.DisplayQuestion | src/quizproject/QuizApplication.java:72-74 | the text starts with a line break followed by the question text, ends with option D behind its label `D) ` on a new line, and is as long as the fields plus the four labels |
| Records.Lines | src/quizproject/QuizApplication.java:100 | splitting printed text on line breaks gives at least one line, and no line holds a break |
| Records.LinesOfLine | src/quizproject/QuizApplication.java:100 | text without a break prints as exactly one line |
| Records.LinesOfBreak | src/quizproject/QuizApplication.java:100 | a line followed by a break comes first, and the lines of the rest follow it |
| Records.JoinOfLines | src/quizproject/QuizApplication.java:100 | joining the lines of any text with line breaks gives back the text, so splitting into lines loses nothing |
| Records.LinesOfJoin | src/quizproject/QuizApplication.java:100 | splitting joined break-free lines gives back exactly those lines |
| Records.LabelledNoBreak | src/quizproject/QuizApplication.java:73 | proof step for `Records.DisplayQuestionLines`: an option with its letter label is one line when the option is |
| Records.DisplayQuestionLines | src/quizproject/QuizApplication.java:72-74 | when no field holds a break, `displayQuestion` prints six lines: an empty one, the question text, then options A) to D) in order |
| Store.Database.constructor | src/quizproject/QuizApplication.java:138 | a connection sees the given `users` table, user serial, `que` table and `res` table |
| Store.Database.InsertUser | src/quizproject/QuizApplication.java:178-183 | an inserted user is appended with the serial's next value, and the serial advances by one |
| Store.FindUser | src/quizproject/QuizApplication.java:159-164 | the lookup finds nothing exactly when no row has the name; otherwise it returns the first row with that name |
| Store.Matching | src/quizproject/QuizApplication.java:52 | the matches are exactly the questions stored at the tier |
| Store.FetchQuestionByDifficulty | src/quizproject/QuizApplication.java:51-70 | the fetch returns no question exactly when the tier has no stored question; otherwise it returns a question stored at that tier |
| Store.FetchNoneForEveryDraw | src/quizproject/QuizApplication.java:52 | whether the fetch comes back empty does not depend on the random draw |
| Store.EveryMatchReachable | src/quizproject/QuizApplication.java:52 | every question stored at a tier is returned for some draw |
| Terminal.Console.constructor | src/quizproject/QuizApplication.java:138 | the console starts with the given lines still to read |
| Terminal.Console.NextLine | src/quizproject/QuizApplication.java:102 | reading returns the first unread line and consumes it; with no line left it returns nothing and consumes nothing |
| Session.CountCorrect | src/quizproject/QuizApplication.java:108-109 | no more points than turns |
| Session.Play | src/quizproject/QuizApplication.java:96-121 | one row per turn, never more turns than answers, and a final score no lower than the starting one |
| Session.Session | src/quizproject/QuizApplication.java:91-121 | with no console line the session ends at once with nothing written; otherwise it serves fewer turns than there are lines (the first line is the tier), writes one row per turn, and never lowers the score |
| Session.PlayContinues | src/quizproject/QuizApplication.java:97-116 | proof step that unfolds `Session.Play` for one continuing turn: a served question with a non-`EXIT` answer adds the turn's point and one row with the new score, then the loop continues |
| Session.PlayStops | src/quizproject/QuizApplication.java:99-120 | proof step that unfolds `Session.Play` at a stop: an empty fetch ends the session with nothing written; an `EXIT` answer writes one row with the unchanged score and ends it; running out of lines ends it |
| Session.RowsCarryRunningScore | src/quizproject/QuizApplication.java:108-116 | row `i` holds the user's id and the starting score plus the points of turns `0..i`; the final score is the starting score plus all points |
| Session.RunningRowsAt | src/quizproject/QuizApplication.java:108-116 | row `i` of the rows written after a run of turns holds the starting score plus the points of turns `0..i` |
| Session.PlayRowsRun | src/quizproject/QuizApplication.java:96-121 | a session writes exactly one running-score row per served turn, and its final score is the starting score plus the points of those turns |
| Session.CountCorrectPrefix | src/quizproject/QuizApplication.java:109 | a longer prefix of turns never has fewer points |
| Session.ScoreNeverDecreases | src/quizproject/QuizApplication.java:109-116 | every written score lies between the starting and the final score, and the written scores never fall |
| Session.StopsAtFirstExitOrEmptyFetch | src/quizproject/QuizApplication.java:96-121 | turn `i` serves the `i`th fetch and reads the `i`th answer upper-cased; only the last turn may answer `EXIT`, and the session ended by exit exactly when it did; otherwise it ended for want of questions exactly when the next fetch was empty, and for want of input only after the last answer |
| Session.ExitRowKeepsScore | src/quizproject/QuizApplication.java:104-116 | the row written on the `EXIT` turn repeats the previous row's score, or the starting score, and equals the final score |
| Session.CountCorrectSnoc | src/quizproject/QuizApplication.java:109 | one more turn adds exactly its own point |
| Session.NeverRunsDry | src/quizproject/QuizApplication.java:117-120 | when fetches never come back empty, the session never ends for want of questions |
| Session.NoQuestionsOnlyAtStart | src/quizproject/QuizApplication.java:96-120 | a session that runs out of questions does so at its first fetch: no turns, no rows, score unchanged |
| Session.EmptyTierWritesNothing | src/quizproject/QuizApplication.java:117-120 | a tier with no stored question ends the session at once, with nothing written |
| Session.TierIgnoresCase | src/quizproject/QuizApplication.java:93 | a tier typed in capitals runs the same session as the tier in lower case |
| Session.ServedFromTier | src/quizproject/QuizApplication.java:93-97 | every served question is stored at the typed tier, lower-cased |
| Session.KeyNeverMatches | src/quizproject/QuizApplication.java:104-109 | a stored key holding a lower-case letter, or equal to `EXIT`, never earns a point |
| Session.ResumesAfterTurn | src/quizproject/QuizApplication.java:99-116 | one served and answered turn moves the loop state forward by one row, matching what the rest of the session does |
| Session.Quiz.constructor | src/quizproject/QuizApplication.java:86-89 | a quiz belongs to the given user and starts at score 0 |
| Session.Quiz.SaveUserResult | src/quizproject/QuizApplication.java:126-132 | appends exactly `(user id, current score)` to `res` |
| Session.Quiz.AnswerQuestion | src/quizproject/QuizApplication.java:100-116 | with a line left, it consumes that line; unless the line upper-cases to `EXIT`, it adds a point exactly when it equals the correct option; it then appends `(user id, new score)`; with no line left, nothing changes |
| Session.Quiz.StartQuiz | src/quizproject/QuizApplication.java:91-124 | appends to `res` exactly the rows `Session` defines for the console lines, sets the score to that session's final score, reports how it ended, and consumes the tier line plus one line per answered turn |
| Application.Resolve | src/quizproject/QuizApplication.java:155-196 | a known name returns the user stored in the first row under that name, with that row's id and email, reads one line and changes nothing; an unknown name followed by email and password appends exactly that row under the next id, advances the serial, reads three lines, and returns the new user exactly when a key comes back; an unknown name without both lines writes nothing; the table changes only in the registration case |
| Application.FindUserAfterInsert | src/quizproject/QuizApplication.java:159-183 | after a user is inserted under a new name, the lookup under that name finds that row |
| Application.LoginAgainFindsSameUser | src/quizproject/QuizApplication.java:155-196 | once a name is resolved, logging in again under it returns the same user and changes neither the table nor the serial |
| Application.ResolveKeepsNamesUnique | src/quizproject/QuizApplication.java:164-183 | if usernames are unique before login, they are unique after it |
| Application.ResolveKeepsIdsIssued | src/quizproject/QuizApplication.java:178-188 | if user ids are distinct and below the serial before login, they still are after it |
| Application.LoginUser | src/quizproject/QuizApplication.java:155-196 | the user returned, the new `users` table and serial, and the lines consumed are exactly those `Resolve` gives |
| Application.Run | src/quizproject/QuizApplication.java:137-152 | the quiz runs, from score 0, exactly when login returns a user; then `res` gains exactly that session's rows; otherwise `res` is untouched |

## Left out

- The database connection (`DatabaseConnection.getConnection`) is not part of this model. The store is an in-memory `Database` object.
- `SQLException`, storage failures and `main`'s error branch are left out. Storage operations always succeed in the model.
- The distribution of `ORDER BY RANDOM()` is not modelled. The draw is an arbitrary oracle `pick`, and every property holds for every oracle.
- Prompts and messages written to `System.out` are not modelled. Only the text of `displayQuestion` is.
- Case mapping covers ASCII letters only. Java's locale-dependent Unicode mappings, such as the Turkish dotless i, are not modelled.
- Columns read as SQL `NULL`, which become Java `null` strings, are not modelled. Every stored field is a string.
- `Store.FindUser`: with duplicate usernames, the first row in table order is returned. The source leaves the order unspecified. `Application.ResolveKeepsNamesUnique` shows that logins never create duplicates.
- Concurrent changes to the tables by other clients are not modelled. The question table is fixed for a whole session.
- Passwords are stored and compared as plain strings, as in the source. No hashing is modelled.
- `question_id` is carried in `Question` but never used, as in the source.
- Scores and user ids are unbounded integers in the model. In the source they are Java `int`, so `score += 1` would wrap to a negative value after 2^31 − 1 points. The score can only get there after more than 2^31 − 1 answer lines. The serial column behind `user_id` has its own upper limit, which is not modelled either.
- Session.ScoreNeverDecreases: holds only for sessions with fewer than 2^31 − 1 points, because the model does not wrap the score the way Java's `int` does.
- Session.RowsCarryRunningScore: the written scores equal the starting score plus the points only while that sum stays within Java's `int` range. The model does not wrap.
