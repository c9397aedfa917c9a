/**
 * The two immutable records of the quiz: a resolved user and a served question,
 * with the text layout in which a question is shown on the console.
 */
module Records {

  /** A user as the session holds it; `getUserId`, `getUsername` and `getEmail` are the field selectors. */
  datatype User = User(userId: int, username: string, email: string)

  /** A question with its four options and the letter of the correct one; `getCorrectOption` is `correctOption`. */
  datatype Question = Question(
    questionId: int,
    questionText: string,
    optionA: string,
    optionB: string,
    optionC: string,
    optionD: string,
    correctOption: string)

  /** `displayQuestion`: a leading line break, the text, then the options labelled A) to D), one per line. */
  function DisplayQuestion(q: Question): (r: string)
    ensures |r| == 1 + |q.questionText| + 4 * 4 + |q.optionA| + |q.optionB| + |q.optionC| + |q.optionD|
    ensures r[0] == '\n' && r[1..1 + |q.questionText|] == q.questionText
    ensures r[|r| - |q.optionD| - 4..] == "\nD) " + q.optionD
  {
    "\n" + q.questionText + "\nA) " + q.optionA + "\nB) " + q.optionB + "\nC) " + q.optionC + "\nD) " + q.optionD
  }

  predicate NoBreak(s: string) { '\n' !in s }

  /** True when none of the question's displayed fields contains a line break of its own. */
  predicate SingleLineFields(q: Question)
  {
    NoBreak(q.questionText) && NoBreak(q.optionA) && NoBreak(q.optionB) && NoBreak(q.optionC) && NoBreak(q.optionD)
  }

  /** The lines a terminal shows for `s`: the pieces between line breaks, in order. */
  function Lines(s: string): (r: seq<string>)
    ensures |r| >= 1
    ensures forall i :: 0 <= i < |r| ==> NoBreak(r[i])
  {
    if s == [] then [""]
    else if s[0] == '\n' then [""] + Lines(s[1..])
    else
      var rest := Lines(s[1..]);
      [[s[0]] + rest[0]] + rest[1..]
  }

  /** The inverse of `Lines`: the lines put back together with a line break between each two. */
  function JoinLines(lines: seq<string>): string
  {
    if |lines| == 0 then ""
    else if |lines| == 1 then lines[0]
    else lines[0] + "\n" + JoinLines(lines[1..])
  }

  /** Extending the first line by one character extends the joined text by that character. */
  lemma {:induction false} JoinLinesConsHead(c: char, lines: seq<string>)
    requires |lines| >= 1
    ensures JoinLines([[c] + lines[0]] + lines[1..]) == [c] + JoinLines(lines)
  {
    var ls := [[c] + lines[0]] + lines[1..];
    assert ls[0] == [c] + lines[0] && ls[1..] == lines[1..];
    if |lines| > 1 {
      var tail := JoinLines(lines[1..]);
      assert JoinLines(ls) == ([c] + lines[0]) + "\n" + tail;
      assert ([c] + lines[0]) + "\n" + tail == [c] + (lines[0] + "\n" + tail);
    }
  }

  /** Joining the lines of `s` gives back `s`: splitting loses nothing. */
  lemma {:induction false} JoinOfLines(s: string)
    ensures JoinLines(Lines(s)) == s
  {
    if s != [] {
      JoinOfLines(s[1..]);
      var rest := Lines(s[1..]);
      if s[0] == '\n' {
        assert ([""] + rest)[1..] == rest;
        assert "\n" + s[1..] == s;
      } else {
        JoinLinesConsHead(s[0], rest);
        assert [s[0]] + s[1..] == s;
      }
    }
  }

  /** Splitting joined break-free lines gives back those lines. */
  lemma {:induction false} LinesOfJoin(lines: seq<string>)
    requires |lines| >= 1
    requires forall i :: 0 <= i < |lines| ==> NoBreak(lines[i])
    ensures Lines(JoinLines(lines)) == lines
  {
    if |lines| == 1 {
      LinesOfLine(lines[0]);
    } else {
      LinesOfJoin(lines[1..]);
      LinesOfBreak(lines[0], JoinLines(lines[1..]));
      assert [lines[0]] + lines[1..] == lines;
    }
  }

  /** Text without a line break is one line. */
  lemma {:induction false} LinesOfLine(x: string)
    requires NoBreak(x)
    ensures Lines(x) == [x]
  {
    if x != [] {
      LinesOfLine(x[1..]);
      assert [x[0]] + x[1..] == x;
    }
  }

  /** A line followed by a line break starts the lines of what follows. */
  lemma {:induction false} LinesOfBreak(x: string, y: string)
    requires NoBreak(x)
    ensures Lines(x + "\n" + y) == [x] + Lines(y)
  {
    if x == [] {
      assert x + "\n" + y == "\n" + y;
      assert ("\n" + y)[1..] == y;
    } else {
      LinesOfBreak(x[1..], y);
      var s := x + "\n" + y;
      assert s[0] == x[0] && s[1..] == x[1..] + "\n" + y;
      assert [x[0]] + x[1..] == x;
    }
  }

  /**
   * A question whose fields are single lines is shown as six lines: an empty one,
   * the question text, and the four options each behind its letter.
   */
  lemma DisplayQuestionLines(q: Question)
    requires SingleLineFields(q)
    ensures Lines(DisplayQuestion(q)) ==
      ["", q.questionText, "A) " + q.optionA, "B) " + q.optionB, "C) " + q.optionC, "D) " + q.optionD]
  {
    var a, b, c, d := "A) " + q.optionA, "B) " + q.optionB, "C) " + q.optionC, "D) " + q.optionD;
    LabelledNoBreak('A', q.optionA);
    LabelledNoBreak('B', q.optionB);
    LabelledNoBreak('C', q.optionC);
    LabelledNoBreak('D', q.optionD);
    var t3 := c + "\n" + d;
    var t2 := b + "\n" + t3;
    var t1 := a + "\n" + t2;
    var t0 := q.questionText + "\n" + t1;
    LinesOfLine(d);
    LinesOfBreak(c, d);
    LinesOfBreak(b, t3);
    LinesOfBreak(a, t2);
    LinesOfBreak(q.questionText, t1);
    LinesOfBreak("", t0);
    DisplayQuestionNested(q);
  }

  /** An option behind its letter label is one line when the option is. */
  lemma LabelledNoBreak(letter: char, option: string)
    requires NoBreak(option) && letter != '\n'
    ensures NoBreak([letter, ')', ' '] + option)
  {
  }

  lemma DisplayQuestionNested(q: Question)
    ensures DisplayQuestion(q) ==
      "" + "\n" + (q.questionText + "\n" + ("A) " + q.optionA + "\n" + ("B) " + q.optionB + "\n" +
        ("C) " + q.optionC + "\n" + ("D) " + q.optionD)))))
  {
  }
}
