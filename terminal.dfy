/** The console input, read line by line as `Scanner.nextLine` does. */
module Terminal {
  import opened Wrappers

  class Console {
    /** The lines not read yet. */
    var pending: seq<string>

    constructor (lines: seq<string>)
      ensures pending == lines
    {
      pending := lines;
    }

    /**
     * The next line, or `None` when the input is exhausted (where `nextLine`
     * throws `NoSuchElementException`).
     */
    method NextLine() returns (line: Option<string>)
      modifies this
      ensures old(pending) == [] ==> line == None && pending == []
      ensures old(pending) != [] ==> line == Some(old(pending)[0]) && pending == old(pending)[1..]
    {
      if pending == [] {
        line := None;
      } else {
        line := Some(pending[0]);
        pending := pending[1..];
      }
    }
  }
}
