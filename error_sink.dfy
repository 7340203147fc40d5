/** Where the link checker reports broken links. */
module ErrorSink {

  /** An error writer: every report is kept, in arrival order, and the
      process return code is 0 until the first report and 2 from then on.
      `lines` stands for what the standard writer prints on the error stream
      and for the list the collecting writer of the tests appends to. */
  class ErrorWriter {
    var lines: seq<string>
    var returnCode: int

    /** The return code records whether anything was ever reported. */
    ghost predicate Valid()
      reads this
    {
      returnCode == if lines == [] then 0 else 2
    }

    constructor ()
      ensures Valid() && lines == [] && returnCode == 0
    {
      lines := [];
      returnCode := 0;
    }

    /** Reports one line: it is appended after every earlier one, and the
        return code becomes (or stays) 2. */
    method Report(text: string)
      requires Valid()
      modifies this
      ensures Valid()
      ensures lines == old(lines) + [text]
      ensures returnCode == 2
    {
      lines := lines + [text];
      returnCode := 2;
    }
  }
}
