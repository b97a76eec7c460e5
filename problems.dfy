/**
 * Diagnostics. A `ProblemBuilder` is the sink the processor reports into;
 * it keeps every problem in the order it was reported.
 */
module Problems {

  datatype Severity = Error | Warning

  datatype Problem = Problem(severity: Severity, message: string)

  class ProblemBuilder {
    var problems: seq<Problem>

    constructor ()
      ensures problems == []
    {
      problems := [];
    }

    method AddError(message: string)
      modifies this
      ensures problems == old(problems) + [Problem(Error, message)]
    {
      problems := problems + [Problem(Error, message)];
    }

    /** Reports several problems at once, in the given order. */
    method AddAll(ps: seq<Problem>)
      modifies this
      ensures problems == old(problems) + ps
    {
      problems := problems + ps;
    }
  }
}
