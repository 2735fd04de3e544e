/**
 * The diagnostics collector (src/Error.java): it formats one line per parse,
 * resolve or runtime error and keeps a has-error flag. The lines it would
 * print on the standard error channel are kept in `output`.
 */
module Diagnostics {
  import opened Tokens
  import opened Numerals

  /** The location part of a token report: the lexeme, or nothing at end of file. */
  function Where(token: Token): string
  {
    if token.kind != EOF then token.lexeme else ""
  }

  /** The fixed head every diagnostic line starts with. */
  function Head(line: nat): string
  {
    "[line " + NatToString(line) + "] Error"
  }

  /** One diagnostic line; the location is shown only when it is not empty. */
  function Format(line: nat, where: string, message: string): string
  {
    if where == [] then Head(line) + ": " + message
    else Head(line) + " at '" + where + "': " + message
  }

  /**
   * Every diagnostic starts with its line head and ends with its message; the
   * character right after the head is ':' exactly when there is no location.
   */
  lemma FormatShape(line: nat, where: string, message: string)
    ensures var f, h := Format(line, where, message), Head(line);
      && |f| > |h| + |message|
      && f[..|h|] == h
      && f[|f| - |message|..] == message
      && (f[|h|] == ':' <==> where == [])
  {
    var f, h := Format(line, where, message), Head(line);
    if where == [] {
      assert f == h + (": " + message);
      assert f[|h|] == ':';
    } else {
      assert f == h + (" at '" + where + "': " + message);
      assert f[|h|] == ' ';
    }
    assert f[..|h|] == h;
    assert f[|f| - |message|..] == message;
  }

  /** The line number can be read back from the digits after "[line ". */
  lemma FormatLineReadsBack(line: nat, where: string, message: string)
    ensures var f, digits := Format(line, where, message), NatToString(line);
      && |f| > 6 + |digits|
      && ParseDigits(f[6..6 + |digits|]) == line
  {
    var f, h, digits := Format(line, where, message), Head(line), NatToString(line);
    FormatShape(line, where, message);
    assert h[6..6 + |digits|] == digits by {
      assert h == "[line " + digits + "] Error";
    }
    assert f[6..6 + |digits|] == f[..|h|][6..6 + |digits|];
    NatToStringRoundTrip(line);
  }

  /** A token report names the lexeme unless the token is the end of file. */
  lemma TokenReportLocation(token: Token, message: string)
    requires token.lexeme != []
    ensures var f, h := Format(token.line, Where(token), message), Head(token.line);
      f[|h|] == ':' <==> token.kind == EOF
  {
    FormatShape(token.line, Where(token), message);
  }

  class Error {
    var errStatus: bool
    var output: seq<string>

    constructor ()
      ensures !errStatus && output == []
    {
      errStatus := false;
      output := [];
    }

    /** A report that only knows the source line. */
    method ReportLine(line: nat, message: string)
      modifies this
      ensures output == old(output) + [Format(line, "", message)]
      ensures errStatus
    {
      Report(line, "", message);
    }

    /** A report located at a token. */
    method ReportToken(err: Token, message: string)
      modifies this
      ensures output == old(output) + [Format(err.line, Where(err), message)]
      ensures errStatus
    {
      if err.kind != EOF {
        Report(err.line, err.lexeme, message);
      } else {
        Report(err.line, "", message);
      }
    }

    method Report(line: nat, where: string, message: string)
      modifies this
      ensures output == old(output) + [Format(line, where, message)]
      ensures errStatus
    {
      var text;
      if where == [] {
        text := Head(line) + ": " + message;
      } else {
        text := Head(line) + " at '" + where + "': " + message;
      }
      output := output + [text];
      SetError(true);
    }

    method SetError(status: bool)
      modifies this`errStatus
      ensures errStatus == status
    {
      errStatus := status;
    }

    method HasError() returns (status: bool)
      ensures status == errStatus
    {
      status := errStatus;
    }
  }
}
