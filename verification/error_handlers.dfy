/** IpsecManagerErrorHandlers.py: the error handler of the host-route step. */
module ErrorHandlers {
  import opened Strings
  import opened Shell

  /** What `ip route add` prints when the route is already installed. */
  const RouteExistsMessage := "RTNETLINK answers: File exists"

  /**
   * `ipRouteAddStderrHandler`: the anchored pattern is tested on the stripped
   * text without multi-line mode, so it matches exactly when the stripped
   * text is the message; anything else is raised with the text as received.
   */
  function IpRouteAddStderrHandler(stderrOutput: string): (r: Outcome)
    ensures r.Pass? <==> Strip(stderrOutput) == RouteExistsMessage
    ensures r.Fail? ==> r.error == RuntimeError(stderrOutput)
  {
    if Strip(stderrOutput) == RouteExistsMessage then Pass else Fail(RuntimeError(stderrOutput))
  }

  /** Blanks before and after the "route exists" message are ignored: the failure becomes success. */
  lemma PaddedRouteExistsPasses(before: string, after: string)
    requires AllSpace(before) && AllSpace(after)
    ensures IpRouteAddStderrHandler(before + RouteExistsMessage + after) == Pass
  {
    StripOfPadded(before, RouteExistsMessage, after);
  }

  /** A line break with text on both sides of it is inside what `strip()` keeps. */
  lemma {:induction false} InnerBreakSurvivesStrip(first: string, rest: string)
    requires !AllSpace(first) && !AllSpace(rest)
    ensures '\n' in Strip(first + "\n" + rest)
  {
    var s := first + "\n" + rest;
    StripIsSlice(s);
    var o := StripOffset(s);
    var m := Strip(s);
    var i :| 0 <= i < |first| && !IsSpace(first[i]);
    var j :| 0 <= j < |rest| && !IsSpace(rest[j]);
    assert s[i] == first[i];
    assert s[|first| + 1 + j] == rest[j];
    assert s[|first|] == '\n';
    assert m[|first| - o] == s[|first|];
  }

  lemma RouteExistsMessageIsOneLine()
    ensures '\n' !in RouteExistsMessage
  {
  }

  /**
   * An error output with text on two different lines raises, even when one
   * of the lines is the "route exists" message: `$` does not match at an
   * inner line break.
   */
  lemma MultiLineStderrRaises(first: string, rest: string)
    requires !AllSpace(first) && !AllSpace(rest)
    ensures IpRouteAddStderrHandler(first + "\n" + rest) == Fail(RuntimeError(first + "\n" + rest))
  {
    InnerBreakSurvivesStrip(first, rest);
    RouteExistsMessageIsOneLine();
  }

  /** The handler of a command that printed only the message on one line, after `strip()`, passes. */
  lemma RouteExistsAloneIsIdempotentSuccess(reply: Reply)
    requires reply.exitCode != 0
    requires Strip(reply.stderr) == RouteExistsMessage
    ensures Execute(reply, IpRouteAddStderrHandler) == Pass
  {
    assert Strip(RouteExistsMessage) == RouteExistsMessage by {
      StripOfPadded("", RouteExistsMessage, "");
      assert "" + RouteExistsMessage + "" == RouteExistsMessage;
    }
  }
}
