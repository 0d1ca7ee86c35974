/**
 * The file handed to the sandbox: the caller's script with its trailing
 * whitespace removed, a blank line, and a fixed epilogue that calls `main()`,
 * prints a sentinel line of dashes and then the JSON encoding of the result.
 */
module Payload {
  import opened Text

  /** The line that divides the guest's own output from its return value. */
  const SENTINEL: string := "--------------------------------"

  /** The sentinel as it appears in the captured output: followed by a newline. */
  const SEPARATOR: string := SENTINEL + "\n"

  /** The epilogue's lines before its sentinel `print` (long lines are written in pieces). */
  const HEADER: string :=
    "if __name__ == \"__main__\":\n"
    + "    import json\n"
    + "    import sys\n"
    + "    import os\n"
    + "    import pandas\n"
    + "    import numpy\n"
    + "    result = main()\n"
    + "    # something can be printed "
    + "to stdout while executing main\n"
    + "    # add a print to divide" + " stdout and return\n"

  /** The statement that prints the sentinel line. */
  const SENTINEL_PRINT: string := "print(\"" + SENTINEL + "\")\n"

  /** The epilogue's lines after its sentinel `print`. */
  const FOOTER: string :=
    "    try:\n"
    + "        print(json.dumps(result))\n"
    + "    except Exception as e:\n"
    + "        print(json.dumps({\"error\": "
    + "f\"Error serializing result: "
    + "{str(e)}\"}))\n"

  /** The dedented epilogue appended to every accepted script. */
  const EPILOGUE: string := HEADER + "    " + SENTINEL_PRINT + FOOTER

  /** The contents written to the scratch file for `script`. */
  function Wrap(script: string): (w: string)
    ensures |w| == |RStrip(script)| + 2 + |EPILOGUE|
  {
    RStrip(script) + "\n\n" + EPILOGUE
  }

  /** Every character of the sentinel is a dash, and the separator ends in a newline. */
  lemma SentinelShape()
    ensures |SENTINEL| == 32 && forall k :: 0 <= k < 32 ==> SENTINEL[k] == '-'
    ensures |SEPARATOR| == 33 && SEPARATOR[..32] == SENTINEL && SEPARATOR[32] == '\n'
  {
  }

  /** Between two dash-free texts, a run of dashes occurs only where it was put. */
  lemma {:induction false} OnlyOccurrence(a: string, b: string)
    requires '-' !in a && '-' !in b
    ensures Occurrences(a + SENTINEL + b, SENTINEL) == {|a|}
  {
    var s := a + SENTINEL + b;
    assert s[|a|..|a| + 32] == SENTINEL;
    forall k: nat | k <= |s| && StartsAt(s, k, SENTINEL)
      ensures k == |a|
    {
      if k < |a| {
        DashAt(s, k, 0);
        assert false;
      } else if k > |a| {
        DashAt(s, k, 31);
        assert false;
      }
    }
  }

  /** Each of the 32 characters at an occurrence of the sentinel is a dash. */
  lemma DashAt(s: string, k: nat, j: nat)
    ensures StartsAt(s, k, SENTINEL) && j < 32 ==> s[k + j] == '-'
  {
    if StartsAt(s, k, SENTINEL) && j < 32 {
      assert s[k..k + 32][j] == s[k + j];
    }
  }

  /** The header and footer of the epilogue hold no dash (checked a few lines at a time). */
  lemma DashFreeParts()
    ensures '-' !in HEADER && '-' !in FOOTER
  {
    GuardDashFree();
    ImportsDashFree();
    CallDashFree();
    CommentDashFree();
    TryDashFree();
    DumpDashFree();
    ExceptDashFree();
    FallbackDashFree();
  }

  lemma GuardDashFree() ensures '-' !in "if __name__ == \"__main__\":\n" + "    import json\n" + "    import sys\n" {}
  lemma ImportsDashFree() ensures '-' !in "    import os\n" + "    import pandas\n" + "    import numpy\n" {}
  lemma CallDashFree() ensures '-' !in "    result = main()\n" + "    # something can be printed " {}
  lemma CommentDashFree() ensures '-' !in "to stdout while executing main\n" + "    # add a print to divide" {}
  lemma TryDashFree() ensures '-' !in " stdout and return\n" + "    try:\n" {}
  lemma DumpDashFree() ensures '-' !in "        print(json.dumps(result))\n" {}
  lemma ExceptDashFree() ensures '-' !in "    except Exception as e:\n" + "        print(json.dumps({\"error\": " {}
  lemma FallbackDashFree() ensures '-' !in "f\"Error serializing result: " + "{str(e)}\"}))\n" {}

  /** The epilogue holds the sentinel exactly once: inside its one `print` of dashes. */
  lemma SentinelOnce()
    ensures Occurrences(EPILOGUE, SENTINEL) == {|HEADER| + 11}
  {
    DashFreeParts();
    var a := HEADER + "    print(\"";
    var b := "\")\n" + FOOTER;
    assert EPILOGUE == a + SENTINEL + b;
    OnlyOccurrence(a, b);
  }

  /** Whitespace at the end of a script does not change the file that is written. */
  lemma WrapIgnoresTrailing(s: string, t: string)
    requires AllSpace(t)
    ensures Wrap(s + t) == Wrap(s)
  {
    RStripTrailing(s, t);
  }

  /**
   * Text of the script that does not end in whitespace survives in the file,
   * at the same position; in particular the `def main` the handler looks for.
   */
  lemma WrapKeeps(s: string, k: nat, pat: string)
    requires StartsAt(s, k, pat)
    requires pat != [] && !IsSpace(pat[|pat| - 1])
    ensures StartsAt(Wrap(s), k, pat)
  {
    var r := RStrip(s);
    assert s[k + |pat| - 1] == pat[|pat| - 1];
    assert k + |pat| <= |r|;
    assert r[k..k + |pat|] == s[k..k + |pat|];
    assert Wrap(s)[k..k + |pat|] == r[k..k + |pat|];
  }
}
