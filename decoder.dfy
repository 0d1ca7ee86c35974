/**
 * How the handler turns what the sandbox reports into a response: the
 * captured standard output is stripped, split at the sentinel line, the
 * first part is the guest's own output and the second part is parsed as
 * the JSON value `main()` returned.
 */
module Decoder {
  import opened Wrappers
  import opened Text
  import opened JsonValues
  import opened Payload
  import opened Responses

  /** What `subprocess.run` gives back, or the exception it raises. */
  datatype SandboxOutcome =
    | TimedOut
    | Completed(exitCode: int, stdout: string, stderr: string)
    | LaunchFailed(reason: string)

  /** The text of the `IndexError` raised when the output holds no sentinel line. */
  const INDEX_ERROR: string := "list index out of range"
  const INVALID_RESULT: string := "Script must return a valid JSON value"
  const TIMED_OUT: string := "Script execution timed out after 5 seconds"

  /** No occurrence of `sep` starts before `i`, so the text before `i` holds none. */
  lemma NoOccurrenceBefore(s: string, i: nat, sep: string)
    requires i <= |s| && sep != []
    requires forall k :: 0 <= k < i ==> !StartsAt(s, k, sep)
    ensures !Contains(s[..i], sep)
  {
    var r := FindFrom(s[..i], sep, 0);
    if r.Some? {
      StartsAtPrefix(s, i, r.value, sep);
    }
  }

  /** Python's `s.split(sep)`: the pieces between non-overlapping occurrences, found left to right. */
  function Split(s: string, sep: string): (parts: seq<string>)
    requires sep != []
    ensures |parts| >= 1
    ensures forall k :: 0 <= k < |parts| ==> !Contains(parts[k], sep)
    ensures |parts[0]| <= |s| && s[..|parts[0]|] == parts[0]
    decreases |s|
  {
    match FindFrom(s, sep, 0)
    case None => [s]
    case Some(i) =>
      NoOccurrenceBefore(s, i, sep);
      [s[..i]] + Split(s[i + |sep|..], sep)
  }

  /** Python's `sep.join(parts)`. */
  function Join(parts: seq<string>, sep: string): string
    requires |parts| >= 1
  {
    if |parts| == 1 then parts[0] else parts[0] + sep + Join(parts[1..], sep)
  }

  /** Joining a piece in front of at least one more. */
  lemma JoinCons(a: string, rest: seq<string>, sep: string)
    requires |rest| >= 1
    ensures Join([a] + rest, sep) == a + sep + Join(rest, sep)
  {
    assert ([a] + rest)[1..] == rest;
  }

  /** Splitting where the first occurrence is. */
  lemma SplitFirst(s: string, sep: string, i: nat)
    requires sep != [] && FindFrom(s, sep, 0) == Some(i)
    ensures i + |sep| <= |s|
    ensures Split(s, sep) == [s[..i]] + Split(s[i + |sep|..], sep)
    ensures s == s[..i] + sep + s[i + |sep|..]
  {
    var rest := s[i + |sep|..];
    assert s[i..] == s[i..i + |sep|] + rest;
    assert s == s[..i] + s[i..];
    Assoc(s[..i], sep, rest);
  }

  /** Splitting loses nothing: joining the pieces gives back the text. */
  lemma {:induction false} JoinSplit(s: string, sep: string)
    requires sep != []
    ensures Join(Split(s, sep), sep) == s
    decreases |s|
  {
    var r := FindFrom(s, sep, 0);
    if r.Some? {
      var i := r.value;
      SplitFirst(s, sep, i);
      var rest := s[i + |sep|..];
      JoinSplit(rest, sep);
      JoinCons(s[..i], Split(rest, sep), sep);
    }
  }

  /** A text without the separator is a single piece. */
  lemma SplitWhole(s: string, sep: string)
    requires sep != [] && !Contains(s, sep)
    ensures Split(s, sep) == [s]
  {
  }

  /**
   * The last character of `sep` occurs nowhere else in it (the sentinel line
   * ends in its only newline), so an occurrence cannot overlap the end of an
   * earlier one.
   */
  ghost predicate LastCharOnce(sep: string) {
    sep != [] && forall k :: 0 <= k < |sep| - 1 ==> sep[k] != sep[|sep| - 1]
  }

  /** The sentinel line has that shape and starts with a non-space. */
  lemma SeparatorShape()
    ensures LastCharOnce(SEPARATOR) && !IsSpace(SEPARATOR[0])
  {
    SentinelShape();
  }

  /**
   * No occurrence of `sep` can start inside a text that holds none and run
   * into a `sep` placed after it: its last character would have to fall on
   * another character of the second one.
   */
  lemma NotSeparatorAt(u: string, sep: string, rest: string, k: nat)
    requires LastCharOnce(sep) && !Contains(u, sep) && k < |u|
    ensures !StartsAt(u + sep + rest, k, sep)
  {
    var s := u + sep + rest;
    var n := |sep|;
    if k + n <= |u| {
      ContainsIff(u, sep);
      assert !StartsAt(u, k, sep);
      assert s[..|u|] == u;
      StartsAtPrefix(s, |u|, k, sep);
    } else if k + n <= |s| {
      assert s[k + n - 1] == sep[k + n - 1 - |u|];
      assert s[k + n - 1] != sep[n - 1];
      assert s[k..k + n][n - 1] == s[k + n - 1];
    }
  }

  /** The first `sep` after a text that holds none is the one right after it. */
  lemma FirstSeparator(u: string, sep: string, rest: string)
    requires LastCharOnce(sep) && !Contains(u, sep)
    ensures FindFrom(u + sep + rest, sep, 0) == Some(|u|)
  {
    var s := u + sep + rest;
    assert s[|u|..|u| + |sep|] == sep;
    assert StartsAt(s, |u|, sep);
    var r := FindFrom(s, sep, 0);
    if r.Some? && r.value < |u| {
      NotSeparatorAt(u, sep, rest, r.value);
    }
  }

  /** Splitting at the sentinel line peels off the text before the first one. */
  lemma SplitAtSeparator(u: string, sep: string, rest: string)
    requires LastCharOnce(sep) && !Contains(u, sep)
    ensures Split(u + sep + rest, sep) == [u] + Split(rest, sep)
  {
    var s := u + sep + rest;
    FirstSeparator(u, sep, rest);
    assert s[..|u|] == u;
    assert s[|u| + |sep|..] == rest;
  }

  /** Joining pieces that hold no sentinel line and splitting again gives the pieces back. */
  lemma {:induction false} SplitJoin(parts: seq<string>, sep: string)
    requires LastCharOnce(sep)
    requires |parts| >= 1
    requires forall k :: 0 <= k < |parts| ==> !Contains(parts[k], sep)
    ensures Split(Join(parts, sep), sep) == parts
    decreases |parts|
  {
    if |parts| == 1 {
      SplitWhole(parts[0], sep);
    } else {
      SplitJoin(parts[1..], sep);
      SplitAtSeparator(parts[0], sep, Join(parts[1..], sep));
      assert parts == [parts[0]] + parts[1..];
    }
  }

  /** What the handler makes of the guest's output and the text after the sentinel. */
  function Interpret(stdout: string, returned: string, loads: string -> Result<Json, string>): (r: Response)
    ensures r.Succeeded? || r.Failed? || r.Crashed?
    ensures r.Succeeded? ==> loads(returned) == Success(JObject(r.result)) && "error" !in r.result
    ensures r.Failed? ==> r.error == INVALID_RESULT && loads(returned).Success?
    ensures r.Crashed? <==> loads(returned).Failure?
    ensures (r.Succeeded? || r.Failed?) ==> r.stdout == stdout
    ensures loads(returned).Success? && loads(returned).value.JObject? && "error" !in loads(returned).value.fields ==>
      r == Succeeded(loads(returned).value.fields, stdout)
    ensures r.Crashed? ==> r.stderr == loads(returned).error
  {
    match loads(returned)
    case Failure(msg) => Crashed(msg)
    case Success(v) =>
      if v.JObject? && "error" !in v.fields then Succeeded(v.fields, stdout)
      else Failed(INVALID_RESULT, stdout)
  }

  /** The handling of a completed run's standard output. */
  function Decode(captured: string, loads: string -> Result<Json, string>): (r: Response)
    ensures r.Succeeded? || r.Failed? || r.Crashed?
    ensures r.Succeeded? ==> "error" !in r.result
    ensures r.Failed? ==> r.error == INVALID_RESULT
    ensures (r.Succeeded? || r.Failed?) ==>
      !Contains(r.stdout, SEPARATOR) && |r.stdout| <= |Strip(captured)|
      && Strip(captured)[..|r.stdout|] == r.stdout
  {
    var parts := Split(Strip(captured), SEPARATOR);
    if |parts| < 2 then Crashed(INDEX_ERROR)
    else Interpret(parts[0], parts[1], loads)
  }

  /** The handling of everything `subprocess.run` can report. */
  function Classify(outcome: SandboxOutcome, loads: string -> Result<Json, string>): (r: Response)
    ensures r.Succeeded? ==> outcome.Completed?
    ensures outcome.TimedOut? ==> r.Failed? && r.error == TIMED_OUT && r.stdout == ""
    ensures outcome.LaunchFailed? ==> r.Crashed? && r.stderr == outcome.reason
    ensures !r.InternalError? && !r.Rejected?
  {
    match outcome
    case TimedOut => Failed(TIMED_OUT, "")
    case LaunchFailed(reason) => Crashed(reason)
    case Completed(_, out, _) => Decode(out, loads)
  }

  /** Stripping the captured output removes the final newline and the guest's leading whitespace. */
  lemma StripCaptured(u: string, body: string)
    requires body != [] && !IsSpace(body[0]) && !IsSpace(body[|body| - 1])
    ensures Strip(u + body + "\n") == LStrip(u) + body
  {
    var x := u + body;
    assert AllSpace("\n");
    RStripTrailing(x, "\n");
    assert x[|x| - 1] == body[|body| - 1];
    assert RStrip(x) == x;
    LStripAppend(u, body);
  }

  /** Stripping output that has a sentinel line after the guest's own output. */
  lemma StripGuest(u: string, sep: string, v: string)
    requires sep != [] && !IsSpace(sep[0])
    requires v != [] && !IsSpace(v[|v| - 1])
    ensures Strip(u + sep + v + "\n") == LStrip(u) + sep + v
  {
    var body := sep + v;
    assert body[0] == sep[0];
    assert body[|body| - 1] == v[|v| - 1];
    StripCaptured(u, body);
    Regroup(u, sep, v, "\n");
    Assoc(LStrip(u), sep, v);
  }

  /** The pieces of the output of a guest that wrote `u`, then the sentinel line and `j`. */
  lemma GuestParts(u: string, sep: string, j: string)
    requires LastCharOnce(sep) && !IsSpace(sep[0])
    requires !Contains(u, sep) && !Contains(j, sep)
    requires j != [] && !IsSpace(j[|j| - 1])
    ensures Split(Strip(u + sep + j + "\n"), sep) == [LStrip(u), j]
  {
    StripGuest(u, sep, j);
    LStripKeepsOut(u, sep);
    SplitAtSeparator(LStrip(u), sep, j);
    SplitWhole(j, sep);
  }

  /**
   * The output of a guest that wrote `u` and then had the epilogue print the
   * sentinel line and `j`: the guest's output, less its leading whitespace,
   * and `j` are what the handler reads.
   */
  lemma GuestOutput(u: string, j: string, loads: string -> Result<Json, string>)
    requires !Contains(u, SEPARATOR) && !Contains(j, SEPARATOR)
    requires j != [] && !IsSpace(j[|j| - 1])
    ensures Decode(u + SEPARATOR + j + "\n", loads) == Interpret(LStrip(u), j, loads)
  {
    SeparatorShape();
    GuestParts(u, SEPARATOR, j);
    DecodeOfParts(u + SEPARATOR + j + "\n", LStrip(u), j, loads);
  }

  /** A JSON object without an "error" key is returned with status 200. */
  lemma GuestObjectSucceeds(u: string, j: string, m: map<string, Json>, loads: string -> Result<Json, string>)
    requires !Contains(u, SEPARATOR) && !Contains(j, SEPARATOR)
    requires j != [] && !IsSpace(j[|j| - 1])
    requires loads(j) == Success(JObject(m)) && "error" !in m
    ensures Decode(u + SEPARATOR + j + "\n", loads) == Succeeded(m, LStrip(u))
  {
    GuestOutput(u, j, loads);
  }

  /**
   * Any other JSON value, and any object with an "error" key (the epilogue's
   * own report of a result it could not serialize among them), gives 400.
   */
  lemma GuestValueRejected(u: string, j: string, v: Json, loads: string -> Result<Json, string>)
    requires !Contains(u, SEPARATOR) && !Contains(j, SEPARATOR)
    requires j != [] && !IsSpace(j[|j| - 1])
    requires loads(j) == Success(v) && (!v.JObject? || "error" in v.fields)
    ensures Decode(u + SEPARATOR + j + "\n", loads) == Failed(INVALID_RESULT, LStrip(u))
  {
    GuestOutput(u, j, loads);
  }

  /** Text after the sentinel that does not parse is reported with the parser's message. */
  lemma GuestValueUnparsed(u: string, j: string, msg: string, loads: string -> Result<Json, string>)
    requires !Contains(u, SEPARATOR) && !Contains(j, SEPARATOR)
    requires j != [] && !IsSpace(j[|j| - 1])
    requires loads(j) == Failure(msg)
    ensures Decode(u + SEPARATOR + j + "\n", loads) == Crashed(msg)
  {
    GuestOutput(u, j, loads);
  }

  /** Output without a sentinel line (the guest failed before the epilogue printed it) is an `IndexError`. */
  lemma NoSentinelCrashes(captured: string, loads: string -> Result<Json, string>)
    requires !Contains(Strip(captured), SEPARATOR)
    ensures Decode(captured, loads) == Crashed(INDEX_ERROR)
  {
    SplitWhole(Strip(captured), SEPARATOR);
  }

  /**
   * A guest that prints a sentinel line itself has the text after it read as
   * its return value, and the value the epilogue printed is never looked at.
   */
  lemma SentinelInGuestOutput(u1: string, u2: string, j: string, loads: string -> Result<Json, string>)
    requires !Contains(u1, SEPARATOR) && !Contains(u2, SEPARATOR)
    requires j != [] && !IsSpace(j[|j| - 1])
    ensures Decode(u1 + SEPARATOR + u2 + SEPARATOR + j + "\n", loads) == Interpret(LStrip(u1), u2, loads)
  {
    SeparatorShape();
    TwoSentinelParts(u1, u2, SEPARATOR, j);
    DecodeOfParts(u1 + SEPARATOR + u2 + SEPARATOR + j + "\n", LStrip(u1), u2, loads);
  }

  /** The first two pieces of the output of a guest that wrote `u1`, a sentinel line and `u2`. */
  lemma TwoSentinelParts(u1: string, u2: string, sep: string, j: string)
    requires LastCharOnce(sep) && !IsSpace(sep[0])
    requires !Contains(u1, sep) && !Contains(u2, sep)
    requires j != [] && !IsSpace(j[|j| - 1])
    ensures var parts := Split(Strip(u1 + sep + u2 + sep + j + "\n"), sep);
      |parts| >= 2 && parts[0] == LStrip(u1) && parts[1] == u2
  {
    var v := u2 + sep + j;
    assert v[|v| - 1] == j[|j| - 1];
    RegroupThree(u1 + sep, u2, sep, j, "\n");
    StripGuest(u1, sep, v);
    LStripKeepsOut(u1, sep);
    FirstTwoParts(LStrip(u1), u2, sep, j);
  }

  /** The first two pieces of a text with two sentinel lines. */
  lemma FirstTwoParts(a: string, b: string, sep: string, rest: string)
    requires LastCharOnce(sep) && !Contains(a, sep) && !Contains(b, sep)
    ensures var parts := Split(a + sep + (b + sep + rest), sep);
      |parts| >= 2 && parts[0] == a && parts[1] == b
  {
    SplitAtSeparator(a, sep, b + sep + rest);
    SplitAtSeparator(b, sep, rest);
  }

  /** Decoding reads the first two pieces of the stripped output. */
  lemma DecodeOfParts(captured: string, a: string, b: string, loads: string -> Result<Json, string>)
    requires var parts := Split(Strip(captured), SEPARATOR); |parts| >= 2 && parts[0] == a && parts[1] == b
    ensures Decode(captured, loads) == Interpret(a, b, loads)
  {
  }

  /** Neither the exit status nor the standard error of a completed run affects the response. */
  lemma ExitStatusIgnored(c1: int, c2: int, out: string, e1: string, e2: string, loads: string -> Result<Json, string>)
    ensures Classify(Completed(c1, out, e1), loads) == Classify(Completed(c2, out, e2), loads)
  {
  }
}
