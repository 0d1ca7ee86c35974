# Safe script execution service, modelled in Dafny

The service exposes one HTTP endpoint, `/execute`. A client posts a JSON body
`{"script": "..."}` holding Python source that defines `main()`. The handler
checks the request in a fixed order:

1. the body must carry a `script`;
2. the script must contain the text `def main`;
3. a purely textual validator must accept the script. The validator applies
   four import regexes, an allow-list of modules, a set of dangerous names and
   27 dangerous-operation patterns.

An accepted script is wrapped: its trailing whitespace is removed, then a
blank line and a fixed epilogue are appended. The epilogue calls `main()`,
prints a sentinel line of 32 dashes and then prints the JSON encoding of the
result. The wrapped script is written to a scratch file, run in a sandbox with
a 5-second timeout, and the file is removed in `finally`.

The captured standard output is then decoded:

- the output is stripped and split at the sentinel line;
- the first piece is returned as the guest's `stdout`;
- the second piece is parsed as JSON;
- the result is a 200 response only if it is an object without an `"error"` key.

The model follows `app.py`, module by module:

- `Rules` holds the rule tables.
- `Validator` holds the four import regexes, written as a deterministic
  matcher at a position. It also defines `finditer` as a left-to-right
  sequence of non-overlapping matches, `pattern.search` for the dangerous
  patterns, and the three ordered passes. There are two forms: the
  specification function `Validate`, and the loop-based method
  `ValidateScript`, which is proved equal to it.
- `ValidatorProps` and `ValidatorShapes` prove what the verdict means:
  - A dangerous pattern anywhere in the text is always caught.
  - What is rejected is really there.
  - A plain import of a module outside the allow-list, at a line start, is
    always caught, even where `finditer` skips its position. A plain-import
    match that encloses it names the same module, or the module `import`,
    which is itself rejected.
  - A from-import of a rejected module or of a dangerous name is caught
    unless some from-import in the text imports a name spelled `from`. A
    from-import match that encloses it shares its groups, or has the module
    `from` (itself rejected), or has the imported name `from`. Only the last
    case hides an import. In `from os import` followed on the next line by
    `from socket import x`, the first match ends after the second line's
    `from`, `finditer` resumes there, and the `socket` import is never tested.
    Such text is not valid Python, since `from` is a keyword. A text in which
    no `import` is followed, after whitespace, by the letters `from` never has
    this shape.
- `Payload` defines the wrapped file and proves that the sentinel occurs
  exactly once in the epilogue.
- `Decoder` covers `str.strip`, `str.split` on the sentinel line, and the
  classification of parsed values and sandbox outcomes.
- `Responses` defines the response bodies and status codes.
- `Handler` holds the request checks, in order. It also holds a `ScratchDir`
  class for the scratch directory, whose methods create and remove files and
  record every event. The handler method `Execute` is proved to leave the
  directory as it found it. It creates no file for a refused request, and
  exactly one file, later removed, for an admitted one.

Two collaborators are parameters, not models:

- `json.loads` is a function `loads: string -> Result<Json, string>`. A
  failure carries the exception's text.
- The sandbox is a function from the scratch file's contents to a
  `SandboxOutcome`: `TimedOut`, `Completed(exitCode, stdout, stderr)` or
  `LaunchFailed(reason)`.

The model follows the code in these points, where a reader of the handler
might expect something else:

- A missing sentinel is not a failure that carries the whole output as
  `stdout`. The code's `outputs[1]` raises `IndexError`, and the answer is
  "Script execution failed" with `stderr` set to `list index out of range`
  (`Decoder.NoSentinelCrashes`).
- Output that is not valid JSON does not give a serialization error with
  `stdout`. It gives "Script execution failed" with the parser's message as
  `stderr` (`Decoder.GuestValueUnparsed`).
- The returned `stdout` is not the guest's output verbatim. Besides the
  final newline, `strip()` removes the guest's leading whitespace
  (`Decoder.GuestOutput`).
- The entry-point test is a substring test for `def main`, not a check for a
  definition (`Handler.CheckOrder`).
- Not every malformed request gets a 400. Some bodies raise an exception that
  the handler does not catch, and the framework answers 500
  (`Handler.ScriptOf`, `Handler.ScriptValue`):
  - a number or `true` as the body;
  - a list body holding the string `"script"`, or a string body containing it;
  - a `script` value that is a number, a boolean or `null`;
  - a list `script` holding the string `def main`, or an object `script` with
    that key.

  The other malformed requests get a 400. A falsy body, a list or string body
  without `"script"`, and an object without a `script` key get the
  missing-script message. A list or object `script` without `def main` gets
  the no-main message.
- The exit status is never inspected (`Decoder.ExitStatusIgnored`).
- The output is split at every sentinel line, and only the first two pieces
  are used. A guest that prints the sentinel itself therefore decides what is
  parsed (`Decoder.SentinelInGuestOutput`).

## Model

| member | source | states |
|---|---|---|
| Rules.TablesDisjoint | app.py:11-25 | No allowed module is a dangerous name |
| Rules.PatternTails | app.py:26-54 | Every dangerous pattern ends in `(`, in `.` or in nothing after its literal |
| Text.IsSpace | app.py:19-22 | `\s` in a `str` pattern, and the whitespace `strip()` and `rstrip()` remove (app.py:95, 130): the code points of Python's `str.isspace` |
| Text.IsWord | app.py:19-22 | `\w`, restricted to ASCII letters, digits and the underscore |
| Text.Contains | app.py:85 | `pat in s`: defined as a successful `str.find` from the start (its meaning is `Text.ContainsIff`) |
| Text.ContainsIff | app.py:85 | `pat in s` holds exactly when `pat` occurs at some position |
| Text.FindFrom | app.py:85 | `str.find`: a found index is the first occurrence at or after the start; `None` means there is no occurrence |
| Text.RStrip | app.py:95 | `rstrip()` keeps a prefix, drops only whitespace, and leaves no trailing whitespace |
| Text.LStrip | app.py:130 | The leading half of `strip()`: keeps a suffix, drops only whitespace, and leaves no leading whitespace |
| Text.Span | app.py:19 | A greedy run: every character up to its end is in the class, and the character at its end is not |
| Text.Strip | app.py:130 | `strip()` leaves a text that neither starts nor ends in whitespace |
| Text.StripOf | app.py:130 | `strip()` of whitespace, a core that neither starts nor ends in whitespace, then whitespace, gives exactly the core |
| Text.RStripTrailing | app.py:95 | Whitespace appended to a text does not change its `rstrip()` |
| Text.LStripAppend | app.py:130 | `lstrip()` of a text followed by a part that starts with a non-space removes only the text's own leading whitespace |
| Validator.GroupCount | app.py:66 | `len(match.groups())`: two groups for the from-import regex, one for each of the others |
| Validator.ImportHead | app.py:19 | `import\s+(\w+)` at a position: the module group starts after `import` and at least one whitespace character, and ends inside the text |
| Validator.LineBody | app.py:19 | The line-start prefix of the import regexes matches only at the text start or at a newline, and the statement it leads to starts inside the text |
| Validator.Run1 | app.py:19 | `\s+` or `\w+` matches only a non-empty greedy run; a failed run means the next character is not in the class |
| Validator.Keyword | app.py:19 | A keyword matches only where the text holds it, and ends right after it |
| Validator.KeywordHead | app.py:19 | `kw\s+(\w+)` puts its group after the keyword and at least one whitespace character |
| Validator.FromHead | app.py:20 | The from-import's module group lies after `from` and before `import`, and its name group lies after `import` |
| Validator.AsAlias | app.py:21 | The alias clause, when present, ends after where it started and inside the text |
| Validator.DottedTail | app.py:20 | `(?:\.\w+)*` consumes only dots and word characters and ends on a word character |
| Validator.MatchAt | app.py:18-23 | A match of any of the four import regexes starts where tried and ends inside the text; only the from-import regex has a second group |
| Validator.PassRejects | app.py:57-69 | One import pass fails: some `finditer` match of some import regex fails that pass's test |
| Validator.FindAll | app.py:58 | `finditer` from a position: every match lies after it, is non-empty and ends inside the text, and each starts at or after the end of the one before |
| Validator.Finditer | app.py:58 | The matches of an import regex over a whole script are in order, non-empty, inside the text and disjoint |
| Validator.BadModule | app.py:60 | The first pass's test: the module is not on the allow-list or is a dangerous name |
| Validator.Offends | app.py:57-69 | The module pass tests group 1 of every import regex; the name pass tests group 2, for the from-import regex only, against the dangerous names |
| Validator.DangerAt | app.py:26-54 | A dangerous pattern matches at a position when its literal is there and, after optional whitespace, its closing character follows |
| Validator.OperationRejects | app.py:72-74 | The operation pass fails when some dangerous pattern matches at some position |
| Validator.Validate | app.py:56-74 | The validator rejects exactly when an import pass or the operation pass fails; the operation message comes only when neither import pass fails |
| Validator.FirstMatch | app.py:58 | `pattern.search(s, pos)` finds the first matching position at or after `pos`; `None` means no position from `pos` on matches |
| Validator.FirstMatchIs | app.py:58 | Given the first matching position, the search finds exactly that one |
| Validator.FindAllSound | app.py:58 | Every `finditer` match is the regex's match at its own start, from the resume point on |
| Validator.FinditerMatches | app.py:58 | Every match `finditer` yields for a regex is that regex's match at its start |
| Validator.NextMatch | app.py:58 | The scanning loop returns the search result |
| Validator.ScanMatches | app.py:58-61 | The loop over `finditer` matches reports a bad match exactly when some match it yields is bad |
| Validator.Search | app.py:73 | `pattern.search(script)` for a dangerous pattern is true exactly when the pattern matches at some position |
| Validator.ScanShapes | app.py:57-69 | The nested loops over regexes and matches report an offender exactly when some match of some regex offends |
| Validator.RunImportPass | app.py:57-69 | An import pass raises exactly when some `finditer` match of some regex fails the pass's test |
| Validator.SearchPatterns | app.py:72-74 | The loop over the pattern list reports exactly when some pattern matches somewhere |
| Validator.RunOperationPass | app.py:72-74 | The operation pass raises exactly when some dangerous pattern occurs somewhere |
| Validator.ValidateScript | app.py:16-74 | The three passes, in order and each stopping at its first violation, give the verdict of the specification function |
| ValidatorProps.FindAllCovers | app.py:58 | Every position where a regex matches lies inside some match that `finditer` yields |
| ValidatorProps.FinditerCovers | app.py:58 | The same for each import regex over a script |
| ValidatorProps.FromMatchOf | app.py:20 | A line start, `from`, whitespace, a word, whitespace, `import`, whitespace and a word make a from-import match whose groups are the two words |
| ValidatorProps.AliasedWithinPlain | app.py:19-22 | The aliased regexes match only where the plain ones match, and capture the same module there |
| ValidatorProps.LeadingGap | app.py:19 | A newline inside a statement's leading whitespace starts the same statement again |
| ValidatorProps.KeywordHeadGap | app.py:19 | A newline inside `kw\s+(\w+)` sits in the whitespace after the keyword |
| ValidatorProps.FromHeadGap | app.py:20 | A newline inside a from-import restarts it at the module, at `import` or at the imported name |
| ValidatorProps.NestedPlainImport | app.py:19 | A plain import that matches inside an earlier one names the same module, or the earlier module is the word `import` |
| ValidatorProps.NestedFromImport | app.py:20 | A from-import that matches inside an earlier one has the same groups, or one earlier group is the word `from` |
| ValidatorProps.ModuleTestIsAllowList | app.py:60 | Because the tables are disjoint, the module test is "not allowed" |
| ValidatorProps.OffenderRejected | app.py:57-69 | Any `finditer` match that fails an import pass makes the verdict the import rejection |
| ValidatorProps.CleanText | app.py:56-74 | The validator accepts exactly when no `finditer` match fails either import pass and no dangerous pattern occurs at any position |
| ValidatorProps.PlainImportCaught | app.py:57-61 | Every position where the plain-import regex matches a rejected module gives the import rejection, even when `finditer` skips that position |
| ValidatorProps.EnclosingFrom | app.py:20 | A from-import match encloses another only by sharing its groups or by importing from `from` |
| ValidatorProps.OffenceCarries | app.py:57-69 | An offence of the enclosed match carries over to the enclosing one |
| ValidatorProps.FromNameNotFrom | app.py:20 | In a text where no `import` is followed, after whitespace, by the letters `from`, a from-import head never imports the name `from` |
| ValidatorProps.NoImportedFromOf | app.py:20 | Such a text meets the condition of `FromImportCaught` at every from-import match |
| ValidatorProps.FromImportCaught | app.py:57-69 | Every position where the from-import regex matches a rejected module or a dangerous imported name gives the import rejection |
| ValidatorShapes.LineStart | app.py:19 | At a line start, leading whitespace followed by a word character is what the line-start prefix of the import regexes consumes |
| ValidatorShapes.KeywordAtLineStart | app.py:19 | A keyword at a line start, then whitespace and a word, gives the line body, the keyword and both runs |
| ValidatorShapes.PlainStatement | app.py:19 | `import`, whitespace and a word, written at a line start, match the plain-import regex with that word as the module |
| ValidatorShapes.ImportOfUnlistedModule | app.py:57-61 | Any script holding `import m` at a line start, with `m` not on the allow-list, is rejected for an import, whatever else it holds |
| ValidatorShapes.ImportClause | app.py:20 | Written-out whitespace, `import`, whitespace and a word are what the `\s+import\s+(\w+)` part of the from-import regex consumes, with the word as group 2 |
| ValidatorShapes.FromStatement | app.py:20 | `from m import n`, written at a line start, matches the from-import regex with `m` and `n` as its groups |
| ValidatorShapes.FromImportOfDangerousName | app.py:57-69 | Any script holding `from m import n` at a line start, with `m` not on the allow-list or `n` a dangerous name, is rejected for an import, provided no `import` in it is followed, after whitespace, by the letters `from` |
| ValidatorShapes.DangerWritten | app.py:26-54 | A dangerous literal, optional whitespace and its closing character, written at a position, match there |
| ValidatorShapes.DangerRejected | app.py:72-74 | A dangerous pattern matching anywhere rejects the script; the message is the operation one unless an import pass fails first |
| ValidatorShapes.OperationAnywhere | app.py:72-74 | Any script holding a dangerous pattern anywhere, including inside a function body, is rejected |
| Payload.SentinelShape | app.py:105 | The sentinel is 32 dashes; the separator the decoder splits on is the sentinel and a newline |
| Payload.Wrap | app.py:95-110 | The file is as long as the script without its trailing whitespace, a blank line and the epilogue together; its contents are stated by the lemmas below |
| Payload.SentinelOnce | app.py:95-110 | The sentinel occurs exactly once in the epilogue, inside its one `print` of dashes |
| Payload.WrapIgnoresTrailing | app.py:95 | Trailing whitespace in the script does not change the file |
| Payload.WrapKeeps | app.py:95 | Text of the script that does not end in whitespace, such as `def main`, stays at the same position in the file |
| Decoder.Split | app.py:131 | `split` gives at least one piece; no piece holds the separator; the first piece is a prefix of the text |
| Decoder.JoinSplit | app.py:131 | Joining the pieces of a split gives back the text |
| Decoder.SplitJoin | app.py:131 | Splitting separator-free pieces joined by the sentinel line gives back the pieces |
| Decoder.Interpret | app.py:136-146 | Success exactly for an object without an `"error"` key, carrying that object and the stdout; any other parsed value gives the invalid-result 400 with the stdout; a parse failure, and only that, gives the failure response with the parser's message |
| Decoder.Decode | app.py:130-146 | The returned stdout is a prefix of the stripped output and never holds the separator; success never carries an `"error"` key |
| Decoder.Classify | app.py:123-157 | A timeout gives the timed-out message with empty stdout; a launch failure gives the failure response with its message; success needs a completed run |
| Decoder.StripCaptured | app.py:130 | Stripping removes the final newline and the guest's leading whitespace |
| Decoder.GuestParts | app.py:130-133 | Output `u`, separator, `j`, newline splits into the guest output without its leading whitespace, then `j` |
| Decoder.GuestOutput | app.py:130-136 | The decoder reads exactly those two pieces |
| Decoder.GuestObjectSucceeds | app.py:143-146 | An object without `"error"` gives 200 with that object and the stripped guest output |
| Decoder.GuestValueRejected | app.py:137-141 | A non-object value, or an object with an `"error"` key, gives the invalid-result 400 |
| Decoder.GuestValueUnparsed | app.py:153-157 | Unparsable text after the sentinel gives "Script execution failed" with the parser's message |
| Decoder.NoSentinelCrashes | app.py:133 | Output without the sentinel line gives "Script execution failed" with the `IndexError` text |
| Decoder.SentinelInGuestOutput | app.py:131-133 | A sentinel printed by the guest makes the text after it the parsed value |
| Decoder.FirstTwoParts | app.py:132-133 | The first two pieces of a text with two separators are the texts before each |
| Decoder.ExitStatusIgnored | app.py:123-146 | Neither the exit code nor stderr of a completed run affects the response |
| JsonValues.Truthy | app.py:80 | `not data`: `None`, `False`, `0`, the empty string, the empty list and the empty object are false, all else true |
| Responses.Response.Status | app.py:81-157 | The status code of each response: 200 for a success, 500 for an escaped exception, 400 for every other answer |
| Responses.Response.Body | app.py:81-157 | The `jsonify` body of each answer: `error` alone for a refusal, `error` and `stdout` for an invalid result, `error` and `stderr` for a failed run, `result` and `stdout` for a success |
| Responses.ErrorKeyIffBadRequest | app.py:80-157 | Every handler body is an object, and it has an `"error"` key exactly when the status is 400 |
| Handler.ScriptOf | app.py:80-83 | The script is admitted exactly when the body is an object with a string `script`; a falsy body or an object without `script` gets the missing-script 400; an object with `script` gets the answer for that value; every refusal is a 400 or a 500 |
| Handler.ScriptValue | app.py:83-86 | Only a string value goes on to the checks; any other gives the no-main 400 or a 500 |
| Handler.Precheck | app.py:80-91 | A request is admitted exactly when it has a string script that contains `def main` and that the validator accepts; a refused body keeps its refusal, an admitted script without `def main` gets the no-main 400, and one the validator rejects gets the validator's message as a 400 |
| Handler.RefusalOrder | app.py:80-91 | The whole handler answers the missing-script 400, then the no-main 400, then the validator's 400, in that order of precedence, whatever the sandbox would do |
| Handler.Handle | app.py:77-157 | A refused request gets its refusal; an admitted one gets the classification of the sandbox run on the wrapped script; success needs a completed run |
| Handler.CheckOrder | app.py:80-91 | Without `def main`, the no-main message comes first whatever the script holds; then the validator's message; neither depends on the sandbox |
| Handler.UnlistedImportRefused | app.py:85-91 | A script importing an unlisted module never reaches the sandbox |
| Handler.ScratchName | app.py:94 | Every scratch name starts with `tmp` and ends in `.py` |
| Handler.ScratchDir.Create | app.py:94 | A new file under an unused `.py` name holds the contents, and the event is recorded |
| Handler.ScratchDir.Remove | app.py:158-160 | The file is removed and the event is recorded |
| Handler.CheckRequest | app.py:78-91 | The checks made before any file exists give the result of `Precheck` |
| Handler.RunAdmitted | app.py:94-160 | Exactly one new file with the contents is created, run and removed, whatever the run reports; the directory ends as it began |
| Handler.Execute | app.py:77-160 | The response is `Handle`'s; the directory ends as it began; a refused request records no event; an admitted one creates one file with the wrapped script and removes it |

## Left out

- Flask routing, `request.get_json`, `jsonify` and `app.run` are HTTP plumbing. The request body is a decoded `Json` value, and a response is a `Response` value.
- `subprocess.run`, nsjail and its configuration, the real 5-second wait and the killing of the process are external processes. The sandbox is a function parameter that returns a `SandboxOutcome`.
- Execution of the guest code and of the epilogue at run time is outside the model. The guest's captured output is an input to the decoder.
- `json.loads` and `json.dumps` internals and JSON floats are foreign-library behaviour. A parse is a parameter that can fail, and JSON numbers are integers.
- The captured output is taken as text already decoded; byte decoding is not modelled.
- `\w` is ASCII letters, digits and the underscore; Python's Unicode word characters are not modelled. `\s` is the full `str.isspace` set, by code point.
- `tempfile` naming is modelled as the first unused name in a fixed sequence, not a random one. `f.write` and `f.flush` are folded into `ScratchDir.Create`.
- Handler.Execute: a failure of `tempfile` or of `f.write` (a 500 answer, and in the write case a file that is never removed, because the write at app.py:111-113 happens before the `try` whose `finally` removes it) is not modelled.
- Concurrent requests sharing the scratch directory are not modelled.
- ValidatorProps.FromImportCaught: assumes no from-import in the text imports a name spelled `from`. `from`, being a keyword, cannot be such a name in valid Python. Without that assumption the claim is false: `from os import` followed on the next line by `from socket import x` hides the `socket` import. ValidatorProps.NoImportedFromOf gives a condition on the text alone that implies the assumption: no `import` is followed, after whitespace, by the letters `from`.
- ValidatorShapes.FromImportOfDangerousName: carries the same assumption, in that text-level form.
- ValidatorShapes.ImportOfUnlistedModule: is stated for a plain `import m` written out. Aliased imports are covered at the level of regex matches: the aliased regexes match only where the plain ones do, with the same module (ValidatorProps.AliasedWithinPlain), so ValidatorProps.PlainImportCaught and ValidatorProps.FromImportCaught cover them.
- The `stderr` of a completed run is carried but never used, just as in the source.
