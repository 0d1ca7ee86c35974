/**
 * The `/execute` endpoint: the checks on the request, in the order the
 * handler makes them, then a scratch file that holds the wrapped script for
 * exactly as long as the sandbox runs it.
 */
module Handler {
  import opened Wrappers
  import opened Text
  import opened JsonValues
  import opened Validator
  import Rules
  import ValidatorProps
  import ValidatorShapes
  import opened Payload
  import opened Responses
  import opened Decoder

  const MISSING_SCRIPT: string := "Missing 'script' in request"
  const NO_MAIN: string := "Script must define a main() function"
  const MAIN_MARKER: string := "def main"

  /** The script the request carries, or the response that ends the request first. */
  datatype Admission = Admit(script: string) | Refuse(response: Response)

  /**
   * `not data or "script" not in data`, then `data.get("script")`. A body that
   * is not an object passes the membership test only to fail at `.get`.
   */
  function ScriptOf(data: Json): (a: Admission)
    ensures a.Admit? <==> data.JObject? && "script" in data.fields && data.fields["script"].JString?
    ensures a.Admit? ==> a.script == data.fields["script"].s
    ensures a.Refuse? ==> a.response.InternalError? || a.response.Rejected?
    ensures !Truthy(data) || (data.JObject? && "script" !in data.fields) ==> a == Refuse(Rejected(MISSING_SCRIPT))
    ensures data.JObject? && "script" in data.fields ==> a == ScriptValue(data.fields["script"])
  {
    if !Truthy(data) then Refuse(Rejected(MISSING_SCRIPT))
    else
      match data
      case JObject(fields) =>
        if "script" !in fields then Refuse(Rejected(MISSING_SCRIPT))
        else ScriptValue(fields["script"])
      case JArray(items) =>
        if JString("script") in items then Refuse(InternalError) else Refuse(Rejected(MISSING_SCRIPT))
      case JString(t) =>
        if Contains(t, "script") then Refuse(InternalError) else Refuse(Rejected(MISSING_SCRIPT))
      case _ => Refuse(InternalError)
  }

  /**
   * The script value: a string goes on to the checks; any other value fails
   * with an exception at the `'def main' not in script` test or in the first
   * regular expression search, unless that test refuses it.
   */
  function ScriptValue(v: Json): (a: Admission)
    ensures a.Admit? <==> v.JString?
    ensures a.Admit? ==> a.script == v.s
    ensures a.Refuse? ==> a.response == InternalError || a.response == Rejected(NO_MAIN)
  {
    match v
    case JString(s) => Admit(s)
    case JArray(items) =>
      if JString(MAIN_MARKER) in items then Refuse(InternalError) else Refuse(Rejected(NO_MAIN))
    case JObject(f) =>
      if MAIN_MARKER in f then Refuse(InternalError) else Refuse(Rejected(NO_MAIN))
    case _ => Refuse(InternalError)
  }

  /** Every check made before anything is written: the script, `def main`, the validator. */
  function Precheck(data: Json): (a: Admission)
    ensures a.Admit? <==>
      ScriptOf(data).Admit? && Contains(ScriptOf(data).script, MAIN_MARKER)
      && Validate(ScriptOf(data).script) == Accepted
    ensures a.Admit? ==> a == ScriptOf(data)
    ensures a.Refuse? ==> a.response.InternalError? || a.response.Rejected?
    ensures ScriptOf(data).Refuse? ==> a == ScriptOf(data)
    ensures ScriptOf(data).Admit? && !Contains(ScriptOf(data).script, MAIN_MARKER) ==> a == Refuse(Rejected(NO_MAIN))
    ensures (ScriptOf(data).Admit? && Contains(ScriptOf(data).script, MAIN_MARKER)
       && Validate(ScriptOf(data).script) != Accepted) ==>
      a == Refuse(Rejected(Validate(ScriptOf(data).script).Message()))
  {
    match ScriptOf(data)
    case Refuse(r) => Refuse(r)
    case Admit(s) =>
      if !Contains(s, MAIN_MARKER) then Refuse(Rejected(NO_MAIN))
      else
        var verdict := Validate(s);
        if verdict.Accepted? then Admit(s) else Refuse(Rejected(verdict.Message()))
  }

  /** The response to a request whose JSON body is `data`. */
  function Handle(data: Json, sandbox: string -> SandboxOutcome, loads: string -> Result<Json, string>): (r: Response)
    ensures r.Succeeded? ==> Precheck(data).Admit? && sandbox(Wrap(Precheck(data).script)).Completed?
    ensures Precheck(data).Refuse? ==> r == Precheck(data).response
    ensures Precheck(data).Admit? ==> r == Classify(sandbox(Wrap(Precheck(data).script)), loads)
  {
    match Precheck(data)
    case Refuse(r) => r
    case Admit(s) => Classify(sandbox(Wrap(s)), loads)
  }

  /**
   * A falsy body, or an object without a `script` key, gets the missing-script
   * answer; a `script` without `def main` gets the no-main answer whatever else
   * it holds; only then does the validator speak; none of this depends on the
   * sandbox.
   */
  lemma RefusalOrder(data: Json, sandbox: string -> SandboxOutcome, loads: string -> Result<Json, string>)
    ensures !Truthy(data) || (data.JObject? && "script" !in data.fields) ==>
      Handle(data, sandbox, loads) == Rejected(MISSING_SCRIPT)
    ensures ScriptOf(data).Admit? && !Contains(ScriptOf(data).script, MAIN_MARKER) ==>
      Handle(data, sandbox, loads) == Rejected(NO_MAIN)
    ensures (ScriptOf(data).Admit? && Contains(ScriptOf(data).script, MAIN_MARKER)
       && Validate(ScriptOf(data).script) != Accepted) ==>
      Handle(data, sandbox, loads) == Rejected(Validate(ScriptOf(data).script).Message())
  {
  }

  /** The body `{"script": s}`. */
  function ScriptRequest(s: string): Json {
    JObject(map["script" := JString(s)])
  }

  /**
   * The checks come in order: a script without `def main` gets that message
   * whatever else is wrong with it; only then does the validator speak; and
   * neither outcome depends on the sandbox.
   */
  lemma CheckOrder(s: string, sandbox: string -> SandboxOutcome, loads: string -> Result<Json, string>)
    ensures !Contains(s, MAIN_MARKER) ==> Handle(ScriptRequest(s), sandbox, loads) == Rejected(NO_MAIN)
    ensures Contains(s, MAIN_MARKER) && Validate(s) != Accepted ==>
      Handle(ScriptRequest(s), sandbox, loads) == Rejected(Validate(s).Message())
    ensures Contains(s, MAIN_MARKER) && Validate(s) == Accepted ==>
      Handle(ScriptRequest(s), sandbox, loads) == Classify(sandbox(Wrap(s)), loads)
  {
    assert ScriptRequest(s).fields["script"] == JString(s);
  }

  /** A script that imports a module outside the allow list at the start of a line never reaches the sandbox. */
  lemma UnlistedImportRefused(
    pre: string, lead: string, gap: string, moduleName: string, post: string,
    sandbox: string -> SandboxOutcome, loads: string -> Result<Json, string>)
    requires pre == [] || pre[|pre| - 1] == '\n'
    requires AllSpace(lead) && |gap| > 0 && AllSpace(gap)
    requires |moduleName| > 0 && ValidatorProps.WordLiteral(moduleName) && (post == [] || !IsWord(post[0]))
    requires moduleName !in Rules.ALLOWED_MODULES
    ensures var s := pre + (lead + ("import" + (gap + (moduleName + post))));
      Handle(ScriptRequest(s), sandbox, loads) ==
        Rejected(if Contains(s, MAIN_MARKER) then "Potentially dangerous import detected" else NO_MAIN)
  {
    var s := pre + (lead + ("import" + (gap + (moduleName + post))));
    ValidatorShapes.ImportOfUnlistedModule(pre, lead, gap, moduleName, post);
    CheckOrder(s, sandbox, loads);
  }

  /** What happened to the scratch directory, in order. */
  datatype FileEvent = Created(path: string, contents: string) | Removed(path: string)

  /** The name the `n`-th attempt to create a scratch file tries. */
  function ScratchName(n: nat): (name: string)
    ensures |name| == n + 6
    ensures name[..3] == "tmp" && name[|name| - 3..] == ".py"
  {
    "tmp" + Underscores(n) + ".py"
  }

  function Underscores(n: nat): (u: string)
    ensures |u| == n
  {
    if n == 0 then [] else Underscores(n - 1) + "_"
  }

  /** A length no name in `names` reaches. */
  lemma LengthBound(names: set<string>) returns (n: nat)
    ensures forall name :: name in names ==> |name| < n
  {
    if names == {} {
      n := 0;
    } else {
      var name :| name in names;
      var m := LengthBound(names - {name});
      n := if m > |name| then m else |name| + 1;
    }
  }

  /** The directory the scratch files live in: file names and their contents. */
  class ScratchDir {
    var files: map<string, string>
    ghost var history: seq<FileEvent>

    constructor ()
      ensures files == map[] && history == []
    {
      files := map[];
      history := [];
    }

    /**
     * `NamedTemporaryFile(mode='w', suffix='.py', delete=False)` and the write
     * of `contents`: a new file under a name not in use, tried name after name.
     */
    method Create(contents: string) returns (path: string)
      modifies this
      ensures path !in old(files)
      ensures |path| > 3 && path[|path| - 3..] == ".py"
      ensures files == old(files)[path := contents]
      ensures history == old(history) + [Created(path, contents)]
    {
      ghost var bound := LengthBound(files.Keys);
      var n := 0;
      while ScratchName(n) in files
        invariant n <= bound
        decreases bound - n
      {
        n := n + 1;
      }
      path := ScratchName(n);
      files := files[path := contents];
      history := history + [Created(path, contents)];
    }

    /** `os.remove(path)`. */
    method Remove(path: string)
      modifies this
      requires path in files
      ensures files == old(files) - {path}
      ensures history == old(history) + [Removed(path)]
    {
      files := files - {path};
      history := history + [Removed(path)];
    }
  }

  /** The checks of the handler, in its order, up to the point where the scratch file is created. */
  method CheckRequest(data: Json) returns (a: Admission)
    ensures a == Precheck(data)
  {
    a := ScriptOf(data);
    if a.Refuse? {
      return;
    }
    var script := a.script;
    if !Contains(script, MAIN_MARKER) {
      return Refuse(Rejected(NO_MAIN));
    }
    var verdict := ValidateScript(script);
    if !verdict.Accepted? {
      return Refuse(Rejected(verdict.Message()));
    }
  }

  /** Adding a new key and removing it again gives back the map. */
  lemma AddThenRemove(m: map<string, string>, k: string, v: string)
    requires k !in m
    ensures m[k := v] - {k} == m
  {
  }

  /**
   * The part of the handler after the checks: `contents` goes into a new
   * scratch file, the sandbox runs that file, and the file is removed in
   * `finally`, whatever the run reports.
   */
  method RunAdmitted(
    dir: ScratchDir, contents: string,
    sandbox: string -> SandboxOutcome, loads: string -> Result<Json, string>)
    returns (resp: Response)
    modifies dir
    ensures resp == Classify(sandbox(contents), loads)
    ensures dir.files == old(dir.files)
    ensures var n := |old(dir.history)|;
      |dir.history| == n + 2 && dir.history[..n] == old(dir.history)
      && dir.history[n] == Created(dir.history[n].path, contents)
      && dir.history[n].path !in old(dir.files)
      && dir.history[n + 1] == Removed(dir.history[n].path)
  {
    var path := dir.Create(contents);
    var outcome := sandbox(dir.files[path]);
    resp := Classify(outcome, loads);
    dir.Remove(path);
    AddThenRemove(old(dir.files), path, contents);
  }

  /**
   * The handler. A refused request leaves the scratch directory as it was;
   * an admitted one creates exactly one file holding the wrapped script, runs
   * the sandbox on it and removes it again, whatever the run reports.
   */
  method Execute(
    dir: ScratchDir, data: Json,
    sandbox: string -> SandboxOutcome, loads: string -> Result<Json, string>)
    returns (resp: Response)
    modifies dir
    ensures resp == Handle(data, sandbox, loads)
    ensures dir.files == old(dir.files)
    ensures Precheck(data).Refuse? ==> dir.history == old(dir.history)
    ensures Precheck(data).Admit? ==>
      var n := |old(dir.history)|;
      |dir.history| == n + 2 && dir.history[..n] == old(dir.history)
      && dir.history[n] == Created(dir.history[n].path, Wrap(Precheck(data).script))
      && dir.history[n].path !in old(dir.files)
      && dir.history[n + 1] == Removed(dir.history[n].path)
  {
    var admission := CheckRequest(data);
    if admission.Refuse? {
      return admission.response;
    }
    resp := RunAdmitted(dir, Wrap(admission.script), sandbox, loads);
  }
}
