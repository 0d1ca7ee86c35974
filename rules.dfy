/**
 * The validator's fixed rule tables: the module allow-list, the dangerous
 * bare names and the dangerous operation patterns, in source order.
 */
module Rules {
  import opened Wrappers

  /** Modules a script may import (by first path segment). */
  const ALLOWED_MODULES: set<string> := {
    "os", "pandas", "numpy", "json", "sys", "math", "random",
    "datetime", "collections", "itertools", "functools", "time"
  }

  /** Names that may neither be imported as a module nor imported from one. */
  const DANGEROUS_NAMES: set<string> := {"system", "popen", "spawn", "fork", "kill", "exec", "eval"}

  /**
   * A dangerous-operation pattern: the literal `lit`, followed, when `tail` is
   * present, by `\s*` and then that one punctuation character.
   */
  datatype DangerPattern = DangerPattern(lit: string, tail: Option<char>)

  /** `lit\s*\(` */
  function Call(lit: string): DangerPattern { DangerPattern(lit, Some('(')) }

  const DANGEROUS_PATTERNS: seq<DangerPattern> := [
    Call("__import__"),
    Call("eval"),
    Call("exec"),
    Call("os.system"),
    DangerPattern("subprocess", Some('.')),
    Call("open"),
    Call("file"),
    DangerPattern(".__dict__", None),
    DangerPattern(".__class__", None),
    DangerPattern(".__bases__", None),
    DangerPattern(".__subclasses__", None),
    DangerPattern(".__globals__", None),
    DangerPattern(".__builtins__", None),
    Call(".connect"),
    Call(".bind"),
    Call(".listen"),
    Call(".accept"),
    Call(".send"),
    Call(".recv"),
    Call(".sendto"),
    Call(".recvfrom"),
    Call(".getaddrinfo"),
    Call(".gethostbyname"),
    Call(".gethostbyaddr"),
    Call(".getservbyname"),
    Call(".getservbyport"),
    Call(".socket")
  ]

  /** No allowed module is a dangerous name. */
  lemma TablesDisjoint()
    ensures ALLOWED_MODULES * DANGEROUS_NAMES == {}
  {
  }

  /** Every pattern's trailing character is `(` or `.`, never whitespace. */
  lemma PatternTails(p: DangerPattern)
    requires p in DANGEROUS_PATTERNS
    ensures p.tail == None || p.tail == Some('(') || p.tail == Some('.')
  {
  }
}
