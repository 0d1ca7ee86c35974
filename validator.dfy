/**
 * The textual script validator: the four import regexes matched by hand at a
 * position, `finditer` as a left-to-right sequence of non-overlapping matches,
 * the dangerous-operation search, and the three ordered check passes.
 *
 * Every greedy run in the import regexes is followed by a character that the
 * run cannot contain, so backtracking never yields a second candidate: the
 * match at a position, when there is one, is a function of the text.
 */
module Validator {
  import opened Wrappers
  import opened Text
  import opened Rules

  /** The four import regexes, in the order they are tried. */
  datatype ImportShape =
    | PlainImport        // (?:^|\n)\s*import\s+(\w+)
    | FromImport         // (?:^|\n)\s*from\s+(\w+)(?:\.\w+)*\s+import\s+(\w+)
    | AliasedImport      // (?:^|\n)\s*import\s+(\w+)\s+as\s+\w+
    | AliasedFromImport  // (?:^|\n)\s*from\s+(\w+)(?:\.\w+)*\s+import\s+\w+\s+as\s+\w+

  const IMPORT_SHAPES: seq<ImportShape> := [PlainImport, FromImport, AliasedImport, AliasedFromImport]

  /** Number of capture groups of each regex. */
  function GroupCount(k: ImportShape): nat {
    if k == FromImport then 2 else 1
  }

  /** One regex match: its extent, group 1 (the module) and group 2 (the imported name), if any. */
  datatype ImportMatch = ImportMatch(start: nat, end: nat, moduleName: string, name: Option<string>)

  /** `(?:^|\n)\s*` at `i`: where the statement after the line break begins. */
  function LineBody(s: string, i: nat): (r: Option<nat>)
    requires i <= |s|
    ensures r.Some? ==> i <= r.value <= |s|
    ensures r.Some? && i > 0 ==> i < |s| && s[i] == '\n'
  {
    if i == 0 then Some(Span(s, 0, Space))
    else if i < |s| && s[i] == '\n' then Some(Span(s, i + 1, Space))
    else None
  }

  /** A literal keyword at `j`; the position after it. */
  function Keyword(s: string, j: nat, kw: string): (r: Option<nat>)
    ensures r.Some? ==> r.value == j + |kw| <= |s| && StartsAt(s, j, kw)
  {
    if StartsAt(s, j, kw) then Some(j + |kw|) else None
  }

  /** `\s+` or `\w+` at `j`: the end of a non-empty greedy run. */
  function Run1(s: string, j: nat, cls: CharClass): (r: Option<nat>)
    requires j <= |s|
    ensures r.Some? ==> j < r.value <= |s| && r.value == Span(s, j, cls)
    ensures r.None? ==> j == |s| || !InClass(s[j], cls)
  {
    var e := Span(s, j, cls);
    if e > j then Some(e) else None
  }

  /** A character of a dotted module path. */
  predicate QualifierChar(c: char) {
    c == '.' || IsWord(c)
  }

  /** `(?:\.\w+)*` at `j`: the end of the greedy run of dotted submodule qualifiers. */
  function DottedTail(s: string, j: nat): (r: nat)
    requires j <= |s|
    ensures j <= r <= |s|
    ensures forall k :: j <= k < r ==> QualifierChar(s[k])
    ensures r == j || IsWord(s[r - 1])
    decreases |s| - j
  {
    if j < |s| && s[j] == '.' && Run1(s, j + 1, Word).Some? then
      var e := Run1(s, j + 1, Word).value;
      assert forall k :: j + 1 <= k < e ==> QualifierChar(s[k]) by {
        forall k | j + 1 <= k < e ensures QualifierChar(s[k]) { assert InClass(s[k], Word); }
      }
      assert InClass(s[e - 1], Word);
      DottedTail(s, e)
    else j
  }

  /** `kw\s+(\w+)` at `b`: the bounds of the group after the keyword. */
  function KeywordHead(s: string, b: nat, kw: string): (r: Option<(nat, nat)>)
    requires b <= |s|
    ensures r.Some? ==> b + |kw| < r.value.0 < r.value.1 <= |s|
  {
    match Keyword(s, b, kw)
    case None => None
    case Some(c) =>
      match Run1(s, c, Space)
      case None => None
      case Some(d) =>
        match Run1(s, d, Word)
        case None => None
        case Some(e) => Some((d, e))
  }

  /** `import\s+(\w+)` at `b`: the bounds of the module group. */
  function ImportHead(s: string, b: nat): (r: Option<(nat, nat)>)
    requires b <= |s|
    ensures r.Some? ==> b + 6 < r.value.0 < r.value.1 <= |s|
  {
    KeywordHead(s, b, "import")
  }

  /** Where the groups of a from-import lie: the module, the `import` keyword and the imported name. */
  datatype FromParts = FromParts(modLo: nat, modHi: nat, importAt: nat, nameLo: nat, nameHi: nat)

  /** `from\s+(\w+)(?:\.\w+)*\s+import\s+(\w+)` at `b`. */
  function FromHead(s: string, b: nat): (r: Option<FromParts>)
    requires b <= |s|
    ensures r.Some? ==> b + 4 < r.value.modLo < r.value.modHi < r.value.importAt
    ensures r.Some? ==> r.value.importAt + 6 < r.value.nameLo < r.value.nameHi <= |s|
  {
    match KeywordHead(s, b, "from")
    case None => None
    case Some(m) =>
      match Run1(s, DottedTail(s, m.1), Space)
      case None => None
      case Some(q) =>
        match ImportHead(s, q)
        case None => None
        case Some(n) => Some(FromParts(m.0, m.1, q, n.0, n.1))
  }

  /** `\s+as\s+\w+` at `e`: the end of the alias clause. */
  function AsAlias(s: string, e: nat): (r: Option<nat>)
    requires e <= |s|
    ensures r.Some? ==> e < r.value <= |s|
  {
    match Run1(s, e, Space)
    case None => None
    case Some(f) =>
      match Keyword(s, f, "as")
      case None => None
      case Some(g) =>
        match Run1(s, g, Space)
        case None => None
        case Some(h) => Run1(s, h, Word)
  }

  /** The match of regex `k` starting exactly at `i`, as `pattern.match(s, i)` would give it. */
  function MatchAt(k: ImportShape, s: string, i: nat): (r: Option<ImportMatch>)
    requires i <= |s|
    ensures r.Some? ==> r.value.start == i < r.value.end <= |s|
    ensures r.Some? ==> (r.value.name.Some? <==> GroupCount(k) == 2)
  {
    var b :- LineBody(s, i);
    match k
    case PlainImport =>
      var g :- ImportHead(s, b);
      Some(ImportMatch(i, g.1, s[g.0..g.1], None))
    case AliasedImport =>
      var g :- ImportHead(s, b);
      var h :- AsAlias(s, g.1);
      Some(ImportMatch(i, h, s[g.0..g.1], None))
    case FromImport =>
      var g :- FromHead(s, b);
      Some(ImportMatch(i, g.nameHi, s[g.modLo..g.modHi], Some(s[g.nameLo..g.nameHi])))
    case AliasedFromImport =>
      var g :- FromHead(s, b);
      var h :- AsAlias(s, g.nameHi);
      Some(ImportMatch(i, h, s[g.modLo..g.modHi], None))
  }

  /**
   * A compiled regex applied to one text of length `n`: the match that starts
   * at each position, if any. `Anchored` says the matches start where they are
   * tried and end after that, inside the text.
   */
  ghost predicate Anchored(at: nat -> Option<ImportMatch>, n: nat) {
    forall j: nat :: j <= n && at(j).Some? ==> at(j).value.start == j < at(j).value.end <= n
  }

  /** Regex `k` applied to `s`. */
  function Regex(k: ImportShape, s: string): nat -> Option<ImportMatch> {
    (j: nat) => if j <= |s| then MatchAt(k, s, j) else None
  }

  /** The matches of a regex start where they are tried and end after that, inside the text. */
  lemma RegexAnchored(k: ImportShape, s: string)
    ensures Anchored(Regex(k, s), |s|)
  {
  }

  /** `pattern.search(s, pos)`: the first position from `pos` on where the regex matches. */
  function FirstMatch(at: nat -> Option<ImportMatch>, n: nat, pos: nat): (r: Option<nat>)
    requires pos <= n
    ensures r.Some? ==> pos <= r.value <= n && at(r.value).Some?
    ensures forall j :: pos <= j <= n && (r.None? || j < r.value) ==> at(j).None?
    decreases n - pos
  {
    if at(pos).Some? then Some(pos)
    else if pos == n then None
    else FirstMatch(at, n, pos + 1)
  }

  /** The search result is determined by the first position at which the regex matches. */
  lemma {:induction false} FirstMatchIs(at: nat -> Option<ImportMatch>, n: nat, pos: nat, i: nat)
    requires pos <= i <= n + 1
    requires forall j :: pos <= j < i ==> at(j).None?
    requires i <= n ==> at(i).Some?
    ensures pos <= n ==> FirstMatch(at, n, pos) == if i <= n then Some(i) else None
    decreases i - pos
  {
    if pos < i && pos < n {
      FirstMatchIs(at, n, pos + 1, i);
    }
  }

  /**
   * `pattern.finditer(s)` from `pos`: each search resumes where the previous
   * match ended, so the matches are non-empty, in order and never overlap.
   */
  function FindAll(at: nat -> Option<ImportMatch>, n: nat, pos: nat): (r: seq<ImportMatch>)
    requires pos <= n && Anchored(at, n)
    ensures forall k :: 0 <= k < |r| ==> pos <= r[k].start < r[k].end <= n
    ensures forall k :: 0 < k < |r| ==> r[k - 1].end <= r[k].start
    decreases n - pos
  {
    match FirstMatch(at, n, pos)
    case None => []
    case Some(j) => var m := at(j).value; [m] + FindAll(at, n, m.end)
  }

  /** Every match reported from `pos` on is the regex's match where it starts. */
  lemma {:induction false} FindAllSound(at: nat -> Option<ImportMatch>, n: nat, pos: nat, m: ImportMatch)
    requires pos <= n && Anchored(at, n) && m in FindAll(at, n, pos)
    ensures pos <= m.start <= n && at(m.start) == Some(m)
    decreases n - pos
  {
    var j := FirstMatch(at, n, pos).value;
    var first := at(j).value;
    assert FindAll(at, n, pos) == [first] + FindAll(at, n, first.end);
    if m != first {
      FindAllSound(at, n, first.end, m);
    }
  }

  /** Every import regex, applied to `s`. */
  function Regexes(s: string): ImportShape -> (nat -> Option<ImportMatch>) {
    k => Regex(k, s)
  }

  /** Every import regex, applied to `s`, is anchored. */
  lemma RegexesAnchored(s: string)
    ensures forall k :: Anchored(Regexes(s)(k), |s|)
  {
    forall k | true
      ensures Anchored(Regexes(s)(k), |s|)
    {
      RegexAnchored(k, s);
    }
  }

  /** The `finditer` matches of regex `k` over the whole of `s`: in order, non-empty and disjoint. */
  function Finditer(k: ImportShape, s: string): (r: seq<ImportMatch>)
    ensures forall j :: 0 <= j < |r| ==> r[j].start < r[j].end <= |s|
    ensures forall j :: 0 < j < |r| ==> r[j - 1].end <= r[j].start
  {
    RegexAnchored(k, s);
    FindAll(Regex(k, s), |s|, 0)
  }

  /** Every match `finditer` reports is the match of the regex where it starts. */
  lemma FinditerMatches(k: ImportShape, s: string, m: ImportMatch)
    requires m in Finditer(k, s)
    ensures m.start <= |s| && MatchAt(k, s, m.start) == Some(m)
  {
    RegexAnchored(k, s);
    FindAllSound(Regex(k, s), |s|, 0, m);
    assert Regex(k, s)(m.start) == Some(m);
  }

  /** The module test of the first pass. */
  predicate BadModule(moduleName: string) {
    moduleName !in ALLOWED_MODULES || moduleName in DANGEROUS_NAMES
  }

  /** The first two passes: module check over every regex, then the name check over the two-group regex. */
  datatype ImportPass = ModuleCheck | NameCheck

  predicate Offends(pass: ImportPass, k: ImportShape, m: ImportMatch) {
    match pass
    case ModuleCheck => BadModule(m.moduleName)
    case NameCheck => GroupCount(k) > 1 && m.name.Some? && m.name.value in DANGEROUS_NAMES
  }

  /** Some `finditer` match of some import regex fails the pass. */
  predicate PassRejects(pass: ImportPass, s: string) {
    RegexesAnchored(s);
    AnyOffender(IMPORT_SHAPES, Regexes(s), |s|, OffenceOf(pass))
  }

  /** The test an import pass applies to a match of a regex. */
  function OffenceOf(pass: ImportPass): (ImportShape, ImportMatch) -> bool {
    (k, m) => Offends(pass, k, m)
  }

  /**
   * Some `finditer` match of some regex of `shapes` (`regex(k)` applied to a
   * text of length `n`) fails the test `bad`.
   */
  predicate AnyOffender(
    shapes: seq<ImportShape>, regex: ImportShape -> (nat -> Option<ImportMatch>), n: nat,
    bad: (ImportShape, ImportMatch) -> bool)
    requires forall k :: Anchored(regex(k), n)
  {
    exists k, m :: k in shapes && m in FindAll(regex(k), n, 0) && bad(k, m)
  }

  /** Dangerous pattern `p` matches at `i`. */
  predicate DangerAt(p: DangerPattern, s: string, i: nat) {
    StartsAt(s, i, p.lit) &&
    match p.tail
    case None => true
    case Some(c) => var j := Span(s, i + |p.lit|, Space); j < |s| && s[j] == c
  }

  /** Some dangerous pattern occurs somewhere in the text. */
  predicate OperationRejects(s: string) {
    AnyDanger(DANGEROUS_PATTERNS, s)
  }

  /** Some pattern of `pats` occurs somewhere in the text. */
  predicate AnyDanger(pats: seq<DangerPattern>, s: string) {
    exists p, i :: p in pats && 0 <= i <= |s| && DangerAt(p, s, i)
  }

  /** The outcome of `validate_script`: it returns, or raises one of two messages. */
  datatype Verdict = Accepted | ImportRejected | OperationRejected {
    function Message(): string
      requires !Accepted?
    {
      if ImportRejected? then "Potentially dangerous import detected"
      else "Potentially dangerous operation detected"
    }
  }

  /**
   * The validator's result, pass by pass: it rejects exactly when an import
   * pass or the operation pass fails, and the import message wins when both do.
   */
  function Validate(s: string): (v: Verdict)
    ensures v != Accepted <==> PassRejects(ModuleCheck, s) || PassRejects(NameCheck, s) || OperationRejects(s)
    ensures v == OperationRejected <==> !PassRejects(ModuleCheck, s) && !PassRejects(NameCheck, s) && OperationRejects(s)
  {
    if PassRejects(ModuleCheck, s) || PassRejects(NameCheck, s) then ImportRejected
    else if OperationRejects(s) then OperationRejected
    else Accepted
  }

  /** Scan forward from `pos` for the next position where the regex matches. */
  method NextMatch(at: nat -> Option<ImportMatch>, n: nat, pos: nat) returns (r: Option<nat>)
    requires pos <= n
    ensures r == FirstMatch(at, n, pos)
  {
    var i := pos;
    while i <= n
      invariant pos <= i <= n + 1
      invariant forall j :: pos <= j < i ==> at(j).None?
      decreases n + 1 - i
    {
      if at(i).Some? {
        FirstMatchIs(at, n, pos, i);
        return Some(i);
      }
      i := i + 1;
    }
    FirstMatchIs(at, n, pos, n + 1);
    return None;
  }

  /** The matches from `pos` are the first one, then those from where it ended. */
  lemma FindAllStep(at: nat -> Option<ImportMatch>, n: nat, pos: nat, j: nat)
    requires pos <= n && Anchored(at, n) && FirstMatch(at, n, pos) == Some(j)
    ensures at(j).Some? && FindAll(at, n, pos) == [at(j).value] + FindAll(at, n, at(j).value.end)
  {
  }

  lemma AppendOne<T>(a: seq<T>, x: T, b: seq<T>)
    ensures a + ([x] + b) == a + [x] + b
  {
  }

  /** Walk the `finditer` matches of a regex, stopping at the first that satisfies `bad`. */
  method ScanMatches(at: nat -> Option<ImportMatch>, n: nat, bad: ImportMatch -> bool) returns (found: bool)
    requires Anchored(at, n)
    ensures found <==> exists m :: m in FindAll(at, n, 0) && bad(m)
  {
    var pos := 0;
    ghost var seen: seq<ImportMatch> := [];
    while true
      invariant pos <= n
      invariant FindAll(at, n, 0) == seen + FindAll(at, n, pos)
      invariant forall m :: m in seen ==> !bad(m)
      decreases n - pos
    {
      var next := NextMatch(at, n, pos);
      if next.None? {
        assert FindAll(at, n, pos) == [];
        return false;
      }
      FindAllStep(at, n, pos, next.value);
      var m := at(next.value).value;
      ghost var rest := FindAll(at, n, m.end);
      if bad(m) {
        assert FindAll(at, n, 0)[|seen|] == m;
        return true;
      }
      AppendOne(seen, m, rest);
      seen := seen + [m];
      pos := m.end;
    }
  }

  /** `pattern.search(s)` for a dangerous pattern. */
  method Search(p: DangerPattern, s: string) returns (found: bool)
    ensures found <==> exists i :: 0 <= i <= |s| && DangerAt(p, s, i)
  {
    var i := 0;
    while i <= |s|
      invariant i <= |s| + 1
      invariant forall j :: 0 <= j < i ==> !DangerAt(p, s, j)
    {
      if DangerAt(p, s, i) {
        return true;
      }
      i := i + 1;
    }
    return false;
  }

  /** One import pass: every regex in order, every `finditer` match in order. */
  method RunImportPass(pass: ImportPass, s: string) returns (found: bool)
    ensures found <==> PassRejects(pass, s)
  {
    RegexesAnchored(s);
    found := ScanShapes(IMPORT_SHAPES, Regexes(s), |s|, OffenceOf(pass));
  }

  /**
   * Each regex of `shapes` in order (`regex(k)` applied to a text of length
   * `n`), stopping at the first with a `finditer` match that fails the test `bad`.
   */
  method ScanShapes(
    shapes: seq<ImportShape>, regex: ImportShape -> (nat -> Option<ImportMatch>), n: nat,
    bad: (ImportShape, ImportMatch) -> bool)
    returns (found: bool)
    requires forall k :: Anchored(regex(k), n)
    ensures found <==> AnyOffender(shapes, regex, n, bad)
  {
    for i := 0 to |shapes|
      invariant forall j, m :: 0 <= j < i && m in FindAll(regex(shapes[j]), n, 0) ==> !bad(shapes[j], m)
    {
      found := ScanMatches(regex(shapes[i]), n, m => bad(shapes[i], m));
      if found {
        return;
      }
    }
    return false;
  }

  /** The operation pass: every dangerous pattern in order, searched anywhere in the text. */
  method RunOperationPass(s: string) returns (found: bool)
    ensures found <==> OperationRejects(s)
  {
    found := SearchPatterns(DANGEROUS_PATTERNS, s);
  }

  /** Each pattern of `pats` in order, stopping at the first that occurs. */
  method SearchPatterns(pats: seq<DangerPattern>, s: string) returns (found: bool)
    ensures found <==> AnyDanger(pats, s)
  {
    for n := 0 to |pats|
      invariant forall p, i :: p in pats[..n] && 0 <= i <= |s| ==> !DangerAt(p, s, i)
    {
      found := Search(pats[n], s);
      if found {
        return;
      }
    }
    assert pats[..|pats|] == pats;
    return false;
  }

  /** `validate_script`: the three passes in source order, stopping at the first violation. */
  method ValidateScript(s: string) returns (v: Verdict)
    ensures v == Validate(s)
  {
    var found := RunImportPass(ModuleCheck, s);
    if found {
      return ImportRejected;
    }
    found := RunImportPass(NameCheck, s);
    if found {
      return ImportRejected;
    }
    found := RunOperationPass(s);
    if found {
      return OperationRejected;
    }
    return Accepted;
  }
}
