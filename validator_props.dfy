/**
 * What the validator's verdict means for the text: which import statements
 * and which operations it is certain to reject, that what it rejects is
 * really there, and the one way `finditer`'s non-overlapping matches can hide
 * a from-import.
 */
module ValidatorProps {
  import opened Wrappers
  import opened Text
  import opened Rules
  import opened Validator

  /** Every position where the regex matches lies inside some match that `finditer` reports. */
  lemma {:induction false} FindAllCovers(at: nat -> Option<ImportMatch>, n: nat, pos: nat, i: nat)
    requires Anchored(at, n) && pos <= i <= n && at(i).Some?
    ensures exists m :: m in FindAll(at, n, pos) && m.start <= i < m.end
    decreases n - pos
  {
    var m := at(FirstMatch(at, n, pos).value).value;
    assert FindAll(at, n, pos) == [m] + FindAll(at, n, m.end);
    if m.end <= i {
      FindAllCovers(at, n, m.end, i);
    }
  }

  /** Every position where regex `k` matches in `s` lies inside some match that `finditer` reports. */
  lemma FinditerCovers(k: ImportShape, s: string, i: nat)
    requires i <= |s| && MatchAt(k, s, i).Some?
    ensures exists m :: m in Finditer(k, s) && m.start <= i < m.end
  {
    assert Regex(k, s)(i) == MatchAt(k, s, i);
    RegexAnchored(k, s);
    FindAllCovers(Regex(k, s), |s|, 0, i);
  }

  /** A line break inside the leading whitespace of a statement starts the same statement. */
  lemma LeadingGap(s: string, a: nat, i: nat)
    requires a < i <= |s| && LineBody(s, a).Some? && i < LineBody(s, a).value
    requires s[i] == '\n'
    ensures LineBody(s, i) == LineBody(s, a)
  {
    SpanIs(s, i + 1, LineBody(s, a).value, Space);
  }

  /** Every character of `w` is a word character. */
  predicate WordLiteral(w: string) {
    forall k :: 0 <= k < |w| ==> IsWord(w[k])
  }

  /** `w` holds no line break. */
  predicate NoBreak(w: string) {
    forall k :: 0 <= k < |w| ==> w[k] != '\n'
  }

  /** Both keywords of the import regexes are words without line breaks. */
  lemma KeywordLiterals()
    ensures WordLiteral("import") && NoBreak("import")
    ensures WordLiteral("from") && NoBreak("from")
    ensures "import"[0] == 'i' && "from"[0] == 'f'
  {
  }

  /** The keyword and the two runs `kw\s+(\w+)` is made of. */
  lemma KeywordHeadRuns(s: string, b: nat, kw: string)
    requires b <= |s| && KeywordHead(s, b, kw).Some?
    ensures var g := KeywordHead(s, b, kw).value;
            Keyword(s, b, kw).Some? && Run1(s, b + |kw|, Space) == Some(g.0) && Run1(s, g.0, Word) == Some(g.1)
  {
  }

  /** The keyword and the two runs determine `kw\s+(\w+)`. */
  lemma KeywordHeadOf(s: string, b: nat, kw: string, g: nat, c: nat, e: nat)
    requires g == b + |kw| && g <= |s| && Keyword(s, b, kw).Some?
    requires Run1(s, g, Space) == Some(c) && c <= |s| && Run1(s, c, Word) == Some(e)
    ensures KeywordHead(s, b, kw) == Some((c, e))
  {
  }

  /** A line start followed by `import`, a `\s+` run and a `\w+` run is a plain-import match. */
  lemma PlainMatchOf(s: string, i: nat, b: nat, c: nat, e: nat)
    requires i <= |s| && LineBody(s, i) == Some(b) && b + 6 <= |s| && Keyword(s, b, "import").Some?
    requires Run1(s, b + 6, Space) == Some(c) && c <= |s| && Run1(s, c, Word) == Some(e)
    ensures c <= e <= |s| && MatchAt(PlainImport, s, i) == Some(ImportMatch(i, e, s[c..e], None))
  {
    KeywordLiterals();
    KeywordHeadOf(s, b, "import", b + 6, c, e);
  }

  /**
   * A line start followed by `from`, a `\s+` run, a `\w+` run, a `\s+` run (with
   * no dotted tail), `import`, a `\s+` run and a `\w+` run is a from-import match.
   */
  lemma FromMatchOf(s: string, i: nat, b: nat, g: nat, c: nat, e: nat, q: nat, g2: nat, c2: nat, e2: nat)
    requires i <= |s| && LineBody(s, i) == Some(b) && g == b + 4 && g <= |s| && Keyword(s, b, "from").Some?
    requires Run1(s, g, Space) == Some(c) && c <= |s| && Run1(s, c, Word) == Some(e)
    requires e <= |s| && DottedTail(s, e) == e && Run1(s, e, Space) == Some(q)
    requires q <= |s| && g2 == q + 6 && g2 <= |s| && Keyword(s, q, "import").Some?
    requires Run1(s, g2, Space) == Some(c2) && c2 <= |s| && Run1(s, c2, Word) == Some(e2)
    ensures c <= e <= |s| && c2 <= e2 <= |s|
    ensures MatchAt(FromImport, s, i) == Some(ImportMatch(i, e2, s[c..e], Some(s[c2..e2])))
  {
    KeywordLiterals();
    KeywordHeadOf(s, b, "from", g, c, e);
    KeywordHeadOf(s, q, "import", g2, c2, e2);
  }

  /**
   * The aliased regexes match only where their plain counterparts match, and
   * capture the same module there.
   */
  lemma AliasedWithinPlain(s: string, i: nat)
    requires i <= |s|
    ensures MatchAt(AliasedImport, s, i).Some? ==>
      MatchAt(PlainImport, s, i).Some? && MatchAt(PlainImport, s, i).value.moduleName == MatchAt(AliasedImport, s, i).value.moduleName
    ensures MatchAt(AliasedFromImport, s, i).Some? ==>
      MatchAt(FromImport, s, i).Some? && MatchAt(FromImport, s, i).value.moduleName == MatchAt(AliasedFromImport, s, i).value.moduleName
  {
  }

  /** The keyword-led pieces a from-import is made of. */
  lemma FromHeadParts(s: string, b: nat)
    requires b <= |s| && FromHead(s, b).Some?
    ensures var g := FromHead(s, b).value;
            KeywordHead(s, b, "from") == Some((g.modLo, g.modHi)) &&
            Run1(s, DottedTail(s, g.modHi), Space) == Some(g.importAt) &&
            KeywordHead(s, g.importAt, "import") == Some((g.nameLo, g.nameHi))
  {
  }

  /**
   * A line break inside `kw\s+(\w+)` can only sit in the whitespace after the
   * keyword, so the statement restarted there begins at the group.
   */
  lemma KeywordHeadGap(s: string, b: nat, kw: string, i: nat)
    requires b <= i < |s| && s[i] == '\n' && NoBreak(kw)
    requires KeywordHead(s, b, kw).Some? && i < KeywordHead(s, b, kw).value.1
    ensures Span(s, i + 1, Space) == KeywordHead(s, b, kw).value.0
  {
    var g := KeywordHead(s, b, kw).value;
    KeywordHeadRuns(s, b, kw);
    KeywordCharAt(s, b, kw, i);
    assert i >= b + |kw|;
    assert !InClass(s[i], Word);
    SpanIs(s, i + 1, g.0, Space);
  }

  /** The characters of a keyword found at `b`. */
  lemma KeywordCharAt(s: string, b: nat, kw: string, i: nat)
    ensures StartsAt(s, b, kw) && b <= i < b + |kw| ==> s[i] == kw[i - b]
  {
    if StartsAt(s, b, kw) && b <= i < b + |kw| {
      assert s[b..b + |kw|][i - b] == s[i];
    }
  }

  /** A word run that starts with the word `w` followed by whitespace is exactly `w`. */
  lemma KeywordWord(s: string, j: nat, w: string)
    requires j <= |s| && KeywordHead(s, j, w).Some? && WordLiteral(w)
    ensures Span(s, j, Word) == j + |w| && s[j..j + |w|] == w
  {
    KeywordHeadRuns(s, j, w);
    assert AllIn(s, j, j + |w|, Word) by {
      forall k | j <= k < j + |w| ensures InClass(s[k], Word) { assert s[k] == s[j..j + |w|][k - j] == w[k - j]; }
    }
    SpanIs(s, j, j + |w|, Word);
  }

  /** A `w\s+(\w+)` restarted at the group of a `kw\s+(\w+)` makes that group the word `w`. */
  lemma RestartAtGroup(s: string, b: nat, kw: string, w: string)
    requires b <= |s| && KeywordHead(s, b, kw).Some? && WordLiteral(w)
    requires KeywordHead(s, KeywordHead(s, b, kw).value.0, w).Some?
    ensures var g := KeywordHead(s, b, kw).value; s[g.0..g.1] == w
  {
    var g := KeywordHead(s, b, kw).value;
    KeywordHeadRuns(s, b, kw);
    KeywordWord(s, g.0, w);
  }

  /** Where the `import` keyword stands, no from-import starts. */
  lemma NoFromAtKeyword(s: string, q: nat)
    requires q <= |s| && Keyword(s, q, "import").Some?
    ensures FromHead(s, q).None?
  {
    KeywordLiterals();
    KeywordsExclusive(s, q, "import", "from");
  }

  /** Two keywords that differ in their first letter never stand at the same place. */
  lemma KeywordsExclusive(s: string, q: nat, kw: string, other: string)
    requires Keyword(s, q, kw).Some? && |kw| > 0 && |other| > 0 && kw[0] != other[0]
    ensures Keyword(s, q, other).None?
  {
    assert s[q] == s[q..q + |kw|][0];
  }

  /**
   * A line break inside the from-import regex past its leading keyword sits in
   * the whitespace after `from`, before `import` or after `import`, so the
   * statement restarted there begins at the module, at `import` or at the
   * imported name.
   */
  lemma FromHeadGap(s: string, b: nat, i: nat)
    requires b <= i < |s| && s[i] == '\n'
    requires FromHead(s, b).Some? && i < FromHead(s, b).value.nameHi
    ensures var g := FromHead(s, b).value;
            var bi := Span(s, i + 1, Space);
            bi == g.modLo || bi == g.importAt || bi == g.nameLo
  {
    var g := FromHead(s, b).value;
    FromHeadParts(s, b);
    KeywordLiterals();
    if i < g.modHi {
      KeywordHeadGap(s, b, "from", i);
    } else if i < g.importAt {
      var p := DottedTail(s, g.modHi);
      assert !QualifierChar(s[i]);
      assert p <= i;
      SpanIs(s, i + 1, g.importAt, Space);
    } else {
      KeywordHeadGap(s, g.importAt, "import", i);
    }
  }

  /** No from-import starts where the `import` keyword of another one stands. */
  lemma NoFromAtImport(s: string, b: nat)
    requires b <= |s| && FromHead(s, b).Some?
    ensures FromHead(s, FromHead(s, b).value.importAt).None?
  {
    FromHeadParts(s, b);
    KeywordHeadRuns(s, FromHead(s, b).value.importAt, "import");
    NoFromAtKeyword(s, FromHead(s, b).value.importAt);
  }

  /** A from-import restarted at the module group makes that module the word `from`. */
  lemma FromAtModule(s: string, b: nat)
    requires b <= |s| && FromHead(s, b).Some?
    requires FromHead(s, FromHead(s, b).value.modLo).Some?
    ensures var g := FromHead(s, b).value; s[g.modLo..g.modHi] == "from"
  {
    FromHeadParts(s, b);
    FromHeadParts(s, FromHead(s, b).value.modLo);
    KeywordLiterals();
    RestartAtGroup(s, b, "from", "from");
  }

  /** A from-import restarted at the imported name makes that name the word `from`. */
  lemma FromAtName(s: string, b: nat)
    requires b <= |s| && FromHead(s, b).Some?
    requires FromHead(s, FromHead(s, b).value.nameLo).Some?
    ensures var g := FromHead(s, b).value; s[g.nameLo..g.nameHi] == "from"
  {
    FromHeadParts(s, b);
    FromHeadParts(s, FromHead(s, b).value.nameLo);
    KeywordLiterals();
    RestartAtGroup(s, FromHead(s, b).value.importAt, "import", "from");
  }

  /**
   * A plain import matching at a line break inside an earlier plain-import
   * match names the same module, or the earlier match's module is the word
   * `import` itself.
   */
  lemma NestedPlainImport(s: string, a: nat, i: nat)
    requires a < i <= |s|
    requires MatchAt(PlainImport, s, a).Some? && MatchAt(PlainImport, s, i).Some?
    requires i < MatchAt(PlainImport, s, a).value.end
    ensures var outer := MatchAt(PlainImport, s, a).value;
            outer.moduleName == MatchAt(PlainImport, s, i).value.moduleName || outer.moduleName == "import"
  {
    var b := LineBody(s, a).value;
    if i < b {
      LeadingGap(s, a, i);
    } else {
      KeywordLiterals();
      KeywordHeadGap(s, b, "import", i);
      RestartAtGroup(s, b, "import", "import");
    }
  }

  /**
   * A from-import matching at a line break inside an earlier from-import
   * match has the same groups, or the earlier match's module or imported name
   * is the word `from`.
   */
  lemma NestedFromImport(s: string, a: nat, i: nat)
    requires a < i <= |s|
    requires MatchAt(FromImport, s, a).Some? && MatchAt(FromImport, s, i).Some?
    requires i < MatchAt(FromImport, s, a).value.end
    ensures var outer, inner := MatchAt(FromImport, s, a).value, MatchAt(FromImport, s, i).value;
            (outer.moduleName == inner.moduleName && outer.name == inner.name) ||
            outer.moduleName == "from" || outer.name == Some("from")
  {
    var b := LineBody(s, a).value;
    if i < b {
      LeadingGap(s, a, i);
    } else {
      FromHeadGap(s, b, i);
      var g := FromHead(s, b).value;
      var bi := Span(s, i + 1, Space);
      assert LineBody(s, i) == Some(bi);
      NoFromAtImport(s, b);
      if bi == g.modLo {
        FromAtModule(s, b);
      } else {
        FromAtName(s, b);
      }
    }
  }

  /** The two keywords a restarted match can capture are not allowed modules. */
  lemma KeywordsRejected()
    ensures BadModule("import") && BadModule("from")
  {
  }

  /** Because the allow-list and the dangerous names are disjoint, the module test is just "not allowed". */
  lemma ModuleTestIsAllowList(moduleName: string)
    ensures BadModule(moduleName) <==> moduleName !in ALLOWED_MODULES
  {
    TablesDisjoint();
  }

  /** A `finditer` match that fails an import pass makes the validator report an import. */
  lemma OffenderRejected(pass: ImportPass, k: ImportShape, s: string, m: ImportMatch)
    requires k in IMPORT_SHAPES && m in Finditer(k, s) && Offends(pass, k, m)
    ensures Validate(s) == ImportRejected
  {
    RegexesAnchored(s);
    assert Regexes(s)(k) == Regex(k, s);
    assert m in FindAll(Regexes(s)(k), |s|, 0);
    assert OffenceOf(pass)(k, m);
    assert AnyOffender(IMPORT_SHAPES, Regexes(s), |s|, OffenceOf(pass));
  }

  /**
   * The validator accepts a text exactly when no `finditer` match of any
   * import regex fails either import pass and no dangerous pattern occurs
   * anywhere in it.
   */
  lemma CleanText(s: string)
    ensures Validate(s) == Accepted <==>
      (forall k, m :: k in IMPORT_SHAPES && m in Finditer(k, s) ==>
        !Offends(ModuleCheck, k, m) && !Offends(NameCheck, k, m))
      && (forall p, i :: p in DANGEROUS_PATTERNS && 0 <= i <= |s| ==> !DangerAt(p, s, i))
  {
    forall k | true
      ensures Finditer(k, s) == FindAll(Regexes(s)(k), |s|, 0)
    {
      assert Regexes(s)(k) == Regex(k, s);
    }
  }

  /** Any plain import at a line start whose module is rejected makes the validator report an import. */
  lemma PlainImportCaught(s: string, i: nat)
    requires i <= |s| && MatchAt(PlainImport, s, i).Some?
    requires BadModule(MatchAt(PlainImport, s, i).value.moduleName)
    ensures Validate(s) == ImportRejected
  {
    FinditerCovers(PlainImport, s, i);
    var m :| m in Finditer(PlainImport, s) && m.start <= i < m.end;
    FinditerMatches(PlainImport, s, m);
    var inner := MatchAt(PlainImport, s, i).value;
    if m.start < i {
      NestedPlainImport(s, m.start, i);
      KeywordsRejected();
      assert m.moduleName == inner.moduleName || m.moduleName == "import";
    } else {
      assert m == inner;
    }
    assert Offends(ModuleCheck, PlainImport, m);
    OffenderRejected(ModuleCheck, PlainImport, s, m);
  }

  /** No from-import in the text imports a name spelled `from` (a keyword, so never valid Python). */
  ghost predicate NoImportedFrom(s: string) {
    forall j :: 0 <= j <= |s| && MatchAt(FromImport, s, j).Some? ==> MatchAt(FromImport, s, j).value.name != Some("from")
  }

  /** No occurrence of `kw` in the text is followed, after whitespace, by `w`. */
  ghost predicate NeverFollowedBy(s: string, kw: string, w: string) {
    forall q: nat :: q + |kw| <= |s| && StartsAt(s, q, kw) ==> !StartsAt(s, Span(s, q + |kw|, Space), w)
  }

  /** No `import` keyword in the text is followed, after whitespace, by the letters `from`. */
  ghost predicate NoImportThenFrom(s: string) {
    NeverFollowedBy(s, "import", "from")
  }

  /** `NeverFollowedBy` at one occurrence of `kw`. */
  lemma NotFollowedAt(s: string, kw: string, w: string, q: nat, n: nat)
    requires NeverFollowedBy(s, kw, w) && q + |kw| <= |s| && StartsAt(s, q, kw) && n == Span(s, q + |kw|, Space)
    ensures !StartsAt(s, n, w)
  {
  }

  /** In such a text the name a from-import captures is never the word `from`. */
  lemma FromNameNotFrom(s: string, b: nat)
    requires b <= |s| && FromHead(s, b).Some? && NoImportThenFrom(s)
    ensures var g := FromHead(s, b).value; s[g.nameLo..g.nameHi] != "from"
  {
    var g := FromHead(s, b).value;
    var q := g.importAt;
    FromHeadParts(s, b);
    KeywordHeadRuns(s, q, "import");
    NotFollowedAt(s, "import", "from", q, g.nameLo);
  }

  /** A text where `import` is never followed by whitespace and `from` has no from-import that imports `from`. */
  lemma NoImportedFromOf(s: string)
    requires NoImportThenFrom(s)
    ensures NoImportedFrom(s)
  {
    forall j | 0 <= j <= |s| && MatchAt(FromImport, s, j).Some?
      ensures MatchAt(FromImport, s, j).value.name != Some("from")
    {
      var b := LineBody(s, j).value;
      FromNameNotFrom(s, b);
    }
  }

  /** A from-import match encloses another only by sharing its groups, or by importing from `from`. */
  lemma EnclosingFrom(s: string, a: nat, i: nat)
    requires a <= i <= |s|
    requires MatchAt(FromImport, s, a).Some? && MatchAt(FromImport, s, i).Some?
    requires i < MatchAt(FromImport, s, a).value.end
    requires MatchAt(FromImport, s, a).value.name != Some("from")
    ensures var outer, inner := MatchAt(FromImport, s, a).value, MatchAt(FromImport, s, i).value;
            (outer.moduleName == inner.moduleName && outer.name == inner.name) || outer.moduleName == "from"
  {
    if a < i {
      NestedFromImport(s, a, i);
    }
  }

  /** The offence of `inner` carries over to `outer` when they share their groups or `outer` imports from `from`. */
  lemma OffenceCarries(outer: ImportMatch, inner: ImportMatch)
    requires (outer.moduleName == inner.moduleName && outer.name == inner.name) || outer.moduleName == "from"
    requires Offends(ModuleCheck, FromImport, inner) || Offends(NameCheck, FromImport, inner)
    ensures Offends(ModuleCheck, FromImport, outer) || Offends(NameCheck, FromImport, outer)
  {
    KeywordsRejected();
  }

  /**
   * Any from-import at a line start whose module is rejected or whose
   * imported name is dangerous makes the validator report an import, provided
   * no from-import in the text imports the keyword `from`.
   */
  lemma FromImportCaught(s: string, i: nat)
    requires i <= |s| && MatchAt(FromImport, s, i).Some?
    requires var m := MatchAt(FromImport, s, i).value;
             BadModule(m.moduleName) || m.name.value in DANGEROUS_NAMES
    requires NoImportedFrom(s)
    ensures Validate(s) == ImportRejected
  {
    FinditerCovers(FromImport, s, i);
    var m :| m in Finditer(FromImport, s) && m.start <= i < m.end;
    FinditerMatches(FromImport, s, m);
    EnclosingFrom(s, m.start, i);
    OffenceCarries(m, MatchAt(FromImport, s, i).value);
    if Offends(ModuleCheck, FromImport, m) {
      OffenderRejected(ModuleCheck, FromImport, s, m);
    } else {
      OffenderRejected(NameCheck, FromImport, s, m);
    }
  }
}
