/**
 * The validator on statements written out piece by piece: an import of a
 * module that is not allowed, and a dangerous operation anywhere in the text.
 */
module ValidatorShapes {
  import opened Wrappers
  import opened Text
  import opened Rules
  import opened Validator
  import opened ValidatorProps

  /** Reading the piece `w` where the rest of `s` from `p` on is `w + rest`. */
  lemma Advance(s: string, p: nat, w: string, rest: string)
    requires p <= |s| && s[p..] == w + rest
    ensures p + |w| <= |s| && s[p + |w|..] == rest && s[p..p + |w|] == w
    ensures |rest| > 0 ==> s[p + |w|] == rest[0]
  {
    assert s[p..][..|w|] == w;
    assert s[p..][|w|..] == rest;
    if |rest| > 0 {
      assert s[p + |w|] == s[p..][|w|];
    }
  }

  /** Every character of the piece `w` that the rest of `s` from `p` on starts with. */
  lemma AdvanceChars(s: string, p: nat, w: string, rest: string)
    requires p <= |s| && s[p..] == w + rest
    ensures p + |w| <= |s| && forall k :: p <= k < p + |w| ==> s[k] == w[k - p]
  {
    forall k | p <= k < p + |w| ensures s[k] == w[k - p] { assert s[k] == s[p..][k - p]; }
  }

  /** A word character is never whitespace. */
  lemma WordNotSpace(c: char)
    requires IsWord(c)
    ensures !IsSpace(c)
  {
  }

  /** A whitespace piece followed by a non-space is the greedy `\s*` run. */
  lemma SpaceSpan(s: string, p: nat, w: string, rest: string)
    requires p <= |s| && s[p..] == w + rest
    requires AllSpace(w) && (rest == [] || !IsSpace(rest[0]))
    ensures Span(s, p, Space) == p + |w|
  {
    Advance(s, p, w, rest);
    AdvanceChars(s, p, w, rest);
    assert AllIn(s, p, p + |w|, Space) by {
      forall k | p <= k < p + |w| ensures InClass(s[k], Space) { assert s[k] == w[k - p]; }
    }
    SpanIs(s, p, p + |w|, Space);
  }

  /** A word piece followed by a non-word character is the greedy `\w+` run. */
  lemma WordRun(s: string, p: nat, w: string, rest: string)
    requires p <= |s| && s[p..] == w + rest
    requires |w| > 0 && WordLiteral(w) && (rest == [] || !IsWord(rest[0]))
    ensures Run1(s, p, Word) == Some(p + |w|)
  {
    Advance(s, p, w, rest);
    AdvanceChars(s, p, w, rest);
    assert AllIn(s, p, p + |w|, Word) by {
      forall k | p <= k < p + |w| ensures InClass(s[k], Word) { assert s[k] == w[k - p]; }
    }
    SpanIs(s, p, p + |w|, Word);
  }

  /** A non-empty whitespace piece followed by a word character is the greedy `\s+` run. */
  lemma GapRun(s: string, p: nat, w: string, rest: string)
    requires p <= |s| && s[p..] == w + rest
    requires |w| > 0 && AllSpace(w) && |rest| > 0 && IsWord(rest[0])
    ensures Run1(s, p, Space) == Some(p + |w|)
  {
    WordNotSpace(rest[0]);
    SpaceSpan(s, p, w, rest);
  }

  /** Where the statement body begins when `s[p..]` is the leading whitespace `lead` and `rest`, at a line start. */
  lemma LineStart(s: string, p: nat, lead: string, rest: string, i: nat, b: nat)
    requires p <= |s| && s[p..] == lead + rest && b == p + |lead|
    requires i == (if p == 0 then 0 else p - 1) && (p == 0 || s[p - 1] == '\n')
    requires AllSpace(lead) && |rest| > 0 && IsWord(rest[0])
    ensures i <= |s| && LineBody(s, i) == Some(b)
    ensures b <= |s| && s[b..] == rest
  {
    WordNotSpace(rest[0]);
    SpaceSpan(s, p, lead, rest);
    Advance(s, p, lead, rest);
  }

  /** `kw gap` and what follows, read from `b`: the keyword ending at `g` and the `\s+` run after it ending at `c`. */
  lemma KeywordGap(s: string, b: nat, kw: string, gap: string, rest: string, g: nat, c: nat)
    requires b <= |s| && s[b..] == kw + (gap + rest) && g == b + |kw| && c == g + |gap|
    requires |gap| > 0 && AllSpace(gap) && |rest| > 0 && IsWord(rest[0])
    ensures c <= |s| && s[c..] == rest && Keyword(s, b, kw).Some? && Run1(s, g, Space) == Some(c)
  {
    Advance(s, b, kw, gap + rest);
    GapRun(s, g, gap, rest);
    Advance(s, g, gap, rest);
  }

  /** A word piece and what follows, read from `c`: the `\w+` run, ending at `e`. */
  lemma WordPiece(s: string, c: nat, word: string, post: string, e: nat)
    requires c <= |s| && s[c..] == word + post && e == c + |word|
    requires |word| > 0 && WordLiteral(word) && (post == [] || !IsWord(post[0]))
    ensures e <= |s| && s[e..] == post && s[c..e] == word
    ensures Run1(s, c, Word) == Some(e)
  {
    WordRun(s, c, word, post);
    Advance(s, c, word, post);
  }

  /** `kw gap word` and what follows, read from `b`: the keyword ending at `g`, then the two runs ending at `c` and `e`. */
  lemma KeywordPieces(s: string, b: nat, kw: string, gap: string, word: string, post: string, g: nat, c: nat, e: nat)
    requires b <= |s| && s[b..] == kw + (gap + (word + post))
    requires g == b + |kw| && c == g + |gap| && e == c + |word|
    requires |gap| > 0 && AllSpace(gap) && |word| > 0 && WordLiteral(word)
    requires post == [] || !IsWord(post[0])
    ensures e <= |s| && Keyword(s, b, kw).Some?
    ensures Run1(s, g, Space) == Some(c)
    ensures Run1(s, c, Word) == Some(e)
    ensures s[c..e] == word && s[e..] == post
  {
    assert (word + post)[0] == word[0];
    KeywordGap(s, b, kw, gap, word + post, g, c);
    WordPiece(s, c, word, post, e);
  }

  /**
   * A keyword at a line start `p` (the regex tried at `i`), whitespace and a word: the line body starts
   * at `b`, the keyword ends at `g`, and the two runs after it end at `c` and `e`.
   */
  lemma KeywordAtLineStart(
    s: string, p: nat, lead: string, kw: string, gap: string, word: string, post: string,
    i: nat, b: nat, g: nat, c: nat, e: nat)
    requires p <= |s| && s[p..] == lead + (kw + (gap + (word + post)))
    requires i == (if p == 0 then 0 else p - 1) && (p == 0 || s[p - 1] == '\n')
    requires b == p + |lead| && g == b + |kw| && c == g + |gap| && e == c + |word|
    requires AllSpace(lead) && |kw| > 0 && IsWord(kw[0]) && |gap| > 0 && AllSpace(gap)
    requires |word| > 0 && WordLiteral(word) && (post == [] || !IsWord(post[0]))
    ensures i <= |s| && LineBody(s, i) == Some(b)
    ensures e <= |s| && Keyword(s, b, kw).Some?
    ensures Run1(s, g, Space) == Some(c)
    ensures Run1(s, c, Word) == Some(e)
    ensures s[c..e] == word && s[e..] == post
  {
    var rest := kw + (gap + (word + post));
    assert rest[0] == kw[0];
    LineStart(s, p, lead, rest, i, b);
    KeywordPieces(s, b, kw, gap, word, post, g, c, e);
  }

  /** `import` at a line start, whitespace and a word: the plain-import regex matches there, capturing the word. */
  lemma PlainStatement(s: string, pre: string, lead: string, gap: string, moduleName: string, post: string)
    requires s == pre + (lead + ("import" + (gap + (moduleName + post))))
    requires pre == [] || pre[|pre| - 1] == '\n'
    requires AllSpace(lead) && |gap| > 0 && AllSpace(gap)
    requires |moduleName| > 0 && WordLiteral(moduleName) && (post == [] || !IsWord(post[0]))
    ensures var i := if pre == [] then 0 else |pre| - 1;
            MatchAt(PlainImport, s, i).Some? && MatchAt(PlainImport, s, i).value.moduleName == moduleName
  {
    var i := if pre == [] then 0 else |pre| - 1;
    var b := |pre| + |lead|;
    var g := b + 6;
    var c := g + |gap|;
    var e := c + |moduleName|;
    KeywordLiterals();
    assert s[|pre|..] == lead + ("import" + (gap + (moduleName + post)));
    if pre != [] {
      assert s[|pre| - 1] == pre[|pre| - 1];
    }
    KeywordAtLineStart(s, |pre|, lead, "import", gap, moduleName, post, i, b, g, c, e);
    PlainMatchOf(s, i, b, c, e);
  }

  /** `import` at a line start, whitespace, and a module that is not on the allow-list: the validator reports an import. */
  lemma ImportOfUnlistedModule(pre: string, lead: string, gap: string, moduleName: string, post: string)
    requires pre == [] || pre[|pre| - 1] == '\n'
    requires AllSpace(lead) && |gap| > 0 && AllSpace(gap)
    requires |moduleName| > 0 && WordLiteral(moduleName) && (post == [] || !IsWord(post[0]))
    requires moduleName !in ALLOWED_MODULES
    ensures Validate(pre + (lead + ("import" + (gap + (moduleName + post))))) == ImportRejected
  {
    var s := pre + (lead + ("import" + (gap + (moduleName + post))));
    PlainStatement(s, pre, lead, gap, moduleName, post);
    ModuleTestIsAllowList(moduleName);
    PlainImportCaught(s, if pre == [] then 0 else |pre| - 1);
  }

  /**
   * After the module of a from-import, read from `e`: whitespace (so no dotted
   * tail), `import` ending at `g2`, whitespace ending at `c2` and the name ending at `e2`.
   */
  lemma ImportClause(s: string, e: nat, gap: string, gap2: string, name: string, post: string, q: nat, g2: nat, c2: nat, e2: nat)
    requires e <= |s| && s[e..] == gap + ("import" + (gap2 + (name + post)))
    requires q == e + |gap| && g2 == q + 6 && c2 == g2 + |gap2| && e2 == c2 + |name|
    requires |gap| > 0 && AllSpace(gap) && |gap2| > 0 && AllSpace(gap2)
    requires |name| > 0 && WordLiteral(name) && (post == [] || !IsWord(post[0]))
    ensures e2 <= |s| && DottedTail(s, e) == e && Run1(s, e, Space) == Some(q)
    ensures Keyword(s, q, "import").Some? && Run1(s, g2, Space) == Some(c2) && Run1(s, c2, Word) == Some(e2)
    ensures s[c2..e2] == name
  {
    var rest := "import" + (gap2 + (name + post));
    KeywordLiterals();
    assert rest[0] == 'i';
    assert s[e] == gap[0];
    GapRun(s, e, gap, rest);
    Advance(s, e, gap, rest);
    KeywordPieces(s, q, "import", gap2, name, post, g2, c2, e2);
  }

  /**
   * `from`, whitespace, a module word, whitespace, `import`, whitespace and a
   * name word at a line start match the from-import regex with that module and name.
   */
  lemma FromStatement(
    s: string, pre: string, lead: string, gap: string, moduleName: string,
    gap2: string, gap3: string, name: string, post: string)
    requires s == pre + (lead + ("from" + (gap + (moduleName + (gap2 + ("import" + (gap3 + (name + post))))))))
    requires pre == [] || pre[|pre| - 1] == '\n'
    requires AllSpace(lead) && |gap| > 0 && AllSpace(gap) && |gap2| > 0 && AllSpace(gap2) && |gap3| > 0 && AllSpace(gap3)
    requires |moduleName| > 0 && WordLiteral(moduleName) && |name| > 0 && WordLiteral(name)
    requires post == [] || !IsWord(post[0])
    ensures var m := MatchAt(FromImport, s, if pre == [] then 0 else |pre| - 1);
            m.Some? && m.value.moduleName == moduleName && m.value.name == Some(name)
  {
    var i := if pre == [] then 0 else |pre| - 1;
    var b := |pre| + |lead|;
    var g := b + 4;
    var c := g + |gap|;
    var e := c + |moduleName|;
    var q := e + |gap2|;
    var g2 := q + 6;
    var c2 := g2 + |gap3|;
    var e2 := c2 + |name|;
    var tail := gap2 + ("import" + (gap3 + (name + post)));
    KeywordLiterals();
    assert s[|pre|..] == lead + ("from" + (gap + (moduleName + tail)));
    if pre != [] {
      assert s[|pre| - 1] == pre[|pre| - 1];
    }
    assert tail[0] == gap2[0];
    KeywordAtLineStart(s, |pre|, lead, "from", gap, moduleName, tail, i, b, g, c, e);
    ImportClause(s, e, gap2, gap3, name, post, q, g2, c2, e2);
    FromMatchOf(s, i, b, g, c, e, q, g2, c2, e2);
  }

  /**
   * `from m import n` at a line start, with `m` not on the allow-list or `n` a
   * dangerous name, makes the validator report an import, provided no `import`
   * in the text is followed, after whitespace, by the letters `from`.
   */
  lemma FromImportOfDangerousName(
    pre: string, lead: string, gap: string, moduleName: string,
    gap2: string, gap3: string, name: string, post: string)
    requires pre == [] || pre[|pre| - 1] == '\n'
    requires AllSpace(lead) && |gap| > 0 && AllSpace(gap) && |gap2| > 0 && AllSpace(gap2) && |gap3| > 0 && AllSpace(gap3)
    requires |moduleName| > 0 && WordLiteral(moduleName) && |name| > 0 && WordLiteral(name)
    requires post == [] || !IsWord(post[0])
    requires moduleName !in ALLOWED_MODULES || name in DANGEROUS_NAMES
    requires NoImportThenFrom(pre + (lead + ("from" + (gap + (moduleName + (gap2 + ("import" + (gap3 + (name + post)))))))))
    ensures Validate(pre + (lead + ("from" + (gap + (moduleName + (gap2 + ("import" + (gap3 + (name + post))))))))) == ImportRejected
  {
    var s := pre + (lead + ("from" + (gap + (moduleName + (gap2 + ("import" + (gap3 + (name + post))))))));
    FromStatement(s, pre, lead, gap, moduleName, gap2, gap3, name, post);
    ModuleTestIsAllowList(moduleName);
    NoImportedFromOf(s);
    FromImportCaught(s, if pre == [] then 0 else |pre| - 1);
  }

  /** The text a dangerous pattern needs after its literal: whitespace and the closing character, if it has one. */
  function PatternTail(p: DangerPattern, gap: string): string {
    match p.tail
    case None => []
    case Some(c) => gap + [c]
  }

  /** A pattern whose closing character is not whitespace, written out at `i`, matches there. */
  lemma DangerWritten(s: string, i: nat, p: DangerPattern, gap: string, post: string)
    requires i <= |s| && s[i..] == p.lit + (PatternTail(p, gap) + post)
    requires AllSpace(gap) && (p.tail.Some? ==> !IsSpace(p.tail.value))
    ensures DangerAt(p, s, i)
  {
    Advance(s, i, p.lit, PatternTail(p, gap) + post);
    if p.tail.Some? {
      var j := i + |p.lit|;
      var c := p.tail.value;
      assert PatternTail(p, gap) + post == gap + ([c] + post);
      SpaceSpan(s, j, gap, [c] + post);
      Advance(s, j, gap, [c] + post);
    }
  }

  /** A dangerous pattern written out anywhere in the text makes the validator reject it. */
  lemma OperationAnywhere(pre: string, p: DangerPattern, gap: string, post: string)
    requires p in DANGEROUS_PATTERNS && AllSpace(gap)
    ensures var s := pre + (p.lit + (PatternTail(p, gap) + post));
            Validate(s) != Accepted &&
            (!PassRejects(ModuleCheck, s) && !PassRejects(NameCheck, s) ==> Validate(s) == OperationRejected)
  {
    var s := pre + (p.lit + (PatternTail(p, gap) + post));
    PatternTails(p);
    TailNotSpace(p);
    assert s[|pre|..] == p.lit + (PatternTail(p, gap) + post);
    DangerWritten(s, |pre|, p, gap, post);
    DangerRejected(p, s, |pre|);
  }

  /** None of the closing characters is whitespace. */
  lemma TailNotSpace(p: DangerPattern)
    requires p.tail == None || p.tail == Some('(') || p.tail == Some('.')
    ensures p.tail.Some? ==> !IsSpace(p.tail.value)
  {
  }

  /** A match of a dangerous pattern anywhere rejects the text, as an operation unless an import pass fails first. */
  lemma DangerRejected(p: DangerPattern, s: string, i: nat)
    requires p in DANGEROUS_PATTERNS && i <= |s| && DangerAt(p, s, i)
    ensures Validate(s) != Accepted
    ensures !PassRejects(ModuleCheck, s) && !PassRejects(NameCheck, s) ==> Validate(s) == OperationRejected
  {
  }
}
