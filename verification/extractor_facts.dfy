/** What the extraction passes find, stated without the regular-expression
    machinery: the inline key check finds exactly `sk-` followed by 48
    ASCII letters or digits, the endpoint scan reports only spellings of
    the six known endpoints, and the literal URL scans never see more than
    the HTML pass does. */
module ExtractorFacts {
  import opened Options
  import opened Strings
  import opened Regex
  import opened Catalog
  import opened Evidence
  import opened Extractors

  /** The compiled key shape. */
  function KeyRegex(): (r: Regex)
    ensures |r| == 51
    ensures forall k :: 0 <= k < |r| ==> r[k].Once?
  {
    LiteralRegex("sk-") + Repeat(Once(Class(AlnumRanges)), 48)
  }

  /** `[A-Za-z0-9]` accepts exactly the ASCII letters and digits. */
  lemma AlnumRangesIff(c: char)
    ensures InRanges(AlnumRanges, c) <==> IsAlnum(c)
  {
    if IsAlnum(c) {
      if IsUpper(c) {
        assert AlnumRanges[0].0 <= c <= AlnumRanges[0].1;
      } else if IsLowerLetter(c) {
        assert AlnumRanges[1].0 <= c <= AlnumRanges[1].1;
      } else {
        assert AlnumRanges[2].0 <= c <= AlnumRanges[2].1;
      }
    }
  }

  /** Position `k` of the key shape, case-sensitively, against `c`. */
  lemma KeyRegexAccepts(k: nat, c: char)
    requires k < 51
    ensures Accepts(KeyRegex()[k].atom, c, false) <==>
      if k == 0 then c == 's' else if k == 1 then c == 'k' else if k == 2 then c == '-' else IsAlnum(c)
  {
    var r := KeyRegex();
    if k < 3 {
      assert r[k] == LiteralRegex("sk-")[k];
    } else {
      assert r[k] == Once(Class(AlnumRanges));
      AlnumRangesIff(c);
    }
  }

  /** The key shape matches a span exactly when a key starts there. */
  lemma KeySpanIff(t: string, i: nat, j: nat)
    requires i <= j <= |t|
    ensures MatchesSpan(KeyRegex(), t, i, j, false) <==> (j == i + 51 && KeyAt(t, i))
  {
    var r := KeyRegex();
    FixedSpanIff(r, t, i, j, false);
    if j == i + 51 {
      forall k | 0 <= k < 51
        ensures Accepts(r[k].atom, t[i + k], false) <==>
          if k == 0 then t[i] == 's' else if k == 1 then t[i + 1] == 'k' else if k == 2 then t[i + 2] == '-' else IsAlnum(t[i + k])
      {
        KeyRegexAccepts(k, t[i + k]);
      }
      if MatchesSpan(r, t, i, j, false) {
        assert Accepts(r[0].atom, t[i + 0], false) && Accepts(r[1].atom, t[i + 1], false) && Accepts(r[2].atom, t[i + 2], false);
        forall m | i + 3 <= m < i + 51 ensures IsAlnum(t[m]) {
          assert Accepts(r[m - i].atom, t[i + (m - i)], false);
        }
      }
    }
  }

  /** The inline check `re.search(r'sk-[A-Za-z0-9]{48}', content)` succeeds
      exactly when some position of the script starts `sk-` followed by 48
      ASCII letters or digits; the match is case-sensitive. */
  lemma KeyFoundIff(content: string)
    ensures KeyFound(content) <==> exists i: nat :: KeyAt(content, i)
  {
    ApiKeyPatternCompiles();
    var r := KeyRegex();
    assert Parse(ApiKeyPattern) == Some(r);
    SearchIff(r, content, false);
    if KeyFound(content) {
      var i, j :| 0 <= i <= j <= |content| && MatchesSpan(r, content, i, j, false);
      KeySpanIff(content, i, j);
    }
    if i: nat :| KeyAt(content, i) {
      KeySpanIff(content, i, i + 51);
      assert MatchesFrom(r, content, 0, false);
    }
  }

  /** Over patterns that compile to non-empty literals, every match the
      scan reports spells one of the literals, in some letter case, and
      occurs in the text verbatim. */
  lemma LiteralMatchesKnown(pats: seq<string>, lits: seq<string>, content: string, x: string)
    requires CompilesToLiterals(pats, lits)
    requires forall k :: 0 <= k < |lits| ==> |lits[k]| > 0
    requires x in EndpointMatches(pats, content)
    ensures exists k :: 0 <= k < |lits| && Lower(x) == Lower(lits[k])
    ensures Contains(content, x)
    ensures 0 < |x| <= |content|
  {
    var k :| 0 <= k < |pats| && PatternMatch(pats[k], content, x);
    assert Parse(pats[k]) == Some(LiteralRegex(lits[k]));
    LiteralMatch(lits[k], content, x);
  }

  /** A case-insensitive match of a literal spells it and occurs in the
      text verbatim. */
  lemma LiteralMatch(lit: string, content: string, x: string)
    requires IsMatchOf(LiteralRegex(lit), content, x, true)
    ensures Lower(x) == Lower(lit) && |x| == |lit| <= |content|
    ensures Contains(content, x)
  {
    var i, j :| 0 <= i <= j <= |content| && MatchesSpan(LiteralRegex(lit), content, i, j, true) && content[i..j] == x;
    LiteralSpanIff(lit, content, i, j);
    WitnessGivesContains(content, x, i);
  }

  /** The six endpoints are non-empty. */
  lemma EndpointsNonEmpty()
    ensures forall k :: 0 <= k < |ApiEndpoints| ==> |ApiEndpoints[k]| > 0
  {
  }

  /** Every endpoint the inline scan reports is one of the six known
      endpoints in some letter case, and occurs in the script verbatim. */
  lemma EndpointsAreKnown(content: string, x: string)
    requires x in EndpointMatches(ApiEndpointPatterns, content)
    ensures exists k :: 0 <= k < |ApiEndpoints| && Lower(x) == Lower(ApiEndpoints[k])
    ensures Contains(content, x)
    ensures 0 < |x| <= |content|
  {
    ApiEndpointsCompile();
    EndpointsNonEmpty();
    LiteralMatchesKnown(ApiEndpointPatterns, ApiEndpoints, content, x);
  }

  /** The inline scan reports something exactly when the lower-cased
      script contains one of the six endpoints. */
  lemma EndpointsFoundIff(content: string)
    ensures EndpointMatches(ApiEndpointPatterns, content) != [] <==>
      exists k :: 0 <= k < |ApiEndpoints| && Contains(Lower(content), Lower(ApiEndpoints[k]))
  {
    ApiEndpointsCompile();
    forall k | 0 <= k < |ApiEndpoints|
      ensures RegexHit(ApiEndpointPatterns[k], content) <==> Contains(Lower(content), Lower(ApiEndpoints[k]))
    {
      LiteralSearchIff(ApiEndpoints[k], content);
    }
  }

  /** The non-overlapping occurrences of each literal in the lower-cased
      `content`, counted left to right, summed over the literals. */
  function OccurrenceTotal(lits: seq<string>, content: string): nat {
    if lits == [] then 0
    else Occurrences(Lower(content), Lower(lits[0])) + OccurrenceTotal(lits[1..], content)
  }

  /** Over patterns that compile to non-empty literals, the scan reports
      one match per non-overlapping occurrence of each literal. */
  lemma {:induction false} LiteralMatchesCount(pats: seq<string>, lits: seq<string>, content: string)
    requires CompilesToLiterals(pats, lits)
    requires forall k :: 0 <= k < |lits| ==> |lits[k]| > 0
    ensures |EndpointMatches(pats, content)| == OccurrenceTotal(lits, content)
  {
    if pats != [] {
      assert Parse(pats[0]) == Some(LiteralRegex(lits[0]));
      LiteralFindAllCount(lits[0], content);
      assert CompilesToLiterals(pats[1..], lits[1..]) by {
        forall k | 0 <= k < |pats[1..]| ensures Parse(pats[1..][k]) == Some(LiteralRegex(lits[1..][k])) {
          assert pats[1..][k] == pats[k + 1] && lits[1..][k] == lits[k + 1];
        }
      }
      LiteralMatchesCount(pats[1..], lits[1..], content);
    }
  }

  /** The inline scan of one script reports one match per non-overlapping
      occurrence of each of the six endpoints. */
  lemma EndpointMatchesCount(content: string)
    ensures |EndpointMatches(ApiEndpointPatterns, content)| == OccurrenceTotal(ApiEndpoints, content)
  {
    ApiEndpointsCompile();
    EndpointsNonEmpty();
    LiteralMatchesCount(ApiEndpointPatterns, ApiEndpoints, content);
  }

  /** The occurrences of `lits` in every text, summed. */
  function OccurrencesIn(lits: seq<string>, contents: seq<string>): nat {
    if contents == [] then 0
    else OccurrenceTotal(lits, contents[0]) + OccurrencesIn(lits, contents[1..])
  }

  /** Over patterns that compile to non-empty literals, every occurrence in
      every text is reported once; nothing is deduplicated. */
  lemma {:induction false} MatchesInCount(pats: seq<string>, lits: seq<string>, contents: seq<string>)
    requires CompilesToLiterals(pats, lits)
    requires forall k :: 0 <= k < |lits| ==> |lits[k]| > 0
    ensures |MatchesIn(pats, contents)| == OccurrencesIn(lits, contents)
  {
    if contents != [] {
      LiteralMatchesCount(pats, lits, contents[0]);
      MatchesInCount(pats, lits, contents[1..]);
    }
  }

  /** Every occurrence of one of the six endpoints in every inline script
      is reported once. */
  lemma EndpointsCount(contents: seq<string>)
    ensures |Endpoints(contents)| == OccurrencesIn(ApiEndpoints, contents)
  {
    ApiEndpointsCompile();
    EndpointsNonEmpty();
    MatchesInCount(ApiEndpointPatterns, ApiEndpoints, contents);
  }

  /** Every endpoint in a page's receipts is a known endpoint, in some
      letter case, that occurs verbatim in one of the page's inline
      scripts. */
  lemma ExtractEndpointsKnown(page: Page, x: string)
    requires x in Extract(page).apiEndpointsFound
    ensures exists k :: 0 <= k < |ApiEndpoints| && Lower(x) == Lower(ApiEndpoints[k])
    ensures exists i :: 0 <= i < |page.inlineScripts| && page.inlineScripts[i].Some? && Contains(page.inlineScripts[i].value, x)
  {
    InlineEndpointKnown(page.inlineScripts, x);
  }

  /** The same for the inline-script endpoint scan on its own. */
  lemma InlineEndpointKnown(scripts: seq<Option<string>>, x: string)
    requires exists i :: 0 <= i < |scripts| && x in EndpointMatches(ApiEndpointPatterns, OrEmpty(scripts)[i])
    ensures exists k :: 0 <= k < |ApiEndpoints| && Lower(x) == Lower(ApiEndpoints[k])
    ensures exists i :: 0 <= i < |scripts| && scripts[i].Some? && Contains(scripts[i].value, x)
  {
    var texts := OrEmpty(scripts);
    var i :| 0 <= i < |scripts| && x in EndpointMatches(ApiEndpointPatterns, texts[i]);
    EndpointsAreKnown(texts[i], x);
  }

  /** The receipts report an exposed OpenAI key exactly when some inline
      script contains `sk-` followed by 48 ASCII letters or digits. */
  lemma ExposedKeyIff(page: Page)
    ensures KeySignal in Extract(page).wrapperSignals <==>
      exists i :: 0 <= i < |page.inlineScripts| && exists pos: nat :: KeyAt(OrEmpty(page.inlineScripts)[i], pos)
  {
    InlineKeyIff(OrEmpty(page.inlineScripts));
  }

  /** The key check flags a list of scripts exactly when one of them holds
      a key. */
  lemma InlineKeyIff(texts: seq<string>)
    ensures KeySignals(texts) != [] <==> exists i :: 0 <= i < |texts| && exists pos: nat :: KeyAt(texts[i], pos)
  {
    forall i | 0 <= i < |texts| ensures KeyFound(texts[i]) <==> exists pos: nat :: KeyAt(texts[i], pos) {
      KeyFoundIff(texts[i]);
    }
  }

  /** Whatever catalog pattern the literal URL scans find in a lower-cased
      text, the HTML pass's case-insensitive regular-expression search
      finds in that text too: the two special patterns can never be found
      literally, and every other pattern is a plain pattern whose search
      covers its literal occurrences. */
  lemma LiteralHitIsRegexHit(e: (Platform, string), t: string)
    requires e in CatalogEntries() && Contains(Lower(t), e.1)
    ensures RegexHit(e.1, t)
  {
    CatalogPatternShapes();
    SpecialPatternsHaveUpper();
    if HasUpper(e.1) {
      UpperNeverInLower(t, e.1);
    } else {
      UrlPatternIsPlain(e.1);
      PlainParses(e.1);
      LowerOfNoUpper(e.1);
      PlainSearchCoversLiteral(e.1, t);
    }
  }

  /** The key and header shapes of the catalog are never reported by the
      script-URL or stylesheet scans, whatever the URL. */
  lemma SpecialPatternsNeverLiteral(t: string)
    ensures !Contains(Lower(t), ApiKeyPattern) && !Contains(Lower(t), AuthHeaderPattern)
  {
    SpecialPatternsHaveUpper();
    UpperNeverInLower(t, ApiKeyPattern);
    UpperNeverInLower(t, AuthHeaderPattern);
  }
}
