/** The four extraction passes of the detector (`_analyze_html`,
    `_analyze_scripts`, `_analyze_stylesheets`, `_analyze_meta_tags`) over
    the parts of a parsed page, and `Extract`, which runs them in the order
    `analyze_url` does. Each pass only appends to the receipts. */
module Extractors {
  import opened Options
  import opened Strings
  import opened Seqs
  import opened Regex
  import opened Catalog
  import opened Evidence

  /** A `<meta name="generator">` tag with its `content` attribute, if any. */
  datatype MetaTag = MetaTag(content: Option<string>)

  /** What the HTML parser hands the passes:
      - `markup`: the page re-serialised (`str(soup)`);
      - `scriptSrcs`: the `src` of every `<script>` that has one, in order;
      - `inlineScripts`: the `.string` of every `<script>` without `src`
        (`None` where the tag does not hold exactly one text node);
      - `stylesheetHrefs`: the `href` of every `<link rel="stylesheet">`;
      - `generator`: the first `<meta name="generator">`, if any. */
  datatype Page = Page(
    markup: string,
    scriptSrcs: seq<string>,
    inlineScripts: seq<Option<string>>,
    stylesheetHrefs: seq<Option<string>>,
    generator: Option<MetaTag>)

  const ScriptPrefix: string := "Script: "
  const StylesheetPrefix: string := "Stylesheet: "
  const BundlePrefix: string := "Custom bundle: "
  const KeyLabel: string := "OpenAI API key in frontend"
  const MetaLabel: string := "Meta generator tag"

  /** The signal an exposed key produces. */
  const KeySignal: Signal := Signal(ExposedApiKey, KeyLabel, Critical)

  // ---------------------------------------------------------------------
  // HTML pass

  /** `re.search(pattern, text, re.IGNORECASE)` is truthy. A pattern outside
      the supported fragment never matches (every catalog pattern compiles,
      see `CatalogCompiles`). */
  predicate RegexHit(pattern: string, text: string) {
    match Parse(pattern)
    case None => false
    case Some(r) => Search(r, text, true)
  }

  /** One high-severity signal per catalog entry whose pattern, read as a
      case-insensitive regular expression, occurs in the markup; the
      signal carries the pattern itself. */
  function HtmlSignals(es: seq<(Platform, string)>, markup: string): (r: seq<Signal>)
    ensures |r| == Count(es, (e: (Platform, string)) => RegexHit(e.1, markup))
    ensures forall s :: s in r <==> s.severity == High && (s.kind, s.pattern) in es && RegexHit(s.pattern, markup)
    ensures NoDups(es) ==> NoDups(r)
  {
    var hits := Filter(es, (e: (Platform, string)) => RegexHit(e.1, markup));
    FilterCount(es, (e: (Platform, string)) => RegexHit(e.1, markup));
    var r := seq(|hits|, k requires 0 <= k < |hits| => Signal(hits[k].0, hits[k].1, High));
    assert forall s :: s in r ==> (s.kind, s.pattern) in hits;
    assert forall k :: 0 <= k < |hits| ==> r[k] == Signal(hits[k].0, hits[k].1, High);
    r
  }

  /** The custom-code indicators that occur in the lower-cased markup, each
      once, in list order. */
  function FoundIndicators(indicators: seq<string>, markup: string): (r: seq<string>)
    ensures forall x :: x in r <==> x in indicators && Contains(Lower(markup), x)
    ensures NoDups(indicators) ==> NoDups(r)
  {
    Filter(indicators, (x: string) => Contains(Lower(markup), x))
  }

  function HtmlPass(rc: Receipts, es: seq<(Platform, string)>, markup: string): (r: Receipts)
    ensures Extends(rc, r)
    ensures r.detectedFrameworks == rc.detectedFrameworks && r.apiEndpointsFound == rc.apiEndpointsFound
    ensures r.suspiciousPatterns == rc.suspiciousPatterns
    ensures r.wrapperSignals[|rc.wrapperSignals|..] == HtmlSignals(es, markup)
    ensures r.customCodeSignals[|rc.customCodeSignals|..] == FoundIndicators(CustomCodeIndicators, markup)
    ensures NoDups(r.customCodeSignals[|rc.customCodeSignals|..])
  {
    CustomCodeIndicatorsDistinct();
    var r := rc.(wrapperSignals := rc.wrapperSignals + HtmlSignals(es, markup),
                 customCodeSignals := rc.customCodeSignals + FoundIndicators(CustomCodeIndicators, markup));
    assert r.wrapperSignals[..|rc.wrapperSignals|] == rc.wrapperSignals;
    assert r.customCodeSignals[..|rc.customCodeSignals|] == rc.customCodeSignals;
    r
  }

  // ---------------------------------------------------------------------
  // Literal scans of URLs (script sources and stylesheet links)

  /** One signal per catalog entry whose pattern occurs literally in the
      lower-cased `text`, all carrying the same `caption` and `severity`. */
  function LiteralSignals(es: seq<(Platform, string)>, text: string, caption: string, severity: Severity): (r: seq<Signal>)
    ensures |r| <= |es|
    ensures forall s :: s in r <==>
      s.pattern == caption && s.severity == severity && exists p :: (s.kind, p) in es && Contains(Lower(text), p)
    // As many signals for platform `q` as `q` has patterns in the text.
    ensures forall q ::
              multiset(r)[Signal(q, caption, severity)] ==
              Count(es, (e: (Platform, string)) => e.0 == q && Contains(Lower(text), e.1))
  {
    if es == [] then []
    else
      var here := if Contains(Lower(text), es[0].1) then [Signal(es[0].0, caption, severity)] else [];
      var rest := LiteralSignals(es[1..], text, caption, severity);
      assert forall e :: e in es <==> e == es[0] || e in es[1..];
      here + rest
  }

  /** `LiteralSignals` over each text in turn, labelled `prefix + text`. */
  function LabelledScan(es: seq<(Platform, string)>, texts: seq<string>, prefix: string, severity: Severity): (r: seq<Signal>)
    ensures forall s :: s in r <==>
      s.severity == severity &&
      exists i :: 0 <= i < |texts| && s.pattern == prefix + texts[i] &&
        exists p :: (s.kind, p) in es && Contains(Lower(texts[i]), p)
  {
    if texts == [] then []
    else
      assert forall i :: 1 <= i < |texts| ==> texts[1..][i - 1] == texts[i];
      LiteralSignals(es, texts[0], prefix + texts[0], severity) + LabelledScan(es, texts[1..], prefix, severity)
  }

  /** Each occurrence of a text contributes one signal per matching pattern. */
  lemma LabelledScanCount(es: seq<(Platform, string)>, texts: seq<string>, prefix: string, severity: Severity)
    ensures forall q, t ::
              multiset(LabelledScan(es, texts, prefix, severity))[Signal(q, prefix + t, severity)] ==
              multiset(texts)[t] * Count(es, (e: (Platform, string)) => e.0 == q && Contains(Lower(t), e.1))
  {
    forall q, t
      ensures multiset(LabelledScan(es, texts, prefix, severity))[Signal(q, prefix + t, severity)] ==
              multiset(texts)[t] * Count(es, (e: (Platform, string)) => e.0 == q && Contains(Lower(t), e.1))
    {
      LabelledScanAt(es, texts, prefix, severity, q, t);
    }
  }

  /** `LabelledScanCount` for one platform and one text. */
  lemma {:induction false} LabelledScanAt(es: seq<(Platform, string)>, texts: seq<string>, prefix: string, severity: Severity, q: Platform, t: string)
    ensures multiset(LabelledScan(es, texts, prefix, severity))[Signal(q, prefix + t, severity)] ==
            multiset(texts)[t] * Count(es, (e: (Platform, string)) => e.0 == q && Contains(Lower(t), e.1))
  {
    if texts != [] {
      var here := LiteralSignals(es, texts[0], prefix + texts[0], severity);
      var rest := LabelledScan(es, texts[1..], prefix, severity);
      assert LabelledScan(es, texts, prefix, severity) == here + rest;
      assert texts == [texts[0]] + texts[1..];
      LabelledScanAt(es, texts[1..], prefix, severity, q, t);
      var c := Count(es, (e: (Platform, string)) => e.0 == q && Contains(Lower(t), e.1));
      var m := multiset(texts[1..])[t];
      if t == texts[0] {
        assert multiset(texts)[t] == m + 1;
        SuccTimes(m, c);
      } else {
        assert multiset(texts)[t] == m;
        OtherCaptionAbsent(es, texts[0], prefix, t, severity, q);
      }
    }
  }

  lemma SuccTimes(m: nat, c: nat)
    ensures (m + 1) * c == c + m * c
  {
  }

  /** The scan of one text never carries the caption of another. */
  lemma OtherCaptionAbsent(es: seq<(Platform, string)>, text: string, prefix: string, t: string, severity: Severity, q: Platform)
    requires t != text
    ensures multiset(LiteralSignals(es, text, prefix + text, severity))[Signal(q, prefix + t, severity)] == 0
  {
    if Signal(q, prefix + t, severity) in LiteralSignals(es, text, prefix + text, severity) {
      PrefixCancel(prefix, t, text);
    }
  }

  /** Equal captions come from equal texts. */
  lemma PrefixCancel(prefix: string, a: string, b: string)
    requires prefix + a == prefix + b
    ensures a == b
  {
    assert a == (prefix + a)[|prefix|..];
    assert b == (prefix + b)[|prefix|..];
  }

  // ---------------------------------------------------------------------
  // Script pass

  /** The frameworks a script URL names, in the order React, Vue, Angular,
      Next.js; each at most once. */
  function SrcFrameworks(src: string): (r: seq<Framework>)
    ensures forall f :: f in r <==> Contains(Lower(src), f.Token())
    ensures |r| <= 4
  {
    var order := [React, Vue, Angular, NextJs];
    var names := (f: Framework) => Contains(Lower(src), f.Token());
    assert order[0] == React && order[1] == Vue && order[2] == Angular && order[3] == NextJs;
    FilterOfAll(order, names);
    Filter(order, names)
  }

  /** Each framework is named at most once per URL. */
  lemma SrcFrameworksOnce(src: string)
    ensures NoDups(SrcFrameworks(src))
  {
    var order := [React, Vue, Angular, NextJs];
    var names := (f: Framework) => Contains(Lower(src), f.Token());
    assert NoDups(order);
    assert SrcFrameworks(src) == Filter(order, names);
  }

  /** A `Custom bundle: <src>` note when the URL names a bundler. */
  function BundleNote(src: string): (r: seq<string>)
    ensures |r| <= 1
    ensures r != [] <==> exists k :: 0 <= k < |BundlerTokens| && Contains(Lower(src), BundlerTokens[k])
    ensures forall x :: x in r ==> x == BundlePrefix + src
  {
    if ContainsAny(Lower(src), BundlerTokens) then [BundlePrefix + src] else []
  }

  /** The `Script: <src>` signals of all script URLs. */
  function ScriptSignals(es: seq<(Platform, string)>, srcs: seq<string>): (r: seq<Signal>)
    ensures forall s :: s in r <==>
      s.severity == High &&
      exists i :: 0 <= i < |srcs| && s.pattern == ScriptPrefix + srcs[i] &&
        exists p :: (s.kind, p) in es && Contains(Lower(srcs[i]), p)
    // A URL listed twice is scanned twice.
    ensures forall q, src ::
              multiset(r)[Signal(q, ScriptPrefix + src, High)] ==
              multiset(srcs)[src] * Count(es, (e: (Platform, string)) => e.0 == q && Contains(Lower(src), e.1))
  {
    LabelledScanCount(es, srcs, ScriptPrefix, High);
    LabelledScan(es, srcs, ScriptPrefix, High)
  }

  function BundleNotes(srcs: seq<string>): (r: seq<string>)
    ensures |r| <= |srcs|
    ensures forall x :: x in r <==>
      exists i :: 0 <= i < |srcs| && x == BundlePrefix + srcs[i] &&
        exists k :: 0 <= k < |BundlerTokens| && Contains(Lower(srcs[i]), BundlerTokens[k])
  {
    FlatMapBound(srcs, BundleNote, 1);
    FlatMap(srcs, BundleNote)
  }

  /** The frameworks of every script URL in turn, repeats kept. */
  function Frameworks(srcs: seq<string>): (r: seq<Framework>)
    ensures |r| <= 4 * |srcs|
    ensures forall f :: f in r <==> exists i :: 0 <= i < |srcs| && Contains(Lower(srcs[i]), f.Token())
  {
    if srcs == [] then []
    else
      assert forall i :: 1 <= i < |srcs| ==> srcs[1..][i - 1] == srcs[i];
      SrcFrameworks(srcs[0]) + Frameworks(srcs[1..])
  }

  /** Framework `f` is listed once for every URL that names it. */
  lemma {:induction false} FrameworksCount(srcs: seq<string>, f: Framework)
    ensures multiset(Frameworks(srcs))[f] == Count(srcs, (src: string) => Contains(Lower(src), f.Token()))
  {
    if srcs != [] {
      FrameworksCount(srcs[1..], f);
      SrcFrameworksOnce(srcs[0]);
      NoDupsMultiplicity(SrcFrameworks(srcs[0]), f);
    }
  }

  // ---------------------------------------------------------------------
  // Inline scripts

  /** The case-sensitive `re.search(r'sk-[A-Za-z0-9]{48}', content)`. */
  predicate KeyFound(content: string) {
    match Parse(ApiKeyPattern)
    case None => false
    case Some(r) => Search(r, content, false)
  }

  /** A key starts at `i`: `sk-` followed by 48 ASCII letters or digits. */
  predicate KeyAt(content: string, i: nat) {
    && i + 51 <= |content|
    && content[i] == 's' && content[i + 1] == 'k' && content[i + 2] == '-'
    && forall k :: i + 3 <= k < i + 51 ==> IsAlnum(content[k])
  }

  /** One critical signal per inline script that holds a key. */
  function KeySignals(contents: seq<string>): (r: seq<Signal>)
    ensures forall s :: s in r ==> s == KeySignal
    ensures r != [] <==> exists i :: 0 <= i < |contents| && KeyFound(contents[i])
    // One signal for each script that holds a key, however many keys it holds.
    ensures |r| == Count(contents, KeyFound)
  {
    if contents == [] then []
    else
      var rest := KeySignals(contents[1..]);
      assert forall i :: 1 <= i < |contents| ==> contents[1..][i - 1] == contents[i];
      (if KeyFound(contents[0]) then [KeySignal] else []) + rest
  }

  /** `m` is the text of a match of pattern `p` in `t` (case-insensitive). */
  ghost predicate PatternMatch(p: string, t: string, m: string) {
    match Parse(p)
    case None => false
    case Some(r) => IsMatchOf(r, t, m, true)
  }

  /** `re.findall(p, content, re.IGNORECASE)` for each pattern in turn, the
      matches concatenated. */
  function EndpointMatches(pats: seq<string>, content: string): (r: seq<string>)
    ensures forall x :: x in r ==> exists k :: 0 <= k < |pats| && PatternMatch(pats[k], content, x)
    ensures r == [] <==> forall k :: 0 <= k < |pats| ==> !RegexHit(pats[k], content)
  {
    if pats == [] then []
    else
      var here := match Parse(pats[0]) case None => [] case Some(re) => FindAll(re, content, true);
      var rest := EndpointMatches(pats[1..], content);
      assert forall k :: 1 <= k < |pats| ==> pats[1..][k - 1] == pats[k];
      here + rest
  }

  /** The matches of `pats` in every text in turn, repeats kept. */
  function MatchesIn(pats: seq<string>, contents: seq<string>): (r: seq<string>)
    ensures forall x :: x in r <==> exists i :: 0 <= i < |contents| && x in EndpointMatches(pats, contents[i])
  {
    FlatMap(contents, (c: string) => EndpointMatches(pats, c))
  }

  /** The endpoint matches of every inline script in turn. */
  function Endpoints(contents: seq<string>): (r: seq<string>)
    ensures forall x :: x in r <==> exists i :: 0 <= i < |contents| && x in EndpointMatches(ApiEndpointPatterns, contents[i])
  {
    MatchesIn(ApiEndpointPatterns, contents)
  }

  /** Optional texts read with `''` for a missing one: `script.string or ''`
      for inline scripts, `link.get('href', '')` for stylesheet links. */
  function OrEmpty(xs: seq<Option<string>>): (r: seq<string>)
    ensures |r| == |xs|
    ensures forall i :: 0 <= i < |xs| ==> (xs[i].Some? ==> r[i] == xs[i].value) && (xs[i].None? ==> r[i] == "")
  {
    seq(|xs|, i requires 0 <= i < |xs| => xs[i].GetOr(""))
  }

  /** `_analyze_scripts`: first every script URL, then every inline script. */
  function ScriptsPass(rc: Receipts, es: seq<(Platform, string)>, srcs: seq<string>, inline: seq<Option<string>>): (r: Receipts)
    ensures Extends(rc, r)
    ensures r.suspiciousPatterns == rc.suspiciousPatterns
    ensures r.wrapperSignals[|rc.wrapperSignals|..] == ScriptSignals(es, srcs) + KeySignals(OrEmpty(inline))
    ensures r.customCodeSignals[|rc.customCodeSignals|..] == BundleNotes(srcs)
    ensures r.detectedFrameworks[|rc.detectedFrameworks|..] == Frameworks(srcs)
    ensures r.apiEndpointsFound[|rc.apiEndpointsFound|..] == Endpoints(OrEmpty(inline))
  {
    var texts := OrEmpty(inline);
    var r := Receipts(
      rc.detectedFrameworks + Frameworks(srcs),
      rc.suspiciousPatterns,
      rc.apiEndpointsFound + Endpoints(texts),
      rc.wrapperSignals + (ScriptSignals(es, srcs) + KeySignals(texts)),
      rc.customCodeSignals + BundleNotes(srcs));
    assert r.wrapperSignals[..|rc.wrapperSignals|] == rc.wrapperSignals;
    assert r.customCodeSignals[..|rc.customCodeSignals|] == rc.customCodeSignals;
    assert r.detectedFrameworks[..|rc.detectedFrameworks|] == rc.detectedFrameworks;
    assert r.apiEndpointsFound[..|rc.apiEndpointsFound|] == rc.apiEndpointsFound;
    r
  }

  // ---------------------------------------------------------------------
  // Stylesheet pass

  function StylesheetSignals(es: seq<(Platform, string)>, links: seq<Option<string>>): (r: seq<Signal>)
    ensures forall s :: s in r <==>
      s.severity == Medium &&
      exists i :: 0 <= i < |links| && s.pattern == StylesheetPrefix + OrEmpty(links)[i] &&
        exists p :: (s.kind, p) in es && Contains(Lower(OrEmpty(links)[i]), p)
    // A link listed twice is scanned twice.
    ensures forall q, href ::
              multiset(r)[Signal(q, StylesheetPrefix + href, Medium)] ==
              multiset(OrEmpty(links))[href] * Count(es, (e: (Platform, string)) => e.0 == q && Contains(Lower(href), e.1))
  {
    LabelledScanCount(es, OrEmpty(links), StylesheetPrefix, Medium);
    LabelledScan(es, OrEmpty(links), StylesheetPrefix, Medium)
  }

  function StylesheetsPass(rc: Receipts, es: seq<(Platform, string)>, links: seq<Option<string>>): (r: Receipts)
    ensures Extends(rc, r)
    ensures r.(wrapperSignals := rc.wrapperSignals) == rc
    ensures r.wrapperSignals[|rc.wrapperSignals|..] == StylesheetSignals(es, links)
  {
    var r := rc.(wrapperSignals := rc.wrapperSignals + StylesheetSignals(es, links));
    assert r.wrapperSignals[..|rc.wrapperSignals|] == rc.wrapperSignals;
    r
  }

  // ---------------------------------------------------------------------
  // Meta pass

  /** The platform a generator string names, trying `webflow`, then `wix`,
      then `squarespace` on the lower-cased content. */
  function GeneratorPlatform(content: string): (r: Option<Platform>)
    ensures r.Some? ==> r.value in {Webflow, Wix, Squarespace} && Contains(Lower(content), r.value.Tag())
    ensures r.None? <==> forall p :: p in {Webflow, Wix, Squarespace} ==> !Contains(Lower(content), p.Tag())
    ensures Contains(Lower(content), Webflow.Tag()) ==> r == Some(Webflow)
    ensures Contains(Lower(content), Wix.Tag()) ==> r.Some? && r.value != Squarespace
  {
    var l := Lower(content);
    if Contains(l, "webflow") then Some(Webflow)
    else if Contains(l, "wix") then Some(Wix)
    else if Contains(l, "squarespace") then Some(Squarespace)
    else None
  }

  function MetaSignals(generator: Option<MetaTag>): (r: seq<Signal>)
    ensures |r| <= 1
    ensures forall s :: s in r ==> s.severity == High && s.pattern == MetaLabel && s.kind in {Webflow, Wix, Squarespace}
    ensures generator.None? ==> r == []
    ensures generator.Some? ==> (r != [] <==> GeneratorPlatform(generator.value.content.GetOr("")).Some?)
    ensures generator.Some? ==> forall s :: s in r ==> GeneratorPlatform(generator.value.content.GetOr("")) == Some(s.kind)
  {
    match generator
    case None => []
    case Some(tag) =>
      match GeneratorPlatform(tag.content.GetOr(""))
      case None => []
      case Some(p) => [Signal(p, MetaLabel, High)]
  }

  function MetaPass(rc: Receipts, generator: Option<MetaTag>): (r: Receipts)
    ensures Extends(rc, r)
    ensures r.(wrapperSignals := rc.wrapperSignals) == rc
    ensures r.wrapperSignals[|rc.wrapperSignals|..] == MetaSignals(generator)
  {
    var r := rc.(wrapperSignals := rc.wrapperSignals + MetaSignals(generator));
    assert r.wrapperSignals[..|rc.wrapperSignals|] == rc.wrapperSignals;
    r
  }

  // ---------------------------------------------------------------------
  // All passes

  /** A receipts list after a pass is the list before it plus what the
      pass appended. */
  lemma Appended<T>(before: seq<T>, after: seq<T>)
    requires |before| <= |after| && after[..|before|] == before
    ensures after == before + after[|before|..]
  {
  }

  /** Signals every one of which is high, medium or critical, critical
      exactly for the exposed-key signal, and medium only with a
      stylesheet caption drawn from `hrefs`. */
  ghost predicate WellGraded(ws: seq<Signal>, hrefs: seq<string>) {
    forall s :: s in ws ==>
      && s.severity != Low
      && (s.severity == Critical <==> s.kind == ExposedApiKey)
      && (s.severity == Critical ==> s == KeySignal)
      && (s.severity == Medium ==> exists i :: 0 <= i < |hrefs| && s.pattern == StylesheetPrefix + hrefs[i])
  }

  lemma WellGradedAppend(a: seq<Signal>, b: seq<Signal>, hrefs: seq<string>)
    requires WellGraded(a, hrefs) && WellGraded(b, hrefs)
    ensures WellGraded(a + b, hrefs)
  {
  }

  /** Every signal the passes produce is well graded, given a catalog that
      does not use the exposed-key tag. */
  lemma PassSignalsWellGraded(es: seq<(Platform, string)>, page: Page)
    requires forall e :: e in es ==> e.0 != ExposedApiKey
    ensures WellGraded(HtmlSignals(es, page.markup), OrEmpty(page.stylesheetHrefs))
    ensures WellGraded(ScriptSignals(es, page.scriptSrcs), OrEmpty(page.stylesheetHrefs))
    ensures WellGraded(KeySignals(OrEmpty(page.inlineScripts)), OrEmpty(page.stylesheetHrefs))
    ensures WellGraded(StylesheetSignals(es, page.stylesheetHrefs), OrEmpty(page.stylesheetHrefs))
    ensures WellGraded(MetaSignals(page.generator), OrEmpty(page.stylesheetHrefs))
  {
  }

  /** The receipts of a page over catalog entries `es`: HTML, scripts,
      stylesheets, meta tags, in this order. Nothing is ever added to the
      suspicious patterns, at most four frameworks are noted per script
      URL, and every custom-code note is an indicator token or names a
      bundled script URL. */
  function ExtractWith(es: seq<(Platform, string)>, page: Page): (r: Receipts)
    ensures r.suspiciousPatterns == []
    ensures |r.detectedFrameworks| <= 4 * |page.scriptSrcs|
    ensures forall x :: x in r.customCodeSignals ==>
      x in CustomCodeIndicators || exists i :: 0 <= i < |page.scriptSrcs| && x == BundlePrefix + page.scriptSrcs[i]
    ensures (forall e :: e in es ==> e.0 != ExposedApiKey) ==> WellGraded(r.wrapperSignals, OrEmpty(page.stylesheetHrefs))
  {
    var r1 := HtmlPass(EmptyReceipts, es, page.markup);
    var r2 := ScriptsPass(r1, es, page.scriptSrcs, page.inlineScripts);
    var r3 := StylesheetsPass(r2, es, page.stylesheetHrefs);
    var r4 := MetaPass(r3, page.generator);
    Appended(r1.wrapperSignals, r2.wrapperSignals);
    Appended(r2.wrapperSignals, r3.wrapperSignals);
    Appended(r3.wrapperSignals, r4.wrapperSignals);
    Appended(r1.customCodeSignals, r2.customCodeSignals);
    Appended(r1.detectedFrameworks, r2.detectedFrameworks);
    assert r1.customCodeSignals == FoundIndicators(CustomCodeIndicators, page.markup);
    assert r4.customCodeSignals == r1.customCodeSignals + BundleNotes(page.scriptSrcs);
    assert r4.detectedFrameworks == Frameworks(page.scriptSrcs);
    assert (forall e :: e in es ==> e.0 != ExposedApiKey) ==> WellGraded(r4.wrapperSignals, OrEmpty(page.stylesheetHrefs)) by {
      if forall e :: e in es ==> e.0 != ExposedApiKey {
        var hrefs := OrEmpty(page.stylesheetHrefs);
        PassSignalsWellGraded(es, page);
        assert r1.wrapperSignals == HtmlSignals(es, page.markup);
        WellGradedAppend(ScriptSignals(es, page.scriptSrcs), KeySignals(OrEmpty(page.inlineScripts)), hrefs);
        WellGradedAppend(r1.wrapperSignals, r2.wrapperSignals[|r1.wrapperSignals|..], hrefs);
        WellGradedAppend(r2.wrapperSignals, r3.wrapperSignals[|r2.wrapperSignals|..], hrefs);
        WellGradedAppend(r3.wrapperSignals, r4.wrapperSignals[|r3.wrapperSignals|..], hrefs);
      }
    }
    r4
  }

  /** Frameworks and endpoints come from the script pass alone. */
  lemma ExtractWithScriptFields(es: seq<(Platform, string)>, page: Page)
    ensures ExtractWith(es, page).detectedFrameworks == Frameworks(page.scriptSrcs)
    ensures ExtractWith(es, page).apiEndpointsFound == Endpoints(OrEmpty(page.inlineScripts))
  {
    var r1 := HtmlPass(EmptyReceipts, es, page.markup);
    var r2 := ScriptsPass(r1, es, page.scriptSrcs, page.inlineScripts);
    Appended(r1.detectedFrameworks, r2.detectedFrameworks);
    Appended(r1.apiEndpointsFound, r2.apiEndpointsFound);
  }

  /** The wrapper signals are those of the five scans, in pass order. */
  lemma ExtractWithSignals(es: seq<(Platform, string)>, page: Page)
    ensures ExtractWith(es, page).wrapperSignals ==
      HtmlSignals(es, page.markup) + (ScriptSignals(es, page.scriptSrcs) + KeySignals(OrEmpty(page.inlineScripts)))
      + StylesheetSignals(es, page.stylesheetHrefs) + MetaSignals(page.generator)
  {
    var r1 := HtmlPass(EmptyReceipts, es, page.markup);
    var r2 := ScriptsPass(r1, es, page.scriptSrcs, page.inlineScripts);
    var r3 := StylesheetsPass(r2, es, page.stylesheetHrefs);
    var r4 := MetaPass(r3, page.generator);
    var h := HtmlSignals(es, page.markup);
    var sc := ScriptSignals(es, page.scriptSrcs) + KeySignals(OrEmpty(page.inlineScripts));
    var st := StylesheetSignals(es, page.stylesheetHrefs);
    var m := MetaSignals(page.generator);
    assert r1.wrapperSignals == h;
    Appended(r1.wrapperSignals, r2.wrapperSignals);
    assert r2.wrapperSignals == h + sc;
    Appended(r2.wrapperSignals, r3.wrapperSignals);
    assert r3.wrapperSignals == h + sc + st;
    Appended(r3.wrapperSignals, r4.wrapperSignals);
    assert r4.wrapperSignals == h + sc + st + m;
  }

  /** Only the inline key check can produce the exposed-key signal: the
      HTML, script-URL, stylesheet and meta scans tag their signals with
      catalog or generator platforms. */
  lemma OnlyKeyCheckTagsKeys(es: seq<(Platform, string)>, page: Page)
    requires forall e :: e in es ==> e.0 != ExposedApiKey
    ensures KeySignal in ExtractWith(es, page).wrapperSignals <==> KeySignals(OrEmpty(page.inlineScripts)) != []
  {
    ExtractWithSignals(es, page);
    var h := HtmlSignals(es, page.markup);
    var sc := ScriptSignals(es, page.scriptSrcs);
    var k := KeySignals(OrEmpty(page.inlineScripts));
    var st := StylesheetSignals(es, page.stylesheetHrefs);
    var m := MetaSignals(page.generator);
    assert KeySignal !in h;
    assert KeySignal !in sc;
    assert KeySignal !in st;
    assert KeySignal !in m;
    assert k != [] ==> KeySignal in k by {
      if k != [] {
        assert k[0] in k;
      }
    }
  }

  /** The receipts of a page over the detector's own catalog: in addition,
      every signal is well graded. */
  function Extract(page: Page): (r: Receipts)
    ensures r.suspiciousPatterns == []
    ensures forall f :: f in r.detectedFrameworks <==>
      exists i :: 0 <= i < |page.scriptSrcs| && Contains(Lower(page.scriptSrcs[i]), f.Token())
    ensures forall x :: x in r.apiEndpointsFound ==>
      exists i :: 0 <= i < |page.inlineScripts| && x in EndpointMatches(ApiEndpointPatterns, OrEmpty(page.inlineScripts)[i])
    ensures WellGraded(r.wrapperSignals, OrEmpty(page.stylesheetHrefs))
    ensures KeySignal in r.wrapperSignals <==> KeySignals(OrEmpty(page.inlineScripts)) != []
  {
    CatalogKinds();
    ExtractWithScriptFields(CatalogEntries(), page);
    OnlyKeyCheckTagsKeys(CatalogEntries(), page);
    ExtractWith(CatalogEntries(), page)
  }

  /** The receipts' lists are the scans' outputs over the detector's own
      catalog, repeats kept, in pass order. */
  lemma ExtractIsScans(page: Page)
    ensures Extract(page).detectedFrameworks == Frameworks(page.scriptSrcs)
    ensures Extract(page).apiEndpointsFound == Endpoints(OrEmpty(page.inlineScripts))
    ensures Extract(page).wrapperSignals ==
      HtmlSignals(CatalogEntries(), page.markup)
      + (ScriptSignals(CatalogEntries(), page.scriptSrcs) + KeySignals(OrEmpty(page.inlineScripts)))
      + StylesheetSignals(CatalogEntries(), page.stylesheetHrefs) + MetaSignals(page.generator)
  {
    ExtractWithScriptFields(CatalogEntries(), page);
    ExtractWithSignals(CatalogEntries(), page);
  }
}
