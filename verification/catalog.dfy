/** The detector's static pattern catalog (`WrapperDetector.__init__`) and
    the small fixed token lists the extractors consult. Everything here is
    data; the lemmas at the end establish what the extractors rely on about
    it: every catalog pattern compiles, the API-key shape compiles to `sk-`
    followed by 48 alphanumerics, and the endpoint patterns are literals. */
module Catalog {
  import opened Options
  import opened Strings
  import opened Regex
  import opened Seqs

  /** The detection categories, i.e. the `type` of a wrapper signal. */
  datatype Platform =
    | Webflow | Bubble | Wix | Squarespace | Zapier | Make
    | OpenaiDirect | Replicate | Boilerplate | ExposedApiKey
  {
    /** The tag the JSON result carries. */
    function Tag(): string {
      match this
      case Webflow => "webflow"
      case Bubble => "bubble"
      case Wix => "wix"
      case Squarespace => "squarespace"
      case Zapier => "zapier"
      case Make => "make"
      case OpenaiDirect => "openai_direct"
      case Replicate => "replicate"
      case Boilerplate => "boilerplate"
      case ExposedApiKey => "exposed_api_key"
    }
  }

  datatype Severity = Low | Medium | High | Critical {
    function Name(): string {
      match this
      case Low => "low"
      case Medium => "medium"
      case High => "high"
      case Critical => "critical"
    }
  }

  /** The frontend frameworks the script pass recognises. */
  datatype Framework = React | Vue | Angular | NextJs {
    function Name(): string {
      match this
      case React => "React"
      case Vue => "Vue"
      case Angular => "Angular"
      case NextJs => "Next.js"
    }

    /** The lower-case token of a script URL that reveals the framework. */
    function Token(): string {
      match this
      case React => "react"
      case Vue => "vue"
      case Angular => "angular"
      case NextJs => "next"
    }
  }

  /** `sk-[A-Za-z0-9]{48}`, i.e. `sk-` followed by 48 ASCII letters or
      digits: the shape of an OpenAI secret key. One catalog entry and the
      inline-script check share it. (The two special patterns are written as
      concatenations of their parts, the way the compile lemmas below take
      them apart.) */
  const ApiKeyPattern: string := "sk-" + "[A-Za-z0-9]{48}"

  /** `Authorization.*Bearer.*sk-`: the header shape listed under
      `openai_direct`. */
  const AuthHeaderPattern: string := "Authorization" + ".*" + "Bearer" + ".*" + "sk-"

  const WebflowPatterns: seq<string> :=
    ["webflow.com", "webflow.css", "webflow.js", "wf-page", "w-webflow-badge"]
  const BubblePatterns: seq<string> := ["bubble.io", "bubble.is", "bubbleapps.io", "bubble-element"]
  const WixPatterns: seq<string> := ["wix.com", "parastorage.com", "wixstatic.com"]
  const SquarespacePatterns: seq<string> := ["squarespace.com", "sqsp.com", "squarespace-cdn.com"]
  const ZapierPatterns: seq<string> := ["zapier.com/hooks", "hooks.zapier.com"]
  const MakePatterns: seq<string> := ["make.com/webhook", "integromat.com"]
  const OpenaiDirectPatterns: seq<string> :=
    ["api.openai.com/v1", "openai.com/api", ApiKeyPattern, AuthHeaderPattern]
  const ReplicatePatterns: seq<string> := ["replicate.com/api", "api.replicate.com"]
  const BoilerplatePatterns: seq<string> :=
    ["shipfast", "fastapi-template", "saas-starter", "nextjs-boilerplate"]

  /** Platform -> patterns, in the order the Python dict iterates them. */
  const WrapperPatterns: seq<(Platform, seq<string>)> := [
    (Webflow, WebflowPatterns), (Bubble, BubblePatterns), (Wix, WixPatterns),
    (Squarespace, SquarespacePatterns), (Zapier, ZapierPatterns), (Make, MakePatterns),
    (OpenaiDirect, OpenaiDirectPatterns), (Replicate, ReplicatePatterns),
    (Boilerplate, BoilerplatePatterns)
  ]

  /** Lower-case tokens whose presence in the page suggests custom code. */
  const CustomCodeIndicators: seq<string> :=
    ["webpack", "vite", "esbuild", "rollup", "custom", "api/v1", "graphql"]

  /** Tokens in a script URL that point at a bundler's output. */
  const BundlerTokens: seq<string> := ["webpack", "vite", "bundle", "chunk"]

  /** `a\.b\.c`: three words joined by escaped dots, as a pattern. */
  function EscapedHost(a: string, b: string, c: string): string {
    a + ("\\." + (b + ("\\." + c)))
  }

  /** `a.b.c`: three words joined by dots, as text. */
  function DottedHost(a: string, b: string, c: string): string {
    a + ("." + (b + ("." + c)))
  }

  /** The endpoint patterns searched in inline scripts, as written: the
      first four are `api\.openai\.com`, `api\.anthropic\.com`,
      `api\.replicate\.com` and `hooks\.zapier\.com`. */
  const ApiEndpointPatterns: seq<string> := [
    EscapedHost("api", "openai", "com"),
    EscapedHost("api", "anthropic", "com"),
    EscapedHost("api", "replicate", "com"),
    EscapedHost("hooks", "zapier", "com"),
    "/api/chat",
    "/api/generate"
  ]

  /** The literal text each endpoint pattern stands for. */
  const ApiEndpoints: seq<string> := [
    DottedHost("api", "openai", "com"),
    DottedHost("api", "anthropic", "com"),
    DottedHost("api", "replicate", "com"),
    DottedHost("hooks", "zapier", "com"),
    "/api/chat",
    "/api/generate"
  ]

  /** The catalog flattened to (platform, pattern) pairs in iteration order:
      the order of the nested `for platform, patterns ... for pattern`
      loops. */
  function Entries(cat: seq<(Platform, seq<string>)>): (es: seq<(Platform, string)>)
    ensures forall k :: 0 <= k < |es| ==> EntryOf(cat, es[k])
    ensures forall i, j :: 0 <= i < |cat| && 0 <= j < |cat[i].1| ==> (cat[i].0, cat[i].1[j]) in es
  {
    if cat == [] then []
    else
      var head := seq(|cat[0].1|, j requires 0 <= j < |cat[0].1| => (cat[0].0, cat[0].1[j]));
      var tail := Entries(cat[1..]);
      assert forall k :: 0 <= k < |tail| ==> tail[k] in (head + tail);
      forall k | 0 <= k < |head + tail| ensures EntryOf(cat, (head + tail)[k]) {
        if k < |head| {
          assert (head + tail)[k] == (cat[0].0, cat[0].1[k]);
        } else {
          assert EntryOf(cat[1..], tail[k - |head|]);
          var i, j :| 0 <= i < |cat[1..]| && 0 <= j < |cat[1..][i].1| && tail[k - |head|] == (cat[1..][i].0, cat[1..][i].1[j]);
          assert cat[1..][i] == cat[i + 1];
        }
      }
      forall i, j | 0 <= i < |cat| && 0 <= j < |cat[i].1| ensures (cat[i].0, cat[i].1[j]) in head + tail {
        if i == 0 {
          assert head[j] == (cat[i].0, cat[i].1[j]);
        } else {
          assert cat[1..][i - 1] == cat[i];
        }
      }
      head + tail
  }

  /** `e` is one (platform, pattern) pair of `cat`. */
  ghost predicate EntryOf(cat: seq<(Platform, seq<string>)>, e: (Platform, string)) {
    exists i, j :: 0 <= i < |cat| && 0 <= j < |cat[i].1| && e == (cat[i].0, cat[i].1[j])
  }

  /** The seven indicator words are distinct, so the HTML pass notes each
      at most once. */
  lemma CustomCodeIndicatorsDistinct()
    ensures NoDups(CustomCodeIndicators)
  {
    var xs := CustomCodeIndicators;
    assert xs[0][0] == 'w' && xs[1][0] == 'v' && xs[2][0] == 'e' && xs[3][0] == 'r';
    assert xs[4][0] == 'c' && xs[5][0] == 'a' && xs[6][0] == 'g';
  }

  /** The number of patterns in the rows of `cat`. */
  function RowsLength(cat: seq<(Platform, seq<string>)>): nat {
    if cat == [] then 0 else |cat[0].1| + RowsLength(cat[1..])
  }

  /** The number of patterns in the rows before row `i`. */
  function Offset(cat: seq<(Platform, seq<string>)>, i: nat): nat
    requires i <= |cat|
  {
    if i == 0 then 0 else |cat[0].1| + Offset(cat[1..], i - 1)
  }

  /** One pair per pattern: the flattening neither drops nor repeats. */
  lemma {:induction false} EntriesLength(cat: seq<(Platform, seq<string>)>)
    ensures |Entries(cat)| == RowsLength(cat)
  {
    if cat != [] {
      EntriesLength(cat[1..]);
    }
  }

  /** Row `i`'s patterns appear in their own order, after all the earlier
      rows' patterns and before all the later rows'. */
  lemma {:induction false} EntriesAt(cat: seq<(Platform, seq<string>)>, i: nat, j: nat)
    requires i < |cat| && j < |cat[i].1|
    ensures Offset(cat, i) + j < |Entries(cat)|
    ensures Entries(cat)[Offset(cat, i) + j] == (cat[i].0, cat[i].1[j])
  {
    var head := seq(|cat[0].1|, k requires 0 <= k < |cat[0].1| => (cat[0].0, cat[0].1[k]));
    assert Entries(cat) == head + Entries(cat[1..]);
    if i > 0 {
      assert cat[1..][i - 1] == cat[i];
      EntriesAt(cat[1..], i - 1, j);
    }
  }

  /** Every pattern of the catalog, each with its platform. */
  function CatalogEntries(): seq<(Platform, string)> {
    Entries(WrapperPatterns)
  }

  // ---------------------------------------------------------------------
  // What the patterns compile to

  const AlnumRanges: seq<(char, char)> := [('A', 'Z'), ('a', 'z'), ('0', '9')]

  lemma PlainWithoutDotIsLiteral(p: string)
    requires forall k :: 0 <= k < |p| ==> PlainChar(p[k])
    ensures IsPlainPattern(p) && PlainRegex(p) == LiteralRegex(p)
  {
  }

  /** The class body `A-Za-z0-9]` in front of any rest. */
  lemma ApiKeyClassBody(tail: string)
    ensures ParseClass(['A', '-', 'Z'] + (['a', '-', 'z'] + (['0', '-', '9'] + ([']'] + tail))), [])
         == Some((AlnumRanges, tail))
  {
    ParseClassRange('A', 'Z', ['a', '-', 'z'] + (['0', '-', '9'] + ([']'] + tail)), []);
    assert [] + [('A', 'Z')] == [('A', 'Z')];
    ParseClassRange('a', 'z', ['0', '-', '9'] + ([']'] + tail), [('A', 'Z')]);
    assert [('A', 'Z')] + [('a', 'z')] == [('A', 'Z'), ('a', 'z')];
    ParseClassRange('0', '9', [']'] + tail, [('A', 'Z'), ('a', 'z')]);
    assert [('A', 'Z'), ('a', 'z')] + [('0', '9')] == AlnumRanges;
    ParseClassClose(tail, AlnumRanges);
  }

  /** The count `48}` of the key shape. */
  lemma ApiKeyCount()
    ensures ParseCount(['4'] + (['8'] + ['}']), 0, 0) == Some((48, []))
  {
    ParseCountDigit('4', ['8'] + ['}'], 0, 0);
    ParseCountDigit('8', ['}'], 4, 1);
    ParseCountClose([], 48, 2);
    assert ['}'] + [] == ['}'];
  }

  lemma ApiKeyClassCompilesAt(s: string)
    requires s == ['['] + (['A', '-', 'Z'] + (['a', '-', 'z'] + (['0', '-', '9'] + ([']'] + (['{'] + (['4'] + (['8'] + ['}'])))))))
    ensures Parse(s) == Some(Repeat(Once(Class(AlnumRanges)), 48))
  {
    var count := ['4'] + (['8'] + ['}']);
    ApiKeyClassBody(['{'] + count);
    ApiKeyCount();
    ParseCountedClass(['A', '-', 'Z'] + (['a', '-', 'z'] + (['0', '-', '9'] + ([']'] + (['{'] + count)))), AlnumRanges, count, 48, []);
    var cls := Repeat(Once(Class(AlnumRanges)), 48);
    assert Parse([]) == Some([]);
    assert cls + [] == cls;
  }

  lemma ApiKeyClassCompiles()
    ensures Parse("[A-Za-z0-9]{48}") == Some(Repeat(Once(Class(AlnumRanges)), 48))
  {
    ApiKeyClassCompilesAt("[A-Za-z0-9]{48}");
  }

  /** Compiling `sk-` in front of an already compiled rest. */
  lemma SkPrefixCompiles(b: string, t: Regex)
    requires Parse(b) == Some(t) && !StartsQuantifier(b)
    ensures Parse("sk-" + b) == Some(LiteralRegex("sk-") + t)
  {
    PlainWithoutDotIsLiteral("sk-");
    ParsePlainPrefix("sk-", b);
  }

  /** The key shape compiles to `s`, `k`, `-` and 48 alphanumeric classes. */
  lemma ApiKeyPatternCompiles()
    ensures Parse(ApiKeyPattern) == Some(LiteralRegex("sk-") + Repeat(Once(Class(AlnumRanges)), 48))
  {
    ApiKeyClassCompiles();
    SkPrefixCompiles("[A-Za-z0-9]{48}", Repeat(Once(Class(AlnumRanges)), 48));
  }

  /** Compiling `.*` in front of an already compiled rest. */
  lemma DotStarCompiles(b: string, t: Regex)
    requires Parse(b) == Some(t)
    ensures Parse(".*" + b) == Some([Star(Dot)] + t)
  {
    ParseStar('.', b);
    assert ".*" + b == ['.', '*'] + b;
  }

  /** Compiling a plain word without dots in front of a compiled rest that
      does not start with a quantifier. */
  lemma WordCompiles(w: string, b: string, t: Regex)
    requires forall k :: 0 <= k < |w| ==> PlainChar(w[k])
    requires Parse(b) == Some(t) && !StartsQuantifier(b)
    ensures Parse(w + b) == Some(LiteralRegex(w) + t)
  {
    PlainWithoutDotIsLiteral(w);
    ParsePlainPrefix(w, b);
  }

  lemma BearerTailCompiles()
    ensures Parse(".*" + ("Bearer" + (".*" + "sk-"))) ==
      Some([Star(Dot)] + (LiteralRegex("Bearer") + ([Star(Dot)] + LiteralRegex("sk-"))))
  {
    var sk := LiteralRegex("sk-");
    WordCompiles("sk-", [], []);
    assert "sk-" + [] == "sk-" && sk + [] == sk;
    DotStarCompiles("sk-", sk);
    var t1 := [Star(Dot)] + sk;
    WordCompiles("Bearer", ".*" + "sk-", t1);
    DotStarCompiles("Bearer" + (".*" + "sk-"), LiteralRegex("Bearer") + t1);
  }

  /** Compiling `Authorization` in front of a compiled rest. */
  lemma AuthorizationPrefixCompiles(b: string, t: Regex)
    requires Parse(b) == Some(t) && !StartsQuantifier(b)
    ensures Parse("Authorization" + b) == Some(LiteralRegex("Authorization") + t)
  {
    WordCompiles("Authorization", b, t);
  }

  /** `Authorization.*Bearer.*sk-` compiled: the three words, each joined
      to the next by any run of characters other than newline. */
  function AuthHeaderRegex(): (r: Regex)
    ensures |r| == |"Authorization"| + 1 + |"Bearer"| + 1 + |"sk-"|
  {
    LiteralRegex("Authorization") + ([Star(Dot)] + (LiteralRegex("Bearer") + ([Star(Dot)] + LiteralRegex("sk-"))))
  }

  lemma HeaderWordsCompile()
    ensures Parse("Authorization" + (".*" + ("Bearer" + (".*" + "sk-")))) == Some(AuthHeaderRegex())
  {
    BearerTailCompiles();
    AuthorizationPrefixCompiles(".*" + ("Bearer" + (".*" + "sk-")),
      [Star(Dot)] + (LiteralRegex("Bearer") + ([Star(Dot)] + LiteralRegex("sk-"))));
  }

  lemma HeaderCompiles(p: string)
    requires p == "Authorization" + (".*" + ("Bearer" + (".*" + "sk-")))
    ensures Parse(p) == Some(AuthHeaderRegex())
  {
    HeaderWordsCompile();
  }

  /** The header shape compiles to its three words joined by `.*` pieces. */
  lemma AuthHeaderPatternCompiles()
    ensures Parse(AuthHeaderPattern) ==
      Some(LiteralRegex("Authorization") + [Star(Dot)] + LiteralRegex("Bearer") + [Star(Dot)] + LiteralRegex("sk-"))
  {
    HeaderCompiles(AuthHeaderPattern);
    var a, b, c := LiteralRegex("Authorization"), LiteralRegex("Bearer"), LiteralRegex("sk-");
    var d := [Star(Dot)];
    assert a + d + b + d + c == a + (d + (b + (d + c)));
  }

  /** The characters of a host name or URL path. */
  predicate UrlChar(c: char) {
    IsAlnum(c) || c == '-' || c == '/' || c == '.'
  }

  /** A pattern spelled like a host name or URL fragment: a plain pattern in
      which each `.` is the wildcard. */
  predicate IsUrlPattern(p: string) {
    forall k :: 0 <= k < |p| ==> UrlChar(p[k])
  }

  lemma UrlPatternIsPlain(p: string)
    requires IsUrlPattern(p)
    ensures IsPlainPattern(p)
  {
  }

  /** A row's patterns, other than the two special shapes, are URL-like. */
  predicate RowIsUrlLike(ps: seq<string>) {
    forall j :: 0 <= j < |ps| ==> ps[j] == ApiKeyPattern || ps[j] == AuthHeaderPattern || IsUrlPattern(ps[j])
  }

  /** A row all of whose patterns are URL-like. */
  lemma UrlRow(ps: seq<string>)
    requires forall j :: 0 <= j < |ps| ==> IsUrlPattern(ps[j])
    ensures RowIsUrlLike(ps)
  {
  }

  lemma WebflowRowIsUrlLike() ensures RowIsUrlLike(WebflowPatterns) {
    assert IsUrlPattern("webflow.com") && IsUrlPattern("webflow.css") && IsUrlPattern("webflow.js");
    assert IsUrlPattern("wf-page") && IsUrlPattern("w-webflow-badge");
    UrlRow(WebflowPatterns);
  }

  lemma BubbleRowIsUrlLike() ensures RowIsUrlLike(BubblePatterns) {
    assert IsUrlPattern("bubble.io") && IsUrlPattern("bubble.is");
    assert IsUrlPattern("bubbleapps.io") && IsUrlPattern("bubble-element");
    UrlRow(BubblePatterns);
  }

  lemma WixRowIsUrlLike() ensures RowIsUrlLike(WixPatterns) {
    assert IsUrlPattern("wix.com") && IsUrlPattern("parastorage.com") && IsUrlPattern("wixstatic.com");
    UrlRow(WixPatterns);
  }

  lemma SquarespaceRowIsUrlLike() ensures RowIsUrlLike(SquarespacePatterns) {
    assert IsUrlPattern("squarespace.com") && IsUrlPattern("sqsp.com") && IsUrlPattern("squarespace-cdn.com");
    UrlRow(SquarespacePatterns);
  }

  lemma ZapierRowIsUrlLike() ensures RowIsUrlLike(ZapierPatterns) {
    assert IsUrlPattern("zapier.com/hooks") && IsUrlPattern("hooks.zapier.com");
    UrlRow(ZapierPatterns);
  }

  lemma MakeRowIsUrlLike() ensures RowIsUrlLike(MakePatterns) {
    assert IsUrlPattern("make.com/webhook") && IsUrlPattern("integromat.com");
    UrlRow(MakePatterns);
  }

  lemma OpenaiDirectRowIsUrlLike() ensures RowIsUrlLike(OpenaiDirectPatterns) {
    assert IsUrlPattern("api.openai.com/v1") && IsUrlPattern("openai.com/api");
  }

  lemma ReplicateRowIsUrlLike() ensures RowIsUrlLike(ReplicatePatterns) {
    assert IsUrlPattern("replicate.com/api") && IsUrlPattern("api.replicate.com");
    UrlRow(ReplicatePatterns);
  }

  lemma BoilerplateRowIsUrlLike() ensures RowIsUrlLike(BoilerplatePatterns) {
    assert IsUrlPattern("shipfast") && IsUrlPattern("fastapi-template");
    assert IsUrlPattern("saas-starter") && IsUrlPattern("nextjs-boilerplate");
    UrlRow(BoilerplatePatterns);
  }

  lemma RowsAreUrlLike()
    ensures forall i :: 0 <= i < |WrapperPatterns| ==> RowIsUrlLike(WrapperPatterns[i].1)
  {
    WebflowRowIsUrlLike();
    BubbleRowIsUrlLike();
    WixRowIsUrlLike();
    SquarespaceRowIsUrlLike();
    ZapierRowIsUrlLike();
    MakeRowIsUrlLike();
    OpenaiDirectRowIsUrlLike();
    ReplicateRowIsUrlLike();
    BoilerplateRowIsUrlLike();
  }

  /** Every catalog pattern is one of the two special shapes or URL-like. */
  lemma CatalogPatternShapes()
    ensures forall e :: e in CatalogEntries() ==>
      e.1 == ApiKeyPattern || e.1 == AuthHeaderPattern || IsUrlPattern(e.1)
  {
    RowsAreUrlLike();
    forall e | e in CatalogEntries()
      ensures e.1 == ApiKeyPattern || e.1 == AuthHeaderPattern || IsUrlPattern(e.1)
    {
      assert EntryOf(WrapperPatterns, e);
      var i, j :| 0 <= i < |WrapperPatterns| && 0 <= j < |WrapperPatterns[i].1| && e == (WrapperPatterns[i].0, WrapperPatterns[i].1[j]);
      assert RowIsUrlLike(WrapperPatterns[i].1);
    }
  }

  /** No catalog entry is tagged `exposed_api_key`: that tag belongs to the
      inline key check alone. */
  lemma CatalogKinds()
    ensures forall e :: e in CatalogEntries() ==> e.0 != ExposedApiKey
  {
    forall e | e in CatalogEntries() ensures e.0 != ExposedApiKey {
      assert EntryOf(WrapperPatterns, e);
    }
  }

  /** Every pattern of the catalog compiles, so the HTML pass never meets a
      pattern outside the supported fragment. */
  lemma CatalogCompiles()
    ensures forall e :: e in CatalogEntries() ==> Parse(e.1).Some?
  {
    ApiKeyPatternCompiles();
    AuthHeaderPatternCompiles();
    CatalogPatternShapes();
    forall e | e in CatalogEntries() ensures Parse(e.1).Some? {
      if IsUrlPattern(e.1) {
        UrlPatternIsPlain(e.1);
        PlainParses(e.1);
      }
    }
  }

  /** The two special patterns hold upper-case letters (`A` of `A-Z`, the
      `A` of `Authorization`), so a test against lower-cased text never
      finds them. */
  lemma SpecialPatternsHaveUpper()
    ensures HasUpper(ApiKeyPattern) && HasUpper(AuthHeaderPattern)
  {
    assert IsUpper(ApiKeyPattern[4]);
    assert IsUpper(AuthHeaderPattern[0]);
  }

  /** A word without dots or other pattern syntax. */
  predicate IsWord(w: string) {
    forall k :: 0 <= k < |w| ==> PlainChar(w[k])
  }

  lemma EscapedDotCompiles(b: string, t: Regex)
    requires Parse(b) == Some(t)
    requires !StartsQuantifier(b)
    ensures Parse("\\." + b) == Some([Once(Lit('.'))] + t)
  {
    ParseEscape('.', b);
    assert "\\." + b == ['\\', '.'] + b;
  }

  lemma LiteralRegexAppend(a: string, b: string)
    ensures LiteralRegex(a + b) == LiteralRegex(a) + LiteralRegex(b)
  {
  }

  /** A word in front of a compiled literal extends the literal. */
  lemma WordThenLiteral(w: string, b: string, lit: string)
    requires IsWord(w) && Parse(b) == Some(LiteralRegex(lit)) && !StartsQuantifier(b)
    ensures Parse(w + b) == Some(LiteralRegex(w + lit))
  {
    WordCompiles(w, b, LiteralRegex(lit));
    LiteralRegexAppend(w, lit);
  }

  /** An escaped dot in front of a compiled literal adds a literal dot. */
  lemma EscapedDotThenLiteral(b: string, lit: string)
    requires Parse(b) == Some(LiteralRegex(lit)) && !StartsQuantifier(b)
    ensures Parse("\\." + b) == Some(LiteralRegex("." + lit))
  {
    EscapedDotCompiles(b, LiteralRegex(lit));
    LiteralRegexAppend(".", lit);
    assert LiteralRegex(".") == [Once(Lit('.'))];
  }

  lemma WordCompilesToLiteral(w: string)
    requires IsWord(w)
    ensures Parse(w) == Some(LiteralRegex(w))
  {
    PlainWithoutDotIsLiteral(w);
    PlainParses(w);
  }

  lemma EscapedDotWordCompiles(b: string, c: string)
    requires IsWord(b) && IsWord(c) && |c| > 0
    ensures Parse(b + ("\\." + c)) == Some(LiteralRegex(b + ("." + c)))
  {
    WordCompilesToLiteral(c);
    EscapedDotThenLiteral(c, c);
    WordThenLiteral(b, "\\." + c, "." + c);
  }

  /** Three words joined by escaped dots compile to the words joined by
      literal dots. */
  lemma EscapedHostCompiles(a: string, b: string, c: string)
    requires IsWord(a) && IsWord(b) && IsWord(c) && |b| > 0 && |c| > 0
    ensures Parse(EscapedHost(a, b, c)) == Some(LiteralRegex(DottedHost(a, b, c)))
  {
    EscapedDotWordCompiles(b, c);
    EscapedDotThenLiteral(b + ("\\." + c), b + ("." + c));
    WordThenLiteral(a, "\\." + (b + ("\\." + c)), "." + (b + ("." + c)));
  }

  lemma OpenaiEndpointCompiles()
    ensures Parse(ApiEndpointPatterns[0]) == Some(LiteralRegex(ApiEndpoints[0]))
  {
    EscapedHostCompiles("api", "openai", "com");
  }

  lemma AnthropicEndpointCompiles()
    ensures Parse(ApiEndpointPatterns[1]) == Some(LiteralRegex(ApiEndpoints[1]))
  {
    EscapedHostCompiles("api", "anthropic", "com");
  }

  lemma ReplicateEndpointCompiles()
    ensures Parse(ApiEndpointPatterns[2]) == Some(LiteralRegex(ApiEndpoints[2]))
  {
    EscapedHostCompiles("api", "replicate", "com");
  }

  lemma ZapierEndpointCompiles()
    ensures Parse(ApiEndpointPatterns[3]) == Some(LiteralRegex(ApiEndpoints[3]))
  {
    EscapedHostCompiles("hooks", "zapier", "com");
  }

  lemma ChatEndpointCompiles()
    ensures Parse(ApiEndpointPatterns[4]) == Some(LiteralRegex(ApiEndpoints[4]))
  {
    WordCompilesToLiteral(ApiEndpointPatterns[4]);
  }

  lemma GenerateEndpointCompiles()
    ensures Parse(ApiEndpointPatterns[5]) == Some(LiteralRegex(ApiEndpoints[5]))
  {
    WordCompilesToLiteral(ApiEndpointPatterns[5]);
  }

  /** Pattern `k` of `pats` compiles to the literal `lits[k]`, for every `k`. */
  ghost predicate CompilesToLiterals(pats: seq<string>, lits: seq<string>) {
    |pats| == |lits| && forall k :: 0 <= k < |pats| ==> Parse(pats[k]) == Some(LiteralRegex(lits[k]))
  }

  /** Each endpoint pattern compiles to the literal it stands for. */
  lemma ApiEndpointsCompile()
    ensures CompilesToLiterals(ApiEndpointPatterns, ApiEndpoints)
  {
    forall k | 0 <= k < |ApiEndpointPatterns|
      ensures Parse(ApiEndpointPatterns[k]) == Some(LiteralRegex(ApiEndpoints[k]))
    {
      if k == 0 {
        OpenaiEndpointCompiles();
      } else if k == 1 {
        AnthropicEndpointCompiles();
      } else if k == 2 {
        ReplicateEndpointCompiles();
      } else if k == 3 {
        ZapierEndpointCompiles();
      } else if k == 4 {
        ChatEndpointCompiles();
      } else {
        GenerateEndpointCompiles();
      }
    }
  }
}
