/** The stack profiler (`_build_stack_dna`): a guess at the frontend
    framework and backend runtime, the distinct frameworks and platforms
    seen, and the "custom ML" heuristic, all read off the receipts. */
module StackProfiler {
  import opened Options
  import opened Strings
  import opened Seqs
  import opened Catalog
  import opened Evidence
  import opened Scorer

  /** The backend runtimes the profiler can name. */
  datatype Runtime = NodeJs | Python {
    function Name(): string {
      match this
      case NodeJs => "Node.js"
      case Python => "Python"
    }

    /** The token a custom-code note must contain to suggest the runtime. */
    function Token(): string {
      match this
      case NodeJs => "node"
      case Python => "python"
    }
  }

  /** The stack profile. `None` stands for `"Unknown"`. A full profile comes
      from an analysis; the degraded one of a failed analysis carries only
      the three summary fields. */
  datatype StackDna =
    | Profile(frontend: Option<Framework>, backend: Option<Runtime>, frameworks: seq<Framework>,
              hasCustomMl: bool, wrapperPlatforms: seq<Platform>)
    | Summary(frontend: Option<Framework>, backend: Option<Runtime>, hasCustomMl: bool)

  /** Some note, lower-cased, contains `token`. */
  function AnyMentions(notes: seq<string>, token: string): (b: bool)
    ensures b <==> exists i :: 0 <= i < |notes| && Contains(Lower(notes[i]), token)
  {
    if notes == [] then false
    else
      assert forall i :: 1 <= i < |notes| ==> notes[1..][i - 1] == notes[i];
      Contains(Lower(notes[0]), token) || AnyMentions(notes[1..], token)
  }

  /** Node.js wins over Python; neither mentioned means unknown. */
  function Backend(notes: seq<string>): (r: Option<Runtime>)
    ensures r == Some(NodeJs) <==> exists i :: 0 <= i < |notes| && Contains(Lower(notes[i]), NodeJs.Token())
    ensures r == Some(Python) <==>
      (forall i :: 0 <= i < |notes| ==> !Contains(Lower(notes[i]), NodeJs.Token())) &&
      exists i :: 0 <= i < |notes| && Contains(Lower(notes[i]), Python.Token())
  {
    if AnyMentions(notes, NodeJs.Token()) then Some(NodeJs)
    else if AnyMentions(notes, Python.Token()) then Some(Python)
    else None
  }

  /** A non-empty framework list holds one of the four frameworks. */
  lemma SomeFramework(fs: seq<Framework>)
    requires fs != []
    ensures React in fs || Vue in fs || Angular in fs || NextJs in fs
  {
    assert fs[0] in fs;
    match fs[0]
    case React =>
    case Vue =>
    case Angular =>
    case NextJs =>
  }

  /** React (also for Next.js), then Vue, then Angular. */
  function Frontend(fs: seq<Framework>): (r: Option<Framework>)
    ensures r.None? <==> fs == []
    ensures r != Some(NextJs)
    ensures r == Some(React) <==> React in fs || NextJs in fs
    ensures r.Some? && r.value != React ==> r.value in fs
    ensures r == Some(Angular) ==> Vue !in fs
  {
    assert fs != [] ==> React in fs || Vue in fs || Angular in fs || NextJs in fs by {
      if fs != [] {
        SomeFramework(fs);
      }
    }
    if React in fs || NextJs in fs then Some(React)
    else if Vue in fs then Some(Vue)
    else if Angular in fs then Some(Angular)
    else
      None
  }

  /** The platform tags of the signals, each once. */
  function WrapperPlatforms(ws: seq<Signal>): (r: seq<Platform>)
    ensures NoDups(r)
    ensures forall p :: p in r <==> exists i :: 0 <= i < |ws| && ws[i].kind == p
  {
    var kinds := seq(|ws|, i requires 0 <= i < |ws| => ws[i].kind);
    assert forall i :: 0 <= i < |ws| ==> kinds[i] == ws[i].kind;
    Dedup(kinds)
  }

  /** `_build_stack_dna`. */
  function BuildStackDna(rc: Receipts): (d: StackDna)
    ensures d.Profile?
    ensures NoDups(d.frameworks) && forall f :: f in d.frameworks <==> f in rc.detectedFrameworks
    ensures d.frontend == Frontend(d.frameworks)
    ensures d.backend == Backend(rc.customCodeSignals)
    ensures d.hasCustomMl <==> rc.wrapperSignals == [] && |rc.customCodeSignals| > 3
    ensures NoDups(d.wrapperPlatforms)
    ensures forall p :: p in d.wrapperPlatforms <==> exists i :: 0 <= i < |rc.wrapperSignals| && rc.wrapperSignals[i].kind == p
  {
    var frameworks := Dedup(rc.detectedFrameworks);
    Profile(
      Frontend(frameworks),
      Backend(rc.customCodeSignals),
      frameworks,
      |rc.wrapperSignals| == 0 && |rc.customCodeSignals| > 3,
      WrapperPlatforms(rc.wrapperSignals))
  }

  /** The frontend guess depends only on which frameworks occur, not on
      their order or repetition, so the unspecified order of
      `list(set(...))` cannot change it. */
  lemma FrontendIgnoresOrder(a: seq<Framework>, b: seq<Framework>)
    requires forall f :: f in a <==> f in b
    ensures Frontend(a) == Frontend(b)
  {
  }

  /** The profile's frontend is the one of the raw, undeduplicated list. */
  lemma ProfileFrontend(rc: Receipts)
    ensures BuildStackDna(rc).frontend == Frontend(rc.detectedFrameworks)
  {
    FrontendIgnoresOrder(BuildStackDna(rc).frameworks, rc.detectedFrameworks);
  }

  /** Profiling an already distinct framework list keeps every framework
      once: the profile's list is a permutation of it, in whatever order
      the set yields. */
  lemma DistinctFrameworksKept(rc: Receipts)
    requires NoDups(rc.detectedFrameworks)
    ensures multiset(BuildStackDna(rc).frameworks) == multiset(rc.detectedFrameworks)
  {
    DistinctSameElements(BuildStackDna(rc).frameworks, rc.detectedFrameworks);
  }

  /** When the profiler flags custom ML (no wrapper signal, more than three
      custom-code notes), the scorer has decided "NotWrapper" at its
      highest confidence. */
  lemma CustomMlMeansNotWrapper(rc: Receipts)
    requires BuildStackDna(rc).hasCustomMl
    ensures CalculateVerdict(rc) == Assessment(NotWrapper, 95)
  {
    assert WrapperScore(rc.wrapperSignals) == 0;
  }
}
