/** The receipts: the evidence record the extractors fill in while reading
    a page and the scorer and the stack profiler read afterwards. */
module Evidence {
  import opened Catalog

  /** One wrapper signal: the platform it points at, what matched (a
      pattern or a label such as `Script: <src>`), and how strongly. */
  datatype Signal = Signal(kind: Platform, pattern: string, severity: Severity)

  /** The five lists of the receipts dictionary, in its key order. */
  datatype Receipts = Receipts(
    detectedFrameworks: seq<Framework>,
    suspiciousPatterns: seq<string>,
    apiEndpointsFound: seq<string>,
    wrapperSignals: seq<Signal>,
    customCodeSignals: seq<string>)

  /** The receipts before any pass has run. */
  const EmptyReceipts: Receipts := Receipts([], [], [], [], [])

  /** `b` is `a` with entries appended to its lists and nothing removed or
      rewritten: what every pass does to the receipts. */
  predicate Extends(a: Receipts, b: Receipts) {
    && |a.detectedFrameworks| <= |b.detectedFrameworks| && b.detectedFrameworks[..|a.detectedFrameworks|] == a.detectedFrameworks
    && |a.suspiciousPatterns| <= |b.suspiciousPatterns| && b.suspiciousPatterns[..|a.suspiciousPatterns|] == a.suspiciousPatterns
    && |a.apiEndpointsFound| <= |b.apiEndpointsFound| && b.apiEndpointsFound[..|a.apiEndpointsFound|] == a.apiEndpointsFound
    && |a.wrapperSignals| <= |b.wrapperSignals| && b.wrapperSignals[..|a.wrapperSignals|] == a.wrapperSignals
    && |a.customCodeSignals| <= |b.customCodeSignals| && b.customCodeSignals[..|a.customCodeSignals|] == a.customCodeSignals
  }

  lemma ExtendsTransitive(a: Receipts, b: Receipts, c: Receipts)
    requires Extends(a, b) && Extends(b, c)
    ensures Extends(a, c)
  {
    assert c.wrapperSignals[..|a.wrapperSignals|] == c.wrapperSignals[..|b.wrapperSignals|][..|a.wrapperSignals|];
    assert c.customCodeSignals[..|a.customCodeSignals|] == c.customCodeSignals[..|b.customCodeSignals|][..|a.customCodeSignals|];
    assert c.detectedFrameworks[..|a.detectedFrameworks|] == c.detectedFrameworks[..|b.detectedFrameworks|][..|a.detectedFrameworks|];
    assert c.apiEndpointsFound[..|a.apiEndpointsFound|] == c.apiEndpointsFound[..|b.apiEndpointsFound|][..|a.apiEndpointsFound|];
    assert c.suspiciousPatterns[..|a.suspiciousPatterns|] == c.suspiciousPatterns[..|b.suspiciousPatterns|][..|a.suspiciousPatterns|];
  }
}
