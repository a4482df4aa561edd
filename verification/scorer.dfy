/** The scorer (`_calculate_verdict`): a severity-weighted wrapper score, a
    custom-code score, and the three-way decision between them. */
module Scorer {
  import opened Seqs
  import opened Catalog
  import opened Evidence

  datatype Verdict = WrapperConfirmed | WrapperSus | NotWrapper {
    /** The string the result carries. */
    function Label(): string {
      match this
      case WrapperConfirmed => "Wrapper Confirmed"
      case WrapperSus => "Wrapper Sus"
      case NotWrapper => "NotWrapper"
    }

    /** How strongly the verdict says "wrapper". */
    function Rank(): nat {
      match this
      case WrapperConfirmed => 2
      case WrapperSus => 1
      case NotWrapper => 0
    }
  }

  datatype Assessment = Assessment(verdict: Verdict, confidence: nat)

  /** Points per signal: critical 30, high 20, medium 10, anything else 0. */
  function Weight(s: Severity): nat {
    match s
    case Critical => 30
    case High => 20
    case Medium => 10
    case Low => 0
  }

  /** The sum of the weights of the signals, added up from the front. */
  function WrapperScore(ws: seq<Signal>): (n: nat)
    ensures n <= 30 * |ws|
    ensures (forall k :: 0 <= k < |ws| ==> ws[k].severity != Low) ==> 10 * |ws| <= n
    decreases |ws|
  {
    if ws == [] then 0
    else
      var init := ws[..|ws| - 1];
      assert forall k :: 0 <= k < |init| ==> init[k] == ws[k];
      WrapperScore(init) + Weight(ws[|ws| - 1].severity)
  }

  /** The number of signals of severity `s`. */
  function CountOf(ws: seq<Signal>, s: Severity): nat {
    |Filter(ws, (x: Signal) => x.severity == s)|
  }

  /** Scores add up over concatenated signal lists. */
  lemma {:induction false} WrapperScoreAppend(a: seq<Signal>, b: seq<Signal>)
    ensures WrapperScore(a + b) == WrapperScore(a) + WrapperScore(b)
    decreases |b|
  {
    if b != [] {
      var b' := b[..|b| - 1];
      assert (a + b)[..|a + b| - 1] == a + b';
      assert (a + b)[|a + b| - 1] == b[|b| - 1];
      WrapperScoreAppend(a, b');
    } else {
      assert a + b == a;
    }
  }

  lemma {:induction false} CountOfAppend(a: seq<Signal>, b: seq<Signal>, s: Severity)
    ensures CountOf(a + b, s) == CountOf(a, s) + CountOf(b, s)
  {
    FilterAppend(a, b, (x: Signal) => x.severity == s);
  }

  /** The wrapper score is 30 per critical, 20 per high and 10 per medium
      signal. */
  lemma {:induction false} WrapperScoreByCounts(ws: seq<Signal>)
    ensures WrapperScore(ws) == 30 * CountOf(ws, Critical) + 20 * CountOf(ws, High) + 10 * CountOf(ws, Medium)
    decreases |ws|
  {
    if ws != [] {
      var init := ws[..|ws| - 1];
      var last := ws[|ws| - 1];
      assert ws == init + [last];
      WrapperScoreByCounts(init);
      CountOfAppend(init, [last], Critical);
      CountOfAppend(init, [last], High);
      CountOfAppend(init, [last], Medium);
      assert [last][1..] == [];
    }
  }

  /** The loop of the source: walk the signals and add each weight. */
  method TallyWrapperScore(ws: seq<Signal>) returns (score: nat)
    ensures score == WrapperScore(ws)
    ensures score == 30 * CountOf(ws, Critical) + 20 * CountOf(ws, High) + 10 * CountOf(ws, Medium)
  {
    score := 0;
    var i := 0;
    while i < |ws|
      invariant 0 <= i <= |ws|
      invariant score == WrapperScore(ws[..i])
    {
      assert ws[..i + 1][..i] == ws[..i];
      score := score + Weight(ws[i].severity);
      i := i + 1;
    }
    assert ws[..|ws|] == ws;
    WrapperScoreByCounts(ws);
  }

  /** Ten per custom-code note, fifteen per detected framework, and ten more
      when more than three endpoint matches were recorded (repeats count). */
  function CustomScore(rc: Receipts): (n: nat)
    ensures n >= 10 * |rc.customCodeSignals| + 15 * |rc.detectedFrameworks|
    ensures n <= 10 * |rc.customCodeSignals| + 15 * |rc.detectedFrameworks| + 10
    ensures |rc.apiEndpointsFound| <= 3 ==> n == 10 * |rc.customCodeSignals| + 15 * |rc.detectedFrameworks|
    ensures |rc.apiEndpointsFound| > 3 ==> n == 10 * |rc.customCodeSignals| + 15 * |rc.detectedFrameworks| + 10
  {
    10 * |rc.customCodeSignals| + 15 * |rc.detectedFrameworks|
    + (if |rc.apiEndpointsFound| > 3 then 10 else 0)
  }

  function Min(a: int, b: int): int {
    if a <= b then a else b
  }

  /** The decision on the two scores. The source's fractions
      `wrapper / total > 0.7` and `> 0.4` are compared exactly, as
      `10 * wrapper > 7 * total` and `10 * wrapper > 4 * total`. */
  function Decide(wrapper: nat, custom: nat): (a: Assessment)
    // No evidence at all is suspicious at fixed confidence.
    ensures wrapper + custom == 0 ==> a == Assessment(WrapperSus, 50)
    // Confidence stays within [50, 95]; a suspicion is never above 85 and
    // a firm verdict never below 60.
    ensures 50 <= a.confidence <= 95
    ensures a.verdict == WrapperSus ==> a.confidence <= 85
    ensures a.verdict != WrapperSus ==> a.confidence >= 60
    // Confirmed: a wrapper share above 70% or more than 50 wrapper points.
    ensures a.verdict == WrapperConfirmed <==> wrapper + custom > 0 && (10 * wrapper > 7 * (wrapper + custom) || wrapper > 50)
    // Not a wrapper: a share of at most 40%, at most 50 points, and either
    // no wrapper evidence or at least 20 custom points.
    ensures a.verdict == NotWrapper <==>
      wrapper + custom > 0 && wrapper <= 50 && 10 * wrapper <= 4 * (wrapper + custom) && (wrapper == 0 || custom >= 20)
    ensures a.verdict == WrapperConfirmed ==> a.confidence == Min(95, 60 + wrapper)
    ensures a.verdict == NotWrapper ==> a.confidence == Min(95, 60 + custom)
    ensures a.verdict == WrapperSus && wrapper + custom > 0 ==> a.confidence == Min(85, 50 + wrapper)
  {
    var total := wrapper + custom;
    if total == 0 then Assessment(WrapperSus, 50)
    else if 10 * wrapper > 7 * total || wrapper > 50 then Assessment(WrapperConfirmed, Min(95, 60 + wrapper))
    else if 10 * wrapper > 4 * total || (wrapper > 0 && custom < 20) then Assessment(WrapperSus, Min(85, 50 + wrapper))
    else Assessment(NotWrapper, Min(95, 60 + custom))
  }

  /** `_calculate_verdict` on the receipts. */
  function CalculateVerdict(rc: Receipts): (a: Assessment)
    ensures 50 <= a.confidence <= 95
    ensures WrapperScore(rc.wrapperSignals) > 50 ==> a.verdict == WrapperConfirmed
    ensures rc.wrapperSignals == [] && (rc.customCodeSignals != [] || rc.detectedFrameworks != []) ==> a.verdict == NotWrapper
    ensures rc.wrapperSignals == [] && rc.customCodeSignals == [] && rc.detectedFrameworks == [] && |rc.apiEndpointsFound| <= 3
      ==> a == Assessment(WrapperSus, 50)
  {
    Decide(WrapperScore(rc.wrapperSignals), CustomScore(rc))
  }

  /** More wrapper points never weaken the verdict. */
  lemma WrapperMonotone(w1: nat, w2: nat, custom: nat)
    requires w1 <= w2
    ensures Decide(w1, custom).verdict.Rank() <= Decide(w2, custom).verdict.Rank()
  {
  }

  /** More custom points never strengthen the verdict. */
  lemma CustomMonotone(wrapper: nat, c1: nat, c2: nat)
    requires c1 <= c2
    ensures Decide(wrapper, c2).verdict.Rank() <= Decide(wrapper, c1).verdict.Rank()
  {
  }

  /** One critical signal alone carries 30 points. */
  lemma {:induction false} CriticalWeighsThirty(ws: seq<Signal>)
    requires exists k :: 0 <= k < |ws| && ws[k].severity == Critical
    ensures WrapperScore(ws) >= 30
  {
    var k :| 0 <= k < |ws| && ws[k].severity == Critical;
    assert ws[k] in Filter(ws, (x: Signal) => x.severity == Critical);
    WrapperScoreByCounts(ws);
  }

  /** Recording one more wrapper signal never weakens the verdict. */
  lemma MoreSignalsNeverWeaken(rc: Receipts, s: Signal)
    ensures CalculateVerdict(rc).verdict.Rank() <= CalculateVerdict(rc.(wrapperSignals := rc.wrapperSignals + [s])).verdict.Rank()
  {
    var rc' := rc.(wrapperSignals := rc.wrapperSignals + [s]);
    WrapperScoreAppend(rc.wrapperSignals, [s]);
    assert CustomScore(rc') == CustomScore(rc);
    WrapperMonotone(WrapperScore(rc.wrapperSignals), WrapperScore(rc'.wrapperSignals), CustomScore(rc));
  }

  /** Each further framework adds fifteen points and each further note
      ten; a further endpoint adds ten only when it is the fourth. The
      wrapper signals play no part. */
  lemma CustomScoreSteps(rc: Receipts, f: Framework, note: string, x: string, ws: seq<Signal>)
    ensures CustomScore(rc.(wrapperSignals := ws)) == CustomScore(rc)
    ensures CustomScore(rc.(detectedFrameworks := rc.detectedFrameworks + [f])) == CustomScore(rc) + 15
    ensures CustomScore(rc.(customCodeSignals := rc.customCodeSignals + [note])) == CustomScore(rc) + 10
    ensures CustomScore(rc.(apiEndpointsFound := rc.apiEndpointsFound + [x])) ==
      CustomScore(rc) + (if |rc.apiEndpointsFound| == 3 then 10 else 0)
  {
  }

  /** Recording one more custom-code note never strengthens the verdict. */
  lemma MoreCustomCodeNeverStrengthens(rc: Receipts, note: string)
    ensures CalculateVerdict(rc.(customCodeSignals := rc.customCodeSignals + [note])).verdict.Rank() <= CalculateVerdict(rc).verdict.Rank()
  {
    var rc' := rc.(customCodeSignals := rc.customCodeSignals + [note]);
    CustomMonotone(WrapperScore(rc.wrapperSignals), CustomScore(rc), CustomScore(rc'));
  }
}
