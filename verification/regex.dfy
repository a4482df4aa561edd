/** The fragment of Python's `re` that the detector's patterns use: literal
    characters, escaped punctuation (`\.`), the wildcard `.`, character
    classes of ranges (`[A-Za-z0-9]`), the greedy star `*` and the exact
    repeat `{n}`. `Parse` compiles a pattern (anything outside the fragment
    is rejected), `FirstEnd` is the backtracking matcher, `MatchesSpan` the
    declarative meaning it is proved against, and `Search` / `FindAll` are
    `re.search` / `re.findall`. The `ignoreCase` flag is `re.IGNORECASE`
    restricted to ASCII letters. */
module Regex {
  import opened Options
  import opened Strings

  /** One character position of a pattern. */
  datatype Atom =
    | Lit(c: char)                      // a literal or escaped character
    | Dot                               // `.`: any character but a newline
    | Class(ranges: seq<(char, char)>)  // `[...]`: inclusive ranges

  datatype Piece = Once(atom: Atom) | Star(atom: Atom)

  type Regex = seq<Piece>

  predicate InRanges(rs: seq<(char, char)>, c: char) {
    exists k :: 0 <= k < |rs| && rs[k].0 <= c <= rs[k].1
  }

  /** Whether `a` accepts the character `c`. */
  predicate Accepts(a: Atom, c: char, ignoreCase: bool) {
    match a
    case Lit(d) => if ignoreCase then LowerChar(c) == LowerChar(d) else c == d
    case Dot => c != '\n'
    case Class(rs) =>
      InRanges(rs, c) || (ignoreCase && (InRanges(rs, LowerChar(c)) || InRanges(rs, UpperChar(c))))
  }

  // ---------------------------------------------------------------------
  // Compiling a pattern

  /** Characters that cannot stand for themselves outside a class. */
  const Specials: string := "^$*+?{|()"

  /** Reads a class body after its `[`, up to and including the `]`. */
  function ParseClass(s: string, acc: seq<(char, char)>): (r: Option<(seq<(char, char)>, string)>)
    ensures r.Some? ==> |r.value.1| < |s| && |r.value.0| > 0
    decreases |s|
  {
    if s == [] || s[0] == '\\' || (acc == [] && s[0] == '^') then None
    else if s[0] == ']' then
      if acc == [] then None else Some((acc, s[1..]))
    else if |s| >= 3 && s[1] == '-' && s[2] != ']' then
      if s[2] != '\\' && s[0] <= s[2] then ParseClass(s[3..], acc + [(s[0], s[2])]) else None
    else ParseClass(s[1..], acc + [(s[0], s[0])])
  }

  /** Reads one atom at the front of `s`, returning it with the unread rest. */
  function ParseAtom(s: string): (r: Option<(Atom, string)>)
    ensures r.Some? ==> |r.value.1| < |s|
  {
    if s == [] then None
    else if s[0] == '.' then Some((Dot, s[1..]))
    else if s[0] == '\\' then
      if |s| >= 2 && !IsAlnum(s[1]) then Some((Lit(s[1]), s[2..])) else None
    else if s[0] == '[' then
      match ParseClass(s[1..], [])
      case None => None
      case Some((rs, rest)) => Some((Class(rs), rest))
    else if s[0] in Specials then None
    else Some((Lit(s[0]), s[1..]))
  }

  /** Reads the decimal count of a `{n}` after its `{`, up to and including
      the `}`; `n` and `digits` accumulate the value and the digits read. */
  function ParseCount(s: string, n: nat, digits: nat): (r: Option<(nat, string)>)
    ensures r.Some? ==> |r.value.1| < |s|
    decreases |s|
  {
    if s == [] then None
    else if IsDigit(s[0]) then ParseCount(s[1..], n * 10 + (s[0] as int - '0' as int), digits + 1)
    else if s[0] == '}' && digits > 0 then Some((n, s[1..]))
    else None
  }

  /** `n` copies of one piece. */
  function Repeat(p: Piece, n: nat): (r: Regex)
    ensures |r| == n
    ensures forall k :: 0 <= k < n ==> r[k] == p
  {
    seq(n, _ => p)
  }

  /** `re.compile` on the supported fragment; `None` for any other syntax. */
  function Parse(s: string): (r: Option<Regex>)
    decreases |s|
  {
    if s == [] then Some([])
    else match ParseAtom(s)
      case None => None
      case Some((a, rest)) =>
        if rest != [] && rest[0] == '*' then
          match Parse(rest[1..])
          case None => None
          case Some(tail) => Some([Star(a)] + tail)
        else if rest != [] && rest[0] == '{' then
          match ParseCount(rest[1..], 0, 0)
          case None => None
          case Some((n, after)) =>
            match Parse(after)
            case None => None
            case Some(tail) => Some(Repeat(Once(a), n) + tail)
        else
          match Parse(rest)
          case None => None
          case Some(tail) => Some([Once(a)] + tail)
  }

  // ---------------------------------------------------------------------
  // Matching

  /** Declarative meaning: `r` matches exactly the text `t[i..j]`. */
  predicate MatchesSpan(r: Regex, t: string, i: nat, j: nat, ignoreCase: bool)
    requires i <= j <= |t|
    decreases |r|, j - i
  {
    if r == [] then i == j
    else match r[0]
      case Once(a) =>
        i < j && Accepts(a, t[i], ignoreCase) && MatchesSpan(r[1..], t, i + 1, j, ignoreCase)
      case Star(a) =>
        || MatchesSpan(r[1..], t, i, j, ignoreCase)
        || (i < j && Accepts(a, t[i], ignoreCase) && MatchesSpan(r, t, i + 1, j, ignoreCase))
  }

  /** The backtracking matcher anchored at `i`: the end of the first match
      found when every star first takes one more character (greedy), the
      order in which Python's engine tries the alternatives. */
  function FirstEnd(r: Regex, t: string, i: nat, ignoreCase: bool): (e: Option<nat>)
    requires i <= |t|
    ensures e.Some? ==> i <= e.value <= |t| && MatchesSpan(r, t, i, e.value, ignoreCase)
    decreases |r|, |t| - i
  {
    if r == [] then Some(i)
    else match r[0]
      case Once(a) =>
        if i < |t| && Accepts(a, t[i], ignoreCase) then FirstEnd(r[1..], t, i + 1, ignoreCase) else None
      case Star(a) =>
        var more := if i < |t| && Accepts(a, t[i], ignoreCase) then FirstEnd(r, t, i + 1, ignoreCase) else None;
        if more.Some? then more else FirstEnd(r[1..], t, i, ignoreCase)
  }

  /** The matcher misses nothing: whenever some span starting at `i`
      matches, `FirstEnd` finds a match there. */
  lemma {:induction false} FirstEndComplete(r: Regex, t: string, i: nat, j: nat, ignoreCase: bool)
    requires i <= j <= |t| && MatchesSpan(r, t, i, j, ignoreCase)
    ensures FirstEnd(r, t, i, ignoreCase).Some?
    decreases |r|, j - i
  {
    if r != [] {
      match r[0]
      case Once(a) =>
        FirstEndComplete(r[1..], t, i + 1, j, ignoreCase);
      case Star(a) =>
        if MatchesSpan(r[1..], t, i, j, ignoreCase) {
          FirstEndComplete(r[1..], t, i, j, ignoreCase);
        } else {
          FirstEndComplete(r, t, i + 1, j, ignoreCase);
        }
    }
  }

  /** Some span of `t` at or after `pos` matches `r`. */
  ghost predicate MatchesFrom(r: Regex, t: string, pos: nat, ignoreCase: bool) {
    exists i, j :: pos <= i <= j <= |t| && MatchesSpan(r, t, i, j, ignoreCase)
  }

  /** `re.search` from `pos`: try each start position in turn. */
  predicate SearchFrom(r: Regex, t: string, pos: nat, ignoreCase: bool)
    requires pos <= |t|
    decreases |t| - pos
  {
    FirstEnd(r, t, pos, ignoreCase).Some? || (pos < |t| && SearchFrom(r, t, pos + 1, ignoreCase))
  }

  predicate Search(r: Regex, t: string, ignoreCase: bool) {
    SearchFrom(r, t, 0, ignoreCase)
  }

  /** The search succeeds exactly when some span at or after `pos` matches. */
  lemma {:induction false} SearchFromIff(r: Regex, t: string, pos: nat, ignoreCase: bool)
    requires pos <= |t|
    ensures SearchFrom(r, t, pos, ignoreCase) <==> MatchesFrom(r, t, pos, ignoreCase)
    decreases |t| - pos
  {
    var e := FirstEnd(r, t, pos, ignoreCase);
    if e.Some? {
      assert MatchesSpan(r, t, pos, e.value, ignoreCase);
    }
    if pos < |t| {
      SearchFromIff(r, t, pos + 1, ignoreCase);
    }
    if MatchesFrom(r, t, pos, ignoreCase) {
      var i, j :| pos <= i <= j <= |t| && MatchesSpan(r, t, i, j, ignoreCase);
      FirstEndComplete(r, t, i, j, ignoreCase);
      if i > pos {
        assert MatchesFrom(r, t, pos + 1, ignoreCase);
      }
    }
    if pos < |t| && MatchesFrom(r, t, pos + 1, ignoreCase) {
      var i, j :| pos + 1 <= i <= j <= |t| && MatchesSpan(r, t, i, j, ignoreCase);
      assert pos <= i;
    }
  }

  /** `re.search(r, t)` is truthy exactly when some span of `t` matches. */
  lemma SearchIff(r: Regex, t: string, ignoreCase: bool)
    ensures Search(r, t, ignoreCase) <==> MatchesFrom(r, t, 0, ignoreCase)
  {
    SearchFromIff(r, t, 0, ignoreCase);
  }

  /** `m` is the text of some matching span of `t`. */
  ghost predicate IsMatchOf(r: Regex, t: string, m: string, ignoreCase: bool) {
    exists i, j :: 0 <= i <= j <= |t| && MatchesSpan(r, t, i, j, ignoreCase) && t[i..j] == m
  }

  /** `re.findall` from `pos` for a pattern without groups: the texts of the
      successive leftmost matches; after an empty match the scan moves on by
      one character. */
  function FindAllFrom(r: Regex, t: string, pos: nat, ignoreCase: bool): (ms: seq<string>)
    requires pos <= |t| + 1
    ensures forall k :: 0 <= k < |ms| ==> IsMatchOf(r, t, ms[k], ignoreCase)
    ensures pos <= |t| ==> (ms == [] <==> !SearchFrom(r, t, pos, ignoreCase))
    decreases |t| + 1 - pos
  {
    if pos > |t| then []
    else match FirstEnd(r, t, pos, ignoreCase)
      case None => FindAllFrom(r, t, pos + 1, ignoreCase)
      case Some(e) =>
        assert MatchesSpan(r, t, pos, e, ignoreCase) && t[pos..e] == t[pos..e];
        [t[pos..e]] + FindAllFrom(r, t, if e > pos then e else pos + 1, ignoreCase)
  }

  function FindAll(r: Regex, t: string, ignoreCase: bool): (ms: seq<string>)
    ensures forall k :: 0 <= k < |ms| ==> IsMatchOf(r, t, ms[k], ignoreCase)
    ensures ms == [] <==> !Search(r, t, ignoreCase)
  {
    FindAllFrom(r, t, 0, ignoreCase)
  }

  // ---------------------------------------------------------------------
  // Patterns without stars, classes or counts

  /** A character that stands for itself in a pattern. */
  predicate PlainChar(c: char) {
    c != '.' && c != '\\' && c != '[' && c !in Specials
  }

  /** A pattern made of plain characters and `.` wildcards only, such as
      `webflow.com`. */
  predicate IsPlainPattern(p: string) {
    forall k :: 0 <= k < |p| ==> PlainChar(p[k]) || p[k] == '.'
  }

  /** The compiled form of a plain pattern: `.` is the wildcard, every other
      character a literal. */
  function PlainRegex(p: string): (r: Regex)
    ensures |r| == |p|
    ensures forall k :: 0 <= k < |p| ==> r[k] == Once(if p[k] == '.' then Dot else Lit(p[k]))
  {
    seq(|p|, k requires 0 <= k < |p| => Once(if p[k] == '.' then Dot else Lit(p[k])))
  }

  /** The pattern that matches `p` character by character. */
  function LiteralRegex(p: string): (r: Regex)
    ensures |r| == |p|
    ensures forall k :: 0 <= k < |p| ==> r[k] == Once(Lit(p[k]))
  {
    seq(|p|, k requires 0 <= k < |p| => Once(Lit(p[k])))
  }

  /** Whether `rest` begins with a quantifier that would bind to the atom
      before it. */
  predicate StartsQuantifier(rest: string) {
    rest != [] && (rest[0] == '*' || rest[0] == '{')
  }

  /** An atom not followed by a quantifier compiles to one piece in front
      of whatever the rest compiles to. */
  lemma ParseOnce(s: string, a: Atom, rest: string)
    requires s != [] && ParseAtom(s) == Some((a, rest)) && !StartsQuantifier(rest)
    ensures Parse(s) == (match Parse(rest) case None => None case Some(t) => Some([Once(a)] + t))
  {
  }

  lemma ConcatAssoc<T>(x: seq<T>, y: seq<T>, z: seq<T>)
    ensures x + (y + z) == (x + y) + z
  {
  }

  lemma StartsAtIff(s: string, q: string, i: nat, w: string)
    requires i + |q| <= |s| && s[i..i + |q|] == w
    ensures StartsWith(s[i..], q) <==> w == q
  {
    assert s[i..][..|q|] == s[i..i + |q|];
  }

  lemma PlainRegexCons(a: string)
    requires a != []
    ensures PlainRegex(a) == [Once(if a[0] == '.' then Dot else Lit(a[0]))] + PlainRegex(a[1..])
  {
  }

  /** The first character of a plain prefix compiles to one piece. */
  lemma ParsePlainHead(a: string, b: string)
    requires a != [] && IsPlainPattern(a) && !StartsQuantifier(b)
    ensures IsPlainPattern(a[1..])
    ensures Parse(a + b) ==
      (match Parse(a[1..] + b) case None => None case Some(t) => Some([Once(if a[0] == '.' then Dot else Lit(a[0]))] + t))
  {
    var s := a + b;
    assert s[1..] == a[1..] + b;
    var atom := if a[0] == '.' then Dot else Lit(a[0]);
    assert ParseAtom(s) == Some((atom, a[1..] + b));
    assert !StartsQuantifier(a[1..] + b);
    ParseOnce(s, atom, a[1..] + b);
  }

  /** Compiling a plain prefix: each of its characters becomes one piece, and
      the rest compiles on its own. */
  lemma {:induction false} ParsePlainPrefix(a: string, b: string)
    requires IsPlainPattern(a) && !StartsQuantifier(b)
    ensures Parse(a + b) == (match Parse(b) case None => None case Some(t) => Some(PlainRegex(a) + t))
    decreases |a|
  {
    if a != [] {
      ParsePlainHead(a, b);
      ParsePlainPrefix(a[1..], b);
      PlainRegexCons(a);
      if Parse(b).Some? {
        var head := Once(if a[0] == '.' then Dot else Lit(a[0]));
        var t := Parse(b).value;
        ConcatAssoc([head], PlainRegex(a[1..]), t);
      }
    } else {
      assert a + b == b;
      match Parse(b) {
        case None =>
        case Some(t) => assert PlainRegex(a) + t == t;
      }
    }
  }

  lemma PlainParses(p: string)
    requires IsPlainPattern(p)
    ensures Parse(p) == Some(PlainRegex(p))
  {
    ParsePlainPrefix(p, []);
    assert p + [] == p;
    assert PlainRegex(p) + [] == PlainRegex(p);
  }

  /** An escaped punctuation character compiles to that literal character. */
  lemma ParseEscape(c: char, b: string)
    requires !IsAlnum(c) && !StartsQuantifier(b)
    ensures Parse(['\\', c] + b) == (match Parse(b) case None => None case Some(t) => Some([Once(Lit(c))] + t))
  {
    var s := ['\\', c] + b;
    assert s[2..] == b;
    assert ParseAtom(s) == Some((Lit(c), b));
  }

  /** A star after a plain character or `.` compiles to a starred piece. */
  lemma ParseStar(c: char, b: string)
    requires PlainChar(c) || c == '.'
    ensures Parse([c, '*'] + b) == (match Parse(b) case None => None case Some(t) => Some([Star(if c == '.' then Dot else Lit(c))] + t))
  {
    var s := [c, '*'] + b;
    assert s[1..] == ['*'] + b;
    assert s[1..][1..] == b;
  }

  /** One `lo-hi` range of a class body. */
  lemma ParseClassRange(lo: char, hi: char, rest: string, acc: seq<(char, char)>)
    requires lo != '\\' && lo != ']' && hi != '\\' && hi != ']' && lo <= hi
    requires acc != [] || lo != '^'
    ensures ParseClass([lo, '-', hi] + rest, acc) == ParseClass(rest, acc + [(lo, hi)])
  {
    assert ([lo, '-', hi] + rest)[3..] == rest;
  }

  /** The closing `]` of a non-empty class body. */
  lemma ParseClassClose(rest: string, acc: seq<(char, char)>)
    requires acc != []
    ensures ParseClass([']'] + rest, acc) == Some((acc, rest))
  {
    assert ([']'] + rest)[1..] == rest;
  }

  /** One digit of a `{n}` count. */
  lemma ParseCountDigit(d: char, rest: string, n: nat, digits: nat)
    requires IsDigit(d)
    ensures ParseCount([d] + rest, n, digits) == ParseCount(rest, n * 10 + (d as int - '0' as int), digits + 1)
  {
    assert ([d] + rest)[1..] == rest;
  }

  /** The closing `}` of a count with at least one digit. */
  lemma ParseCountClose(rest: string, n: nat, digits: nat)
    requires digits > 0
    ensures ParseCount(['}'] + rest, n, digits) == Some((n, rest))
  {
    assert (['}'] + rest)[1..] == rest;
  }

  /** A class followed by an exact count compiles to that many copies of the
      class. */
  lemma ParseCountedClass(body: string, rs: seq<(char, char)>, count: string, n: nat, b: string)
    requires ParseClass(body, []) == Some((rs, ['{'] + count))
    requires ParseCount(count, 0, 0) == Some((n, b))
    ensures Parse(['['] + body) == (match Parse(b) case None => None case Some(t) => Some(Repeat(Once(Class(rs)), n) + t))
  {
    var s := ['['] + body;
    assert s[1..] == body;
    assert ParseAtom(s) == Some((Class(rs), ['{'] + count));
    assert (['{'] + count)[1..] == count;
  }

  /** A pattern of `Once` pieces only matches spans of exactly its length,
      character by character. */
  lemma {:induction false} FixedSpanIff(r: Regex, t: string, i: nat, j: nat, ignoreCase: bool)
    requires i <= j <= |t|
    requires forall k :: 0 <= k < |r| ==> r[k].Once?
    ensures MatchesSpan(r, t, i, j, ignoreCase) <==>
      (j == i + |r| && forall k :: 0 <= k < |r| ==> Accepts(r[k].atom, t[i + k], ignoreCase))
    decreases |r|
  {
    if r != [] && i < j {
      FixedSpanIff(r[1..], t, i + 1, j, ignoreCase);
      if j == i + |r| && forall k :: 0 <= k < |r| ==> Accepts(r[k].atom, t[i + k], ignoreCase) {
        forall k | 0 <= k < |r[1..]| ensures Accepts(r[1..][k].atom, t[i + 1 + k], ignoreCase) {
          assert r[1..][k] == r[k + 1];
        }
      }
      if MatchesSpan(r, t, i, j, ignoreCase) {
        forall k | 0 <= k < |r| ensures Accepts(r[k].atom, t[i + k], ignoreCase) {
          if k > 0 {
            assert r[1..][k - 1] == r[k];
          }
        }
      }
    }
  }

  /** A case-insensitive literal matches a span exactly when the span has
      the literal's length and lower-cases to the literal lower-cased. */
  lemma LiteralSpanIff(p: string, t: string, i: nat, j: nat)
    requires i <= j <= |t|
    ensures MatchesSpan(LiteralRegex(p), t, i, j, true) <==> (j == i + |p| && Lower(t[i..j]) == Lower(p))
  {
    var r := LiteralRegex(p);
    FixedSpanIff(r, t, i, j, true);
    if j == i + |p| {
      assert forall k :: 0 <= k < |p| ==> Lower(t[i..j])[k] == LowerChar(t[i + k]);
      if Lower(t[i..j]) == Lower(p) {
        assert forall k :: 0 <= k < |p| ==> LowerChar(t[i + k]) == LowerChar(p[k]);
      }
    }
  }

  /** A span the literal matches is as long as the literal. */
  lemma LiteralSpanLength(p: string, t: string, i: nat, j: nat)
    requires i <= j <= |t| && MatchesSpan(LiteralRegex(p), t, i, j, true)
    ensures j == i + |p|
  {
    FixedSpanIff(LiteralRegex(p), t, i, j, true);
  }

  /** The next `|p|` characters of `t` from `i` lower-case to `Lower(p)`
      exactly when the lower-cased text continues with `Lower(p)` there. */
  lemma LowerSliceStarts(p: string, t: string, i: nat)
    requires i + |p| <= |t|
    ensures Lower(t[i..i + |p|]) == Lower(p) <==> StartsWith(Lower(t)[i..], Lower(p))
  {
    LowerSlice(t, i, i + |p|);
    StartsAtIff(Lower(t), Lower(p), i, Lower(t[i..i + |p|]));
  }

  /** When a span from `i` matches and no other span from `i` does, the
      anchored matcher ends where that span ends. */
  lemma FirstEndUnique(r: Regex, t: string, i: nat, j: nat, ignoreCase: bool)
    requires i <= j <= |t| && MatchesSpan(r, t, i, j, ignoreCase)
    requires forall k :: i <= k <= |t| && MatchesSpan(r, t, i, k, ignoreCase) ==> k == j
    ensures FirstEnd(r, t, i, ignoreCase) == Some(j)
  {
    FirstEndComplete(r, t, i, j, ignoreCase);
  }

  /** Anchored at `i`, the matcher for a case-insensitive literal ends
      right after it when the text continues with the literal up to case. */
  lemma LiteralFirstEndHit(p: string, t: string, i: nat)
    requires i + |p| <= |t| && Lower(t[i..i + |p|]) == Lower(p)
    ensures FirstEnd(LiteralRegex(p), t, i, true) == Some(i + |p|)
  {
    var r := LiteralRegex(p);
    LiteralSpanIff(p, t, i, i + |p|);
    forall k | i <= k <= |t| && MatchesSpan(r, t, i, k, true) ensures k == i + |p| {
      LiteralSpanLength(p, t, i, k);
    }
    FirstEndUnique(r, t, i, i + |p|, true);
  }

  /** Otherwise the anchored matcher fails. */
  lemma LiteralFirstEndMiss(p: string, t: string, i: nat)
    requires i <= |t| && !(i + |p| <= |t| && Lower(t[i..i + |p|]) == Lower(p))
    ensures FirstEnd(LiteralRegex(p), t, i, true) == None
  {
    var e := FirstEnd(LiteralRegex(p), t, i, true);
    if e.Some? {
      LiteralSpanIff(p, t, i, e.value);
    }
  }

  /** After a non-empty match ending at `e`, `re.findall` resumes at `e`. */
  lemma FindAllFromMatch(r: Regex, t: string, pos: nat, e: nat, ignoreCase: bool)
    requires pos < e <= |t| && FirstEnd(r, t, pos, ignoreCase) == Some(e)
    ensures |FindAllFrom(r, t, pos, ignoreCase)| == 1 + |FindAllFrom(r, t, e, ignoreCase)|
  {
  }

  /** Without a match at `pos`, `re.findall` moves on by one character. */
  lemma FindAllFromSkip(r: Regex, t: string, pos: nat, ignoreCase: bool)
    requires pos <= |t| && FirstEnd(r, t, pos, ignoreCase) == None
    ensures FindAllFrom(r, t, pos, ignoreCase) == FindAllFrom(r, t, pos + 1, ignoreCase)
  {
  }

  lemma {:induction false} LiteralFindAllFromCount(p: string, t: string, pos: nat)
    requires p != [] && pos <= |t|
    ensures |FindAllFrom(LiteralRegex(p), t, pos, true)| == Occurrences(Lower(t)[pos..], Lower(p))
    decreases |t| - pos
  {
    var r := LiteralRegex(p);
    var lp := Lower(p);
    var s := Lower(t)[pos..];
    if pos + |p| <= |t| {
      LowerSliceStarts(p, t, pos);
    } else {
      assert |lp| == |p|;
    }
    if !StartsWith(s, lp) {
      LiteralFirstEndMiss(p, t, pos);
      FindAllFromSkip(r, t, pos, true);
      if pos == |t| {
        assert |s| < |lp|;
        assert FindAllFrom(r, t, pos + 1, true) == [];
        assert |FindAllFrom(r, t, pos, true)| == Occurrences(s, lp);
      } else {
        OccurrencesMiss(s, lp, Lower(t)[pos + 1..]);
        LiteralFindAllFromCount(p, t, pos + 1);
      }
    } else {
      var e := pos + |p|;
      LiteralFirstEndHit(p, t, pos);
      FindAllFromMatch(r, t, pos, e, true);
      LiteralFindAllFromCount(p, t, e);
      assert |lp| == |p|;
      OccurrencesHit(s, lp, Lower(t)[e..]);
    }
  }

  /** `re.findall` of a non-empty literal, ignoring case, finds as many
      texts as the literal has non-overlapping occurrences. */
  lemma LiteralFindAllCount(p: string, t: string)
    requires p != []
    ensures |FindAll(LiteralRegex(p), t, true)| == Occurrences(Lower(t), Lower(p))
  {
    LiteralFindAllFromCount(p, t, 0);
    assert Lower(t)[0..] == Lower(t);
  }

  /** Where the lower-cased text contains the lower-cased pattern, the
      case-insensitive search for the plain pattern succeeds: a regular
      expression hit is never rarer than the literal one. */
  lemma PlainSearchCoversLiteral(p: string, t: string)
    requires Contains(Lower(t), Lower(p))
    ensures Search(PlainRegex(p), t, true)
  {
    ContainsHasWitness(Lower(t), Lower(p));
    var i :| OccursAt(Lower(t), Lower(p), i);
    var r := PlainRegex(p);
    forall k | 0 <= k < |r| ensures Accepts(r[k].atom, t[i + k], true) {
      assert Lower(t)[i..i + |p|][k] == Lower(p)[k];
    }
    FixedSpanIff(r, t, i, i + |p|, true);
    SearchIff(r, t, true);
  }

  /** A case-insensitive hit of a literal is an occurrence of the
      lower-cased literal in the lower-cased text. */
  lemma LiteralSearchFinds(p: string, t: string)
    requires Search(LiteralRegex(p), t, true)
    ensures Contains(Lower(t), Lower(p))
  {
    var r := LiteralRegex(p);
    SearchIff(r, t, true);
    var i, j :| 0 <= i <= j <= |t| && MatchesSpan(r, t, i, j, true);
    LiteralSpanIff(p, t, i, j);
    LowerSlice(t, i, j);
    WitnessGivesContains(Lower(t), Lower(p), i);
  }

  /** Every occurrence of the lower-cased literal is found. */
  lemma LiteralSearchCovers(p: string, t: string)
    requires Contains(Lower(t), Lower(p))
    ensures Search(LiteralRegex(p), t, true)
  {
    ContainsHasWitness(Lower(t), Lower(p));
    var i :| OccursAt(Lower(t), Lower(p), i);
    LowerSlice(t, i, i + |p|);
    LiteralSpanIff(p, t, i, i + |p|);
    SearchIff(LiteralRegex(p), t, true);
  }

  /** The case-insensitive search for a literal succeeds exactly when the
      lower-cased text contains the lower-cased literal. */
  lemma LiteralSearchIff(p: string, t: string)
    ensures Search(LiteralRegex(p), t, true) <==> Contains(Lower(t), Lower(p))
  {
    if Search(LiteralRegex(p), t, true) {
      LiteralSearchFinds(p, t);
    }
    if Contains(Lower(t), Lower(p)) {
      LiteralSearchCovers(p, t);
    }
  }
}
