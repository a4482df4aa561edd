/** URL normalisation at the start of `analyze_url`: a URL without a scheme
    gets `https://` in front. Whether a URL "has a scheme" is decided the
    way `urllib.parse.urlparse` decides it. */
module Urls {
  import opened Options
  import opened Strings
  import opened Seqs

  predicate IsAsciiLetter(c: char) {
    IsUpper(c) || IsLowerLetter(c)
  }

  /** The characters allowed in a scheme. */
  predicate IsSchemeChar(c: char) {
    IsAlnum(c) || c == '+' || c == '-' || c == '.'
  }

  /** The characters `urlsplit` deletes anywhere in the URL. */
  predicate IsUnsafe(c: char) {
    c == '\t' || c == '\r' || c == '\n'
  }

  /** Strip leading C0 control characters and spaces. */
  function StripLeading(s: string): (r: string)
    ensures |r| <= |s| && r == s[|s| - |r|..]
    ensures forall j :: 0 <= j < |s| - |r| ==> s[j] <= ' '
    ensures r == [] || r[0] > ' '
  {
    if s != [] && s[0] <= ' ' then StripLeading(s[1..]) else s
  }

  /** The position of the first `c` in `s`, if any. */
  function IndexOf(s: string, c: char): (r: Option<nat>)
    ensures r.Some? ==> r.value < |s| && s[r.value] == c && forall j :: 0 <= j < r.value ==> s[j] != c
    ensures r.None? ==> forall j :: 0 <= j < |s| ==> s[j] != c
  {
    if s == [] then None
    else if s[0] == c then Some(0)
    else match IndexOf(s[1..], c)
      case None => None
      case Some(i) => Some(i + 1)
  }

  /** The URL as `urlsplit` scans it: leading controls and spaces stripped,
      tabs and line breaks removed. */
  function Cleaned(url: string): (r: string)
    ensures forall j :: 0 <= j < |r| ==> !IsUnsafe(r[j])
  {
    var r := Filter(StripLeading(url), (c: char) => !IsUnsafe(c));
    assert forall j :: 0 <= j < |r| ==> r[j] in r;
    r
  }

  /** Where the scheme of the cleaned URL ends: at its first `:`, when the
      text before it is non-empty, starts with an ASCII letter and consists
      of scheme characters. */
  function SchemeEnd(url: string): (r: Option<nat>)
    ensures r.Some? ==>
      var u := Cleaned(url);
      && 0 < r.value < |u| && u[r.value] == ':' && IsAsciiLetter(u[0])
      && forall j :: 0 <= j < r.value ==> u[j] != ':' && IsSchemeChar(u[j])
  {
    var u := Cleaned(url);
    match IndexOf(u, ':')
    case None => None
    case Some(i) =>
      if i > 0 && IsAsciiLetter(u[0]) && forall j :: 0 <= j < i ==> IsSchemeChar(u[j]) then Some(i) else None
  }

  /** `urlparse(url).scheme`, lower-cased, empty when there is none. */
  function SchemeOf(url: string): (r: string)
    ensures r != [] <==> SchemeEnd(url).Some?
    ensures r != [] ==> IsAsciiLetter(r[0]) && forall j :: 0 <= j < |r| ==> IsSchemeChar(r[j]) && !IsUpper(r[j])
  {
    match SchemeEnd(url)
    case None => []
    case Some(i) => Lower(Cleaned(url)[..i])
  }

  predicate HasScheme(url: string) {
    SchemeEnd(url).Some?
  }

  /** The scheme is followed by `//`, so a host comes next. */
  predicate HasAuthority(url: string) {
    match SchemeEnd(url)
    case None => false
    case Some(i) =>
      var u := Cleaned(url);
      i + 2 < |u| && u[i + 1] == '/' && u[i + 2] == '/'
  }

  /** What `urlsplit` reads after the scheme's colon, or the whole cleaned
      URL when there is no scheme. */
  function AfterScheme(url: string): string {
    match SchemeEnd(url)
    case None => Cleaned(url)
    case Some(i) => Cleaned(url)[i + 1..]
  }

  /** The characters that end an authority. */
  predicate IsNetlocEnd(c: char) {
    c == '/' || c == '?' || c == '#'
  }

  /** The text of `s` before its first `/`, `?` or `#`. */
  function UpToNetlocEnd(s: string): (r: string)
    ensures |r| <= |s| && r == s[..|r|]
    ensures forall j :: 0 <= j < |r| ==> !IsNetlocEnd(r[j])
    ensures |r| < |s| ==> IsNetlocEnd(s[|r|])
  {
    if s == [] || IsNetlocEnd(s[0]) then [] else [s[0]] + UpToNetlocEnd(s[1..])
  }

  /** The authority `urlsplit` splits off: present when what follows the
      scheme opens with `//`, and running up to the next `/`, `?` or `#`. */
  function Netloc(url: string): Option<string> {
    var rest := AfterScheme(url);
    if |rest| >= 2 && rest[0] == '/' && rest[1] == '/' then Some(UpToNetlocEnd(rest[2..])) else None
  }

  /** `urlparse` raises `ValueError("Invalid IPv6 URL")` when the authority
      holds one square bracket but not the other. */
  predicate UrlParseFails(url: string) {
    match Netloc(url)
    case None => false
    case Some(n) => ('[' in n) != (']' in n)
  }

  const InvalidIpv6Message: string := "Invalid IPv6 URL"

  const DefaultScheme: string := "https://"

  /** The normalisation as the detector writes it: `'https://' + url`
      unless `urlparse` finds a scheme. */
  function NormalizeUrlAsWritten(url: string): (r: string)
    ensures HasScheme(url) ==> r == url
    ensures !HasScheme(url) ==> r == DefaultScheme + url
    ensures HasScheme(r)
  {
    if HasScheme(url) then url
    else
      PrefixedHasHttps(url);
      DefaultScheme + url
  }

  /** The normalisation the detector evidently intends: `'https://' + url`
      unless the URL already names a scheme and a host. A bare
      `host:port` is prefixed. */
  function NormalizeUrl(url: string): (r: string)
    ensures HasAuthority(url) ==> r == url
    ensures !HasAuthority(url) ==> r == DefaultScheme + url
    ensures HasAuthority(r)
  {
    if HasAuthority(url) then url
    else
      PrefixedHasHttps(url);
      DefaultScheme + url
  }

  /** After a scheme, an authority is split off exactly when the scheme is
      followed by `//`; a URL with a scheme and no `//` always parses. */
  lemma NetlocIffAuthority(url: string)
    requires HasScheme(url)
    ensures Netloc(url).Some? <==> HasAuthority(url)
    ensures !HasAuthority(url) ==> !UrlParseFails(url)
  {
  }

  /** A text without `/`, `?` or `#` is an authority to its end. */
  lemma {:induction false} UpToNetlocEndAll(s: string)
    requires forall j :: 0 <= j < |s| ==> !IsNetlocEnd(s[j])
    ensures UpToNetlocEnd(s) == s
  {
    if s != [] {
      UpToNetlocEndAll(s[1..]);
    }
  }

  /** An authority with an opening bracket and no closing one, as in
      `https://[::1`, makes `urlparse` raise. */
  lemma OpenBracketFails(h: string)
    requires '[' in h
    requires forall j :: 0 <= j < |h| ==> !IsNetlocEnd(h[j]) && h[j] != ']' && !IsUnsafe(h[j])
    ensures UrlParseFails(DefaultScheme + h)
  {
    var u := DefaultScheme + h;
    CleanedPrefixed(DefaultScheme, h);
    FilterKeepsAll(h, (c: char) => !IsUnsafe(c));
    assert u[..8] == DefaultScheme && u[8..] == h;
    HttpsNetloc(u, u);
    UpToNetlocEndAll(h);
  }

  /** After a cleaned `https://`, the authority runs from the ninth
      character. */
  lemma HttpsNetloc(url: string, u: string)
    requires Cleaned(url) == u && |u| >= 8 && u[..8] == DefaultScheme
    ensures Netloc(url) == Some(UpToNetlocEnd(u[8..]))
  {
    HttpsChars(u);
    HttpsScheme(url, u);
    assert AfterScheme(url) == u[6..];
    assert u[6..][2..] == u[8..];
  }

  /** A filter that keeps every character of `s` returns `s`. */
  lemma {:induction false} FilterKeepsAll(s: string, keep: char -> bool)
    requires forall j :: 0 <= j < |s| ==> keep(s[j])
    ensures Filter(s, keep) == s
  {
    if s != [] {
      FilterKeepsAll(s[1..], keep);
    }
  }

  /** The clean-up only removes characters. */
  lemma CleanedChars(url: string)
    ensures forall c :: c in Cleaned(url) ==> c in url
  {
    var t := StripLeading(url);
    assert forall c :: c in t ==> c in url;
  }

  /** A prefix that starts with a visible character and holds no tab or
      line break survives the clean-up in front of whatever follows it. */
  lemma CleanedPrefixed(p: string, url: string)
    requires p != [] && p[0] > ' '
    requires forall j :: 0 <= j < |p| ==> !IsUnsafe(p[j])
    ensures Cleaned(p + url) == p + Filter(url, (c: char) => !IsUnsafe(c))
  {
    var keep := (c: char) => !IsUnsafe(c);
    assert (p + url)[0] == p[0];
    assert StripLeading(p + url) == p + url;
    FilterAppend(p, url, keep);
    FilterKeepsAll(p, keep);
  }

  /** A URL that starts with a visible character and holds no tab or line
      break is scanned as it is. */
  lemma CleanAlready(url: string)
    requires url != [] && url[0] > ' '
    requires forall j :: 0 <= j < |url| ==> !IsUnsafe(url[j])
    ensures Cleaned(url) == url
  {
    assert StripLeading(url) == url;
    FilterKeepsAll(url, (c: char) => !IsUnsafe(c));
  }

  /** The first occurrence found is the one `IndexOf` reports. */
  lemma IndexOfFirst(s: string, c: char, i: nat)
    requires i < |s| && s[i] == c && forall j :: 0 <= j < i ==> s[j] != c
    ensures IndexOf(s, c) == Some(i)
  {
  }

  /** The scheme of the cleaned URL `u` ends at its first colon, when the
      text before it is a valid scheme. */
  lemma SchemeBeforeColon(url: string, u: string, i: nat)
    requires Cleaned(url) == u
    requires 0 < i < |u| && u[i] == ':' && forall j :: 0 <= j < i ==> u[j] != ':'
    requires IsAsciiLetter(u[0]) && forall j :: 0 <= j < i ==> IsSchemeChar(u[j])
    ensures SchemeEnd(url) == Some(i)
  {
    IndexOfFirst(u, ':', i);
  }

  /** A cleaned URL that starts `https://` has the scheme `https` and an
      authority. */
  lemma HttpsScheme(url: string, u: string)
    requires Cleaned(url) == u && |u| >= 8 && u[..8] == DefaultScheme
    ensures SchemeEnd(url) == Some(5) && SchemeOf(url) == "https" && HasAuthority(url)
  {
    HttpsChars(u);
    SchemeBeforeColon(url, u, 5);
  }

  /** The characters of `https://`. */
  lemma HttpsChars(u: string)
    requires |u| >= 8 && u[..8] == DefaultScheme
    ensures u[5] == ':' && u[6] == '/' && u[7] == '/' && IsAsciiLetter(u[0])
    ensures forall j :: 0 <= j < 5 ==> u[j] != ':' && IsSchemeChar(u[j])
    ensures Lower(u[..5]) == "https"
  {
    assert forall k :: 0 <= k < 8 ==> u[k] == DefaultScheme[k];
    assert u[..5] == "https";
    LowerOfNoUpper(u[..5]);
  }

  /** Whatever follows it, `https://` makes `urlparse` see the scheme
      `https`, followed by an authority. */
  lemma PrefixedHasHttps(url: string)
    ensures SchemeOf(DefaultScheme + url) == "https"
    ensures HasAuthority(DefaultScheme + url)
  {
    CleanedPrefixed(DefaultScheme, url);
    var u := Cleaned(DefaultScheme + url);
    assert u[..8] == DefaultScheme;
    HttpsScheme(DefaultScheme + url, u);
  }

  /** A URL without a colon has no scheme, so both normalisations prefix
      it. */
  lemma NoColonGetsPrefix(url: string)
    requires forall j :: 0 <= j < |url| ==> url[j] != ':'
    ensures NormalizeUrlAsWritten(url) == DefaultScheme + url
    ensures NormalizeUrl(url) == DefaultScheme + url
  {
    CleanedChars(url);
    var u := Cleaned(url);
    assert ':' !in url;
    assert ':' !in u;
    assert IndexOf(u, ':') == None;
  }

  /** The two normalisations agree except on a URL that has a scheme but
      no `//` after it. */
  lemma NormalizationsAgree(url: string)
    requires !HasScheme(url) || HasAuthority(url)
    ensures NormalizeUrl(url) == NormalizeUrlAsWritten(url)
  {
    if !HasScheme(url) {
      assert !HasAuthority(url);
    }
  }

  /** Normalising twice is normalising once. */
  lemma NormalizeIdempotent(url: string)
    ensures NormalizeUrl(NormalizeUrl(url)) == NormalizeUrl(url)
    ensures NormalizeUrlAsWritten(NormalizeUrlAsWritten(url)) == NormalizeUrlAsWritten(url)
  {
  }

  /** The characters of `host:port`: a visible first character, no tab
      or line break, and the first colon right after the host. */
  lemma HostPortChars(host: string, port: string)
    requires host != [] && IsAsciiLetter(host[0])
    requires forall j :: 0 <= j < |host| ==> IsSchemeChar(host[j])
    requires forall j :: 0 <= j < |port| ==> IsDigit(port[j])
    ensures var url := host + ":" + port;
      && url[0] > ' ' && (forall j :: 0 <= j < |url| ==> !IsUnsafe(url[j]))
      && url[|host|] == ':' && url[..|host|] == host
      && (forall j :: 0 <= j < |host| ==> url[j] != ':' && IsSchemeChar(url[j]))
      && (|host| + 1 < |url| ==> url[|host| + 1] != '/')
  {
    var url := host + ":" + port;
    forall j | 0 <= j < |url| ensures !IsUnsafe(url[j]) {
      if j < |host| {
        assert url[j] == host[j];
      } else if j > |host| {
        assert url[j] == port[j - |host| - 1];
      }
    }
    if |host| + 1 < |url| {
      assert url[|host| + 1] == port[0];
    }
    assert url[..|host|] == host;
  }

  /** A URL scanned as it is whose first colon ends a valid scheme keeps
      that scheme, and the written normalisation leaves it alone. */
  lemma SchemeAt(url: string, i: nat)
    requires url != [] && url[0] > ' ' && forall j :: 0 <= j < |url| ==> !IsUnsafe(url[j])
    requires 0 < i < |url| && url[i] == ':' && IsAsciiLetter(url[0])
    requires forall j :: 0 <= j < i ==> url[j] != ':' && IsSchemeChar(url[j])
    ensures SchemeEnd(url) == Some(i) && SchemeOf(url) == Lower(url[..i])
    ensures NormalizeUrlAsWritten(url) == url
    ensures i + 1 < |url| && url[i + 1] != '/' ==> !HasAuthority(url)
  {
    CleanAlready(url);
    SchemeBeforeColon(url, url, i);
  }

  /** A host with a port and no scheme, as in `localhost:8080` or
      `example.com:8080`: `urlparse` takes the host for a scheme, so the
      detector as written leaves the URL without `https://`, and the fetch
      of it then fails. */
  lemma HostPortIsScheme(host: string, port: string)
    requires host != [] && IsAsciiLetter(host[0])
    requires forall j :: 0 <= j < |host| ==> IsSchemeChar(host[j])
    requires forall j :: 0 <= j < |port| ==> IsDigit(port[j])
    ensures SchemeEnd(host + ":" + port) == Some(|host|)
    ensures SchemeOf(host + ":" + port) == Lower(host)
    ensures NormalizeUrlAsWritten(host + ":" + port) == host + ":" + port
    ensures !HasAuthority(host + ":" + port) && !UrlParseFails(host + ":" + port)
  {
    var url := host + ":" + port;
    HostPortChars(host, port);
    SchemeAt(url, |host|);
    NetlocIffAuthority(url);
  }

  /** The intended normalisation prefixes a bare `host:port`. */
  lemma HostPortGetsPrefix(host: string, port: string)
    requires host != [] && IsAsciiLetter(host[0])
    requires forall j :: 0 <= j < |host| ==> IsSchemeChar(host[j])
    requires forall j :: 0 <= j < |port| ==> IsDigit(port[j])
    ensures NormalizeUrl(host + ":" + port) == DefaultScheme + (host + ":" + port)
  {
    HostPortChars(host, port);
    SchemeAt(host + ":" + port, |host|);
  }
}
