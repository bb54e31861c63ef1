/**
 * The four social-profile URL patterns of the admin form (LinkedIn, Facebook,
 * Instagram, YouTube), written twice: as the language each regular expression
 * denotes (a URL is scheme, optional sub-domain, a host-and-path literal, a
 * handle and an optional trailing slash) and as a hand-written recogniser
 * that tries each alternative in turn. RecogniseIffPattern proves the two agree.
 */
module SocialPatterns {
  import opened Wrappers
  import opened Text

  datatype Platform = LinkedIn | Facebook | Instagram | YouTube

  /** The handle class `[a-zA-Z0-9À-ſ\-_%]`, with `.` added where dotAllowed. */
  predicate HandleChar(c: char, dotAllowed: bool) {
    IsLowerAscii(c) || IsUpperAscii(c) || IsDigit(c)
    || (0xC0 <= c as int <= 0x17F)
    || c == '-' || c == '_' || c == '%'
    || (dotAllowed && c == '.')
  }

  /** One or more handle characters. */
  predicate IsHandle(h: string, dotAllowed: bool) {
    |h| >= 1 && forall i :: 0 <= i < |h| ==> HandleChar(h[i], dotAllowed)
  }

  /** Facebook and Instagram handles may contain dots; LinkedIn and YouTube handles may not. */
  function DotAllowed(p: Platform): bool {
    p == Facebook || p == Instagram
  }

  /** The host-and-path literals that may follow the optional sub-domain. */
  function Prefixes(p: Platform): seq<string> {
    match p
    case LinkedIn => ["linkedin.com/in/", "linkedin.com/company/"]
    case Facebook => ["facebook.com/"]
    case Instagram => ["instagram.com/"]
    case YouTube => ["youtube.com/@", "youtube.com/channel/", "youtube.com/c/", "youtu.be/"]
  }

  /** A two-letter lower-case sub-domain followed by a dot, as `[a-z]{2}\.`. */
  predicate IsTwoLetterSub(s: string) {
    |s| == 3 && IsLowerAscii(s[0]) && IsLowerAscii(s[1]) && s[2] == '.'
  }

  /** The optional sub-domain group: `(www\.)?`, or `(www\.|[a-z]{2}\.)?` for LinkedIn. */
  predicate SubdomainFits(p: Platform, sub: string) {
    sub == "" || sub == "www." || (p == LinkedIn && IsTwoLetterSub(sub))
  }

  /** The pieces a matching URL is made of. */
  datatype UrlParts = UrlParts(secure: bool, sub: string, prefix: string, handle: string, slash: bool)

  function SchemeText(secure: bool): string {
    if secure then "https://" else "http://"
  }

  function SlashText(slash: bool): string {
    if slash then "/" else ""
  }

  function Render(u: UrlParts): string {
    SchemeText(u.secure) + u.sub + u.prefix + u.handle + SlashText(u.slash)
  }

  /** The pieces are the ones the platform's pattern allows. */
  ghost predicate Fits(p: Platform, u: UrlParts) {
    SubdomainFits(p, u.sub) && u.prefix in Prefixes(p) && IsHandle(u.handle, DotAllowed(p))
  }

  /** The language of the platform's regular expression, anchored at both ends. */
  ghost predicate MatchesPattern(p: Platform, url: string) {
    exists u :: Fits(p, u) && Render(u) == url
  }

  // ---------------------------------------------------------------------------
  // The recogniser

  predicate HasPrefix(s: string, pre: string) {
    |pre| <= |s| && s[..|pre|] == pre
  }

  /** What follows `https://` or `http://`, if the URL starts with either. */
  function AfterScheme(url: string): (r: Option<string>)
    ensures r.Some? ==> url == SchemeText(HasPrefix(url, "https://")) + r.value
  {
    if HasPrefix(url, "https://") then
      assert url == SchemeText(true) + url[8..];
      Some(url[8..])
    else if HasPrefix(url, "http://") then
      assert url == SchemeText(false) + url[7..];
      Some(url[7..])
    else None
  }

  /** A handle, optionally followed by one `/`, and nothing else. */
  predicate HandleTail(t: string, dotAllowed: bool) {
    IsHandle(t, dotAllowed) || (|t| >= 2 && t[|t| - 1] == '/' && IsHandle(t[..|t| - 1], dotAllowed))
  }

  /** One of the platform's host-and-path literals, then a handle tail. */
  predicate HostTail(p: Platform, r: string) {
    exists i | 0 <= i < |Prefixes(p)| ::
      HasPrefix(r, Prefixes(p)[i]) && HandleTail(r[|Prefixes(p)[i]|..], DotAllowed(p))
  }

  /** Tries the sub-domain alternatives in turn: none, `www.`, and for LinkedIn two letters and a dot. */
  predicate AfterSubdomain(p: Platform, r: string) {
    HostTail(p, r)
    || (HasPrefix(r, "www.") && HostTail(p, r[4..]))
    || (p == LinkedIn && |r| >= 3 && IsTwoLetterSub(r[..3]) && HostTail(p, r[3..]))
  }

  /** `pattern.test(url)` for the platform's pattern. */
  predicate Recognise(p: Platform, url: string) {
    match AfterScheme(url)
    case None => false
    case Some(r) => AfterSubdomain(p, r)
  }

  // ---------------------------------------------------------------------------
  // Agreement of recogniser and pattern

  lemma HandleTailJoin(h: string, slash: bool, dotAllowed: bool)
    requires IsHandle(h, dotAllowed)
    ensures HandleTail(h + SlashText(slash), dotAllowed)
  {
    if slash {
      var t := h + "/";
      assert t[..|t| - 1] == h;
    } else {
      assert h + SlashText(slash) == h;
    }
  }

  lemma HandleTailSplit(t: string, dotAllowed: bool) returns (h: string, slash: bool)
    requires HandleTail(t, dotAllowed)
    ensures IsHandle(h, dotAllowed) && t == h + SlashText(slash)
  {
    if IsHandle(t, dotAllowed) {
      h, slash := t, false;
      assert t == h + SlashText(slash);
    } else {
      h, slash := t[..|t| - 1], true;
      assert t == h + SlashText(slash);
    }
  }

  lemma HostTailJoin(p: Platform, prefix: string, h: string, slash: bool)
    requires prefix in Prefixes(p) && IsHandle(h, DotAllowed(p))
    ensures HostTail(p, prefix + h + SlashText(slash))
  {
    var r := prefix + h + SlashText(slash);
    var i :| 0 <= i < |Prefixes(p)| && Prefixes(p)[i] == prefix;
    assert r[..|prefix|] == prefix;
    assert r[|prefix|..] == h + SlashText(slash);
    HandleTailJoin(h, slash, DotAllowed(p));
  }

  lemma HostTailSplit(p: Platform, r: string) returns (prefix: string, h: string, slash: bool)
    requires HostTail(p, r)
    ensures prefix in Prefixes(p) && IsHandle(h, DotAllowed(p))
    ensures r == prefix + h + SlashText(slash)
  {
    var i :| 0 <= i < |Prefixes(p)| && HasPrefix(r, Prefixes(p)[i])
             && HandleTail(r[|Prefixes(p)[i]|..], DotAllowed(p));
    prefix := Prefixes(p)[i];
    h, slash := HandleTailSplit(r[|prefix|..], DotAllowed(p));
    assert r == r[..|prefix|] + r[|prefix|..];
  }

  lemma AfterSchemeJoin(secure: bool, rest: string)
    ensures AfterScheme(SchemeText(secure) + rest) == Some(rest)
  {
    var url := SchemeText(secure) + rest;
    if secure {
      assert url[..8] == "https://";
      assert url[8..] == rest;
    } else {
      assert url[..7] == "http://";
      assert url[4] == ':';
      assert url[7..] == rest;
    }
  }

  lemma AfterSubdomainJoin(p: Platform, sub: string, tail: string)
    requires SubdomainFits(p, sub) && HostTail(p, tail)
    ensures AfterSubdomain(p, sub + tail)
  {
    var r := sub + tail;
    if sub == "" {
      assert r == tail;
    } else if sub == "www." {
      assert r[..4] == "www.";
      assert r[4..] == tail;
    } else {
      assert r[..3] == sub;
      assert r[3..] == tail;
    }
  }

  lemma AfterSubdomainSplit(p: Platform, r: string) returns (sub: string, tail: string)
    requires AfterSubdomain(p, r)
    ensures SubdomainFits(p, sub) && HostTail(p, tail) && r == sub + tail
  {
    if HostTail(p, r) {
      sub, tail := "", r;
    } else if HasPrefix(r, "www.") && HostTail(p, r[4..]) {
      sub, tail := "www.", r[4..];
    } else {
      sub, tail := r[..3], r[3..];
    }
    assert r == sub + tail;
  }

  /** Every URL the pattern describes is accepted by the recogniser. */
  lemma PatternImpliesRecognise(p: Platform, u: UrlParts)
    requires Fits(p, u)
    ensures Recognise(p, Render(u))
  {
    var tail := u.prefix + u.handle + SlashText(u.slash);
    var rest := u.sub + tail;
    RenderJoin(u, tail);
    AfterSchemeJoin(u.secure, rest);
    HostTailJoin(p, u.prefix, u.handle, u.slash);
    AfterSubdomainJoin(p, u.sub, tail);
    assert AfterScheme(Render(u)) == Some(rest);
  }

  /** Every URL the recogniser accepts is described by the pattern. */
  lemma RecogniseImpliesPattern(p: Platform, url: string)
    requires Recognise(p, url)
    ensures MatchesPattern(p, url)
  {
    var r := AfterScheme(url).value;
    var secure := HasPrefix(url, "https://");
    assert url == SchemeText(secure) + r;
    var sub, tail := AfterSubdomainSplit(p, r);
    var prefix, h, slash := HostTailSplit(p, tail);
    var u := UrlParts(secure, sub, prefix, h, slash);
    RenderJoin(u, tail);
    assert Fits(p, u);
  }

  lemma RenderJoin(u: UrlParts, tail: string)
    requires tail == u.prefix + u.handle + SlashText(u.slash)
    ensures Render(u) == SchemeText(u.secure) + (u.sub + tail)
  {
  }

  /** The recogniser accepts exactly the URLs in the language of the platform's pattern. */
  lemma RecogniseIffPattern(p: Platform, url: string)
    ensures Recognise(p, url) <==> MatchesPattern(p, url)
  {
    if Recognise(p, url) {
      RecogniseImpliesPattern(p, url);
    }
    if MatchesPattern(p, url) {
      var u :| Fits(p, u) && Render(u) == url;
      PatternImpliesRecognise(p, u);
    }
  }
}
