/** The routes of the configuration: normalising their names on load and validating them. */
module RouteConfig {
  import opened Common
  import Alpn

  datatype ProxyTarget = ProxyTarget(sni: string, upstream: string, alpn: Option<Alpn.Names>, tlsPassthrough: bool)

  predicate IsUpper(c: char) {
    'A' <= c <= 'Z'
  }

  function Lower(c: char): char {
    if IsUpper(c) then (c as int + 32) as char else c
  }

  function LowerAll(s: string): (t: string)
    ensures |t| == |s| && forall i :: 0 <= i < |s| ==> t[i] == Lower(s[i])
  {
    seq(|s|, i requires 0 <= i < |s| => Lower(s[i]))
  }

  function TrimEndDots(s: string): (t: string)
    ensures t <= s && (t != [] ==> t[|t| - 1] != '.')
    ensures forall i :: |t| <= i < |s| ==> s[i] == '.'
  {
    if s != [] && s[|s| - 1] == '.' then TrimEndDots(s[..|s| - 1]) else s
  }

  function Normalize(sni: string): string {
    LowerAll(TrimEndDots(sni))
  }

  /** No ASCII capital and no dot at the end: the form in which server names are sniffed. */
  predicate Canonical(name: string) {
    && (forall i :: 0 <= i < |name| ==> !('A' <= name[i] <= 'Z'))
    && (name == [] || name[|name| - 1] != '.')
  }

  /** Every normal form is canonical, and a canonical name is its own. */
  lemma NormalFormIsCanonical(sni: string)
    ensures Canonical(Normalize(sni))
    ensures Canonical(sni) ==> Normalize(sni) == sni
  {
    var t := TrimEndDots(sni);
    assert t == [] || LowerAll(t)[|t| - 1] == Lower(t[|t| - 1]) != '.';
    if Canonical(sni) {
      assert t == sni && LowerAll(t) == t;
    }
  }

  predicate SameLetter(c: char, d: char) {
    || c == d
    || (IsUpper(c) && d as int == c as int + 32)
    || (IsUpper(d) && c as int == d as int + 32)
  }

  /** The names differ at most in ASCII case and trailing dots. */
  predicate SameHost(a: string, b: string) {
    var a', b' := TrimEndDots(a), TrimEndDots(b);
    |a'| == |b'| && forall i :: 0 <= i < |a'| ==> SameLetter(a'[i], b'[i])
  }

  lemma NormalizeIsIdempotent(sni: string)
    ensures Normalize(Normalize(sni)) == Normalize(sni)
  {
    var t := TrimEndDots(sni);
    assert t == [] || LowerAll(t)[|t| - 1] == Lower(t[|t| - 1]) != '.';
    assert LowerAll(LowerAll(t)) == LowerAll(t);
  }

  /** Normal forms coincide exactly for names that denote the same host. */
  lemma NormalizeIdentifiesHosts(a: string, b: string)
    ensures Normalize(a) == Normalize(b) <==> SameHost(a, b)
  {
    var a', b' := TrimEndDots(a), TrimEndDots(b);
    if Normalize(a) == Normalize(b) {
      forall i | 0 <= i < |a'| ensures SameLetter(a'[i], b'[i]) {
        assert Normalize(a)[i] == Normalize(b)[i];
      }
    }
  }

  /** Unicode White_Space, as `str::trim` strips it. */
  predicate IsWhitespace(c: char) {
    var n := c as int;
    || 9 <= n <= 13 || n == 0x20 || n == 0x85 || n == 0xA0 || n == 0x1680 || 0x2000 <= n <= 0x200A
    || n == 0x2028 || n == 0x2029 || n == 0x202F || n == 0x205F || n == 0x3000
  }

  /** `s.trim().is_empty()`. */
  predicate Blank(s: string) {
    forall i :: 0 <= i < |s| ==> IsWhitespace(s[i])
  }

  /** A name with a visible ASCII character is not blank; one of spaces, tabs and line breaks alone is. */
  lemma BlankIsInvisible(s: string)
    ensures (exists i :: 0 <= i < |s| && '!' <= s[i] <= '~') ==> !Blank(s)
    ensures (forall i :: 0 <= i < |s| ==> s[i] in " \t\r\n") ==> Blank(s)
  {}

  datatype Verdict = Valid | BlankEntry(index: nat) | DuplicateSni(index: nat) | BadUpstream(index: nat) | BadAlpn(index: nat)

  ghost predicate AlpnFits(alpn: Option<Alpn.Names>) {
    alpn.Some? ==> Alpn.Distinct(alpn.value) && Alpn.Encodable(alpn.value)
  }

  ghost predicate Acceptable(target: ProxyTarget, upstreamOk: string -> bool) {
    !Blank(target.sni) && !Blank(target.upstream) && upstreamOk(target.upstream) && AlpnFits(target.alpn)
  }

  ghost predicate DistinctSnis(routes: seq<ProxyTarget>) {
    forall i, j :: 0 <= i < j < |routes| ==> routes[i].sni != routes[j].sni
  }

  ghost predicate ValidRoutes(routes: seq<ProxyTarget>, upstreamOk: string -> bool) {
    DistinctSnis(routes) && forall i :: 0 <= i < |routes| ==> Acceptable(routes[i], upstreamOk)
  }

  /**
   * The route part of `validate`. `upstreamOk` stands for the upstream's own check. A rejection names the
   * first entry at fault, with all earlier entries valid.
   */
  method ValidateRoutes(routes: seq<ProxyTarget>, upstreamOk: string -> bool) returns (verdict: Verdict)
    ensures verdict.Valid? <==> ValidRoutes(routes, upstreamOk)
    ensures !verdict.Valid? ==> verdict.index < |routes| && ValidRoutes(routes[..verdict.index], upstreamOk)
    ensures verdict.BlankEntry? ==> Blank(routes[verdict.index].sni) || Blank(routes[verdict.index].upstream)
    ensures verdict.DuplicateSni? || verdict.BadUpstream? || verdict.BadAlpn? ==>
              !Blank(routes[verdict.index].sni) && !Blank(routes[verdict.index].upstream)
    ensures verdict.DuplicateSni? ==> exists j :: 0 <= j < verdict.index && routes[j].sni == routes[verdict.index].sni
    ensures verdict.BadUpstream? || verdict.BadAlpn? ==>
              forall j :: 0 <= j < verdict.index ==> routes[j].sni != routes[verdict.index].sni
    ensures verdict.BadUpstream? ==> !upstreamOk(routes[verdict.index].upstream)
    ensures verdict.BadAlpn? ==> upstreamOk(routes[verdict.index].upstream) && !AlpnFits(routes[verdict.index].alpn)
  {
    var seen: set<string> := {};
    for i := 0 to |routes|
      invariant ValidRoutes(routes[..i], upstreamOk)
      invariant forall name :: name in seen <==> exists j :: 0 <= j < i && routes[j].sni == name
    {
      var target := routes[i];
      assert routes[..i + 1] == routes[..i] + [target];
      if Blank(target.sni) || Blank(target.upstream) {
        return BlankEntry(i);
      }
      if target.sni in seen {
        return DuplicateSni(i);
      }
      seen := seen + {target.sni};
      if !upstreamOk(target.upstream) {
        return BadUpstream(i);
      }
      var alpn := Alpn.ValidateAlpnProtocols(target.alpn);
      if !alpn.Accepted? {
        return BadAlpn(i);
      }
    }
    assert routes[..|routes|] == routes;
    return Valid;
  }

  /** Loading: every name is normalised in place, then the result is validated. */
  method LoadRoutes(raw: seq<ProxyTarget>, upstreamOk: string -> bool) returns (routes: seq<ProxyTarget>, verdict: Verdict)
    ensures |routes| == |raw|
    ensures forall i :: 0 <= i < |raw| ==> routes[i] == raw[i].(sni := Normalize(raw[i].sni))
    ensures forall i :: 0 <= i < |raw| ==> Canonical(routes[i].sni) && SameHost(routes[i].sni, raw[i].sni)
    ensures verdict.Valid? <==> ValidRoutes(routes, upstreamOk)
    ensures verdict.Valid? ==> forall i, j :: 0 <= i < j < |raw| ==> !SameHost(raw[i].sni, raw[j].sni)
  {
    routes := raw;
    for i := 0 to |raw|
      invariant |routes| == |raw|
      invariant forall j :: 0 <= j < i ==> routes[j] == raw[j].(sni := Normalize(raw[j].sni))
      invariant forall j :: i <= j < |raw| ==> routes[j] == raw[j]
    {
      routes := routes[i := routes[i].(sni := Normalize(routes[i].sni))];
    }
    verdict := ValidateRoutes(routes, upstreamOk);
    forall i | 0 <= i < |raw| ensures Canonical(routes[i].sni) && SameHost(routes[i].sni, raw[i].sni) {
      NormalFormIsCanonical(raw[i].sni);
      NormalizeIsIdempotent(raw[i].sni);
      NormalizeIdentifiesHosts(routes[i].sni, raw[i].sni);
    }
    forall i, j | 0 <= i < j < |raw| ensures SameHost(raw[i].sni, raw[j].sni) ==> !verdict.Valid? {
      NormalizeIdentifiesHosts(raw[i].sni, raw[j].sni);
    }
  }
}
