/** InteropProxyExtensions.ToString(Proxy, ToStringMode): the Ice1 string
    form of a proxy, "identity [-f facet] -t|-d -e encoding [endpoints]".

    The helpers whose code is elsewhere (IdentityAndFacet.FromPath,
    Identity.ToString, StringUtil.EscapeString, Endpoint.ToString,
    Proxy.ToString) are parameters or plain fields. */
module InteropProxy {
  import opened Errors

  /** How non-printable characters are escaped; only passed through. */
  datatype ToStringMode = Unicode | ASCII | Compat

  const Udp := "udp"
  const Loc := "loc"

  /** An endpoint: its transport name, its host, and its own string form. */
  datatype Endpoint = Endpoint(transport: string, host: string, text: string)

  /** A proxy; uri is what Proxy.ToString() returns. */
  datatype Proxy = Proxy(
    protocol: Protocol,
    path: string,
    encoding: string,
    endpoint: Option<Endpoint>,
    altEndpoints: seq<Endpoint>,
    uri: string)

  /** The helpers: the identity of a path rendered in a mode, the facet of
      a path, and StringUtil.EscapeString. */
  datatype Escaper = Escaper(
    identity: (string, ToStringMode) -> string,
    facet: string -> string,
    escape: (string, ToStringMode) -> string)

  /** The characters the proxy parser uses as separators. */
  const Separators := " :@"

  /** StringUtil.FindFirstOf: the index of the first character of s that is
      one of chars, or -1. */
  function FindFirstOf(s: string, chars: string): (r: int)
    ensures -1 <= r < |s|
    ensures r == -1 <==> forall i :: 0 <= i < |s| ==> s[i] !in chars
    ensures r >= 0 ==> s[r] in chars && forall i :: 0 <= i < r ==> s[i] !in chars
    decreases |s|
  {
    if |s| == 0 then -1
    else if s[0] in chars then 0
    else
      var r := FindFirstOf(s[1..], chars);
      assert forall i :: 1 <= i < |s| ==> s[i] == s[1..][i - 1];
      if r == -1 then -1 else r + 1
  }

  predicate HasSeparator(s: string) {
    exists i :: 0 <= i < |s| && s[i] in Separators
  }

  /** Encloses s in double quotes when it contains a separator. */
  function Quote(s: string): (q: string)
    ensures HasSeparator(s) ==> q == "\"" + s + "\""
    ensures !HasSeparator(s) ==> q == s
  {
    if FindFirstOf(s, Separators) != -1 then "\"" + s + "\"" else s
  }

  /** ":" followed by each alt endpoint, in order. */
  function AltSuffix(alts: seq<Endpoint>): (s: string)
    decreases |alts|
  {
    if |alts| == 0 then "" else ":" + alts[0].text + AltSuffix(alts[1..])
  }

  /** " -f facet" when the facet is not empty. */
  function FacetText(p: Proxy, mode: ToStringMode, esc: Escaper): (s: string) {
    var facet := esc.facet(p.path);
    if |facet| > 0 then " -f " + Quote(esc.escape(facet, mode)) else ""
  }

  predicate IsDatagram(p: Proxy) {
    p.endpoint.Some? && p.endpoint.value.transport == Udp
  }

  /** What follows the encoding: the adapter of a loc endpoint, or the
      endpoint and its alt endpoints. */
  function EndpointsText(p: Proxy, mode: ToStringMode, esc: Escaper): (s: string) {
    match p.endpoint
    case None => ""
    case Some(e) =>
      if e.transport == Loc then " @ " + Quote(esc.escape(e.host, mode))
      else ":" + e.text + AltSuffix(p.altEndpoints)
  }

  /** ToString(proxy, mode). */
  function ToString(p: Proxy, mode: ToStringMode, esc: Escaper): (s: string) {
    if p.protocol != Ice1 then p.uri
    else
      Quote(esc.identity(p.path, mode)) + FacetText(p, mode, esc) +
      ((if IsDatagram(p) then " -d" else " -t") + " -e " + p.encoding) + EndpointsText(p, mode, esc)
  }

  // ---------------------------------------------------------------------
  // The token view: the string as a sequence of options
  // ---------------------------------------------------------------------

  /** One token of a stringified Ice1 proxy. */
  datatype Token =
    | Identity(text: string)
    | FacetOption(text: string)
    | ModeOption(datagram: bool)
    | EncodingOption(text: string)
    | AdapterOption(text: string)
    | EndpointOption(text: string)

  function RenderToken(t: Token): (s: string) {
    match t
    case Identity(s) => s
    case FacetOption(s) => " -f " + s
    case ModeOption(d) => if d then " -d" else " -t"
    case EncodingOption(s) => " -e " + s
    case AdapterOption(s) => " @ " + s
    case EndpointOption(s) => ":" + s
  }

  function Render(ts: seq<Token>): (s: string)
    decreases |ts|
  {
    if |ts| == 0 then "" else RenderToken(ts[0]) + Render(ts[1..])
  }

  lemma {:induction false} RenderAppend(a: seq<Token>, b: seq<Token>)
    ensures Render(a + b) == Render(a) + Render(b)
    decreases |a|
  {
    if |a| == 0 {
      assert a + b == b;
    } else {
      assert (a + b)[1..] == a[1..] + b;
      RenderAppend(a[1..], b);
    }
  }

  function EndpointTokens(eps: seq<Endpoint>): (ts: seq<Token>)
    ensures |ts| == |eps|
    ensures forall i :: 0 <= i < |eps| ==> ts[i] == EndpointOption(eps[i].text)
    decreases |eps|
  {
    if |eps| == 0 then [] else [EndpointOption(eps[0].text)] + EndpointTokens(eps[1..])
  }

  lemma {:induction false} AltSuffixRendersEndpoints(alts: seq<Endpoint>)
    ensures AltSuffix(alts) == Render(EndpointTokens(alts))
    decreases |alts|
  {
    if |alts| > 0 {
      AltSuffixRendersEndpoints(alts[1..]);
      var ts := EndpointTokens(alts);
      assert ts[1..] == EndpointTokens(alts[1..]);
    }
  }

  function FacetTokens(p: Proxy, mode: ToStringMode, esc: Escaper): (ts: seq<Token>) {
    var facet := esc.facet(p.path);
    if |facet| > 0 then [FacetOption(Quote(esc.escape(facet, mode)))] else []
  }

  function EndpointsTokens(p: Proxy, mode: ToStringMode, esc: Escaper): (ts: seq<Token>) {
    match p.endpoint
    case None => []
    case Some(e) =>
      if e.transport == Loc then [AdapterOption(Quote(esc.escape(e.host, mode)))]
      else EndpointTokens([e] + p.altEndpoints)
  }

  /** The tokens of an Ice1 proxy, in order: the identity, the facet option
      when the facet is not empty, -d for a udp endpoint and -t otherwise,
      the encoding, and then either the adapter of a loc endpoint or the
      endpoint followed by every alt endpoint. */
  function Tokens(p: Proxy, mode: ToStringMode, esc: Escaper): (ts: seq<Token>)
    ensures |ts| >= (if |esc.facet(p.path)| > 0 then 4 else 3)
    ensures ts[0] == Identity(Quote(esc.identity(p.path, mode)))
    ensures var k := if |esc.facet(p.path)| > 0 then 2 else 1;
            && (ts[1].FacetOption? <==> |esc.facet(p.path)| > 0)
            && (ts[1].FacetOption? ==> ts[1] == FacetOption(Quote(esc.escape(esc.facet(p.path), mode))))
            && ts[k] == ModeOption(IsDatagram(p))
            && ts[k + 1] == EncodingOption(p.encoding)
            && (p.endpoint.None? ==> |ts| == k + 2)
            && (p.endpoint.Some? && p.endpoint.value.transport == Loc ==>
                  ts[k + 2..] == [AdapterOption(Quote(esc.escape(p.endpoint.value.host, mode)))])
            && (p.endpoint.Some? && p.endpoint.value.transport != Loc ==>
                  ts[k + 2..] == EndpointTokens([p.endpoint.value] + p.altEndpoints))
  {
    var head := [Identity(Quote(esc.identity(p.path, mode)))] + FacetTokens(p, mode, esc) +
                [ModeOption(IsDatagram(p)), EncodingOption(p.encoding)];
    var tail := EndpointsTokens(p, mode, esc);
    assert (head + tail)[|head|..] == tail;
    head + tail
  }

  // ---------------------------------------------------------------------
  // Properties
  // ---------------------------------------------------------------------

  /** A proxy of any other protocol keeps its own string form. */
  lemma NonIce1Unchanged(p: Proxy, mode: ToStringMode, esc: Escaper)
    requires p.protocol != Ice1
    ensures ToString(p, mode, esc) == p.uri
  {
  }

  lemma RenderSingle(t: Token)
    ensures Render([t]) == RenderToken(t)
  {
    assert [t][1..] == [];
  }

  lemma FacetRenders(p: Proxy, mode: ToStringMode, esc: Escaper)
    ensures Render(FacetTokens(p, mode, esc)) == FacetText(p, mode, esc)
  {
    if |esc.facet(p.path)| > 0 {
      RenderSingle(FacetTokens(p, mode, esc)[0]);
    }
  }

  lemma EndpointsRender(p: Proxy, mode: ToStringMode, esc: Escaper)
    ensures Render(EndpointsTokens(p, mode, esc)) == EndpointsText(p, mode, esc)
  {
    match p.endpoint {
      case None =>
      case Some(e) =>
        if e.transport == Loc {
          RenderSingle(AdapterOption(Quote(esc.escape(e.host, mode))));
        } else {
          AltSuffixRendersEndpoints([e] + p.altEndpoints);
          assert ([e] + p.altEndpoints)[1..] == p.altEndpoints;
        }
    }
  }

  lemma RenderFour(a: seq<Token>, b: seq<Token>, c: seq<Token>, d: seq<Token>)
    ensures Render(a + b + c + d) == Render(a) + Render(b) + Render(c) + Render(d)
  {
    RenderAppend(a + b + c, d);
    RenderAppend(a + b, c);
    RenderAppend(a, b);
  }

  lemma RenderModeAndEncoding(datagram: bool, encoding: string)
    ensures Render([ModeOption(datagram), EncodingOption(encoding)]) ==
            (if datagram then " -d" else " -t") + " -e " + encoding
  {
    var me := [ModeOption(datagram), EncodingOption(encoding)];
    assert me[1..] == [EncodingOption(encoding)];
    RenderSingle(EncodingOption(encoding));
  }

  /** The rendering of the Ice1 token layout, piece by piece. */
  lemma RenderLayout(id: string, facet: seq<Token>, datagram: bool, encoding: string, endpoints: seq<Token>)
    ensures Render([Identity(id)] + facet + [ModeOption(datagram), EncodingOption(encoding)] + endpoints) ==
            id + Render(facet) + ((if datagram then " -d" else " -t") + " -e " + encoding) + Render(endpoints)
  {
    RenderFour([Identity(id)], facet, [ModeOption(datagram), EncodingOption(encoding)], endpoints);
    RenderSingle(Identity(id));
    RenderModeAndEncoding(datagram, encoding);
  }

  /** The Ice1 string is exactly the rendering of its tokens. */
  lemma ToStringRendersTokens(p: Proxy, mode: ToStringMode, esc: Escaper)
    requires p.protocol == Ice1
    ensures ToString(p, mode, esc) == Render(Tokens(p, mode, esc))
  {
    var id := Quote(esc.identity(p.path, mode));
    var f := FacetTokens(p, mode, esc);
    var e := EndpointsTokens(p, mode, esc);
    assert Tokens(p, mode, esc) == [Identity(id)] + f + [ModeOption(IsDatagram(p)), EncodingOption(p.encoding)] + e;
    RenderLayout(id, f, IsDatagram(p), p.encoding, e);
    FacetRenders(p, mode, esc);
    EndpointsRender(p, mode, esc);
  }

  /** Quoting is undone by stripping one pair of quotes, unless the string
      already looked quoted. */
  function Unquote(q: string): (s: string) {
    if |q| >= 2 && q[0] == '"' && q[|q| - 1] == '"' then q[1..|q| - 1] else q
  }

  lemma QuoteRoundTrip(s: string)
    requires !(|s| >= 2 && s[0] == '"' && s[|s| - 1] == '"')
    ensures Unquote(Quote(s)) == s
    ensures Quote(s) != s <==> HasSeparator(s)
  {
  }

  /** The alt endpoints of a concatenation render one after the other. */
  lemma {:induction false} AltSuffixAppend(a: seq<Endpoint>, b: seq<Endpoint>)
    ensures AltSuffix(a + b) == AltSuffix(a) + AltSuffix(b)
    decreases |a|
  {
    if |a| == 0 {
      assert a + b == b;
    } else {
      assert (a + b)[1..] == a[1..] + b;
      AltSuffixAppend(a[1..], b);
      calc {
        AltSuffix(a + b);
        ":" + a[0].text + AltSuffix(a[1..] + b);
        ":" + a[0].text + (AltSuffix(a[1..]) + AltSuffix(b));
        (":" + a[0].text + AltSuffix(a[1..])) + AltSuffix(b);
      }
    }
  }

  /** A loc endpoint ignores the alt endpoints. */
  lemma LocIgnoresAltEndpoints(p: Proxy, alts: seq<Endpoint>, mode: ToStringMode, esc: Escaper)
    requires p.protocol == Ice1 && p.endpoint.Some? && p.endpoint.value.transport == Loc
    ensures ToString(p.(altEndpoints := alts), mode, esc) == ToString(p, mode, esc)
  {
  }
}
