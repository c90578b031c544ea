/**
  The web API's request pipeline up to authentication (webapi/Program.cs):
  first the standard forwarded-headers step, then the custom middleware that
  lets the dedicated `X-Public-Proto` / `X-Public-Host` headers, which the
  ingress does not rewrite, override the request's scheme and host. The
  resulting scheme and host are what the OpenID Connect handler builds its
  redirect URIs from.
 */
module PublicOrigin {
  import opened Common

  /** Request headers, one (already joined) value per name. Header names
      compare case-insensitively; the model assumes every name is stored in
      lower case and looks names up in lower case, so an entry stored under
      any other spelling is not seen. */
  type Headers = map<string, string>

  datatype Request = Request(
    scheme: string,
    host: string,
    pathBase: string,
    path: string,
    query: string,
    headers: Headers)

  const PublicProtoHeader := "x-public-proto"
  const PublicHostHeader := "x-public-host"
  const ForwardedProtoHeader := "x-forwarded-proto"
  const ForwardedHostHeader := "x-forwarded-host"

  /** `Headers.TryGetValue(name, out v)`. */
  function Header(h: Headers, name: string): Option<string>
  {
    if name in h then Some(h[name]) else None
  }

  /** The four headers the pipeline reads. */
  function ForwardedProto(r: Request): Option<string> { Header(r.headers, ForwardedProtoHeader) }
  function ForwardedHost(r: Request): Option<string> { Header(r.headers, ForwardedHostHeader) }
  function PublicProto(r: Request): Option<string> { Header(r.headers, PublicProtoHeader) }
  function PublicHost(r: Request): Option<string> { Header(r.headers, PublicHostHeader) }

  /** Net effect of `UseForwardedHeaders` with every proxy trusted: a
      non-empty `X-Forwarded-Proto` becomes the scheme and a non-empty
      `X-Forwarded-Host` becomes the host. */
  function ApplyForwardedHeaders(r: Request): (r': Request)
    ensures Present(ForwardedProto(r)) ==> r'.scheme == ForwardedProto(r).value
    ensures !Present(ForwardedProto(r)) ==> r'.scheme == r.scheme
    ensures Present(ForwardedHost(r)) ==> r'.host == ForwardedHost(r).value
    ensures !Present(ForwardedHost(r)) ==> r'.host == r.host
    ensures r' == r.(scheme := r'.scheme, host := r'.host)
  {
    r.(scheme := OrElse(ForwardedProto(r), r.scheme),
       host := OrElse(ForwardedHost(r), r.host))
  }

  /** The custom middleware: a non-empty `X-Public-Proto` replaces the
      scheme, a non-empty `X-Public-Host` replaces the host, and nothing else
      about the request (path, query, headers) changes. */
  function ApplyPublicHeaders(r: Request): (r': Request)
    ensures Present(PublicProto(r)) ==> r'.scheme == PublicProto(r).value
    ensures !Present(PublicProto(r)) ==> r'.scheme == r.scheme
    ensures Present(PublicHost(r)) ==> r'.host == PublicHost(r).value
    ensures !Present(PublicHost(r)) ==> r'.host == r.host
    ensures r' == r.(scheme := r'.scheme, host := r'.host)
  {
    var proto := PublicProto(r);
    var r1 := if Present(proto) then r.(scheme := proto.value) else r;
    var host := PublicHost(r);
    if Present(host) then r1.(host := host.value) else r1
  }

  /** The two steps in the order the application registers them: the
      dedicated header, else the forwarded header, else the request's own. */
  function Pipeline(r: Request): (r': Request)
    ensures r'.scheme == OrElse(PublicProto(r), OrElse(ForwardedProto(r), r.scheme))
    ensures r'.host == OrElse(PublicHost(r), OrElse(ForwardedHost(r), r.host))
    ensures r' == r.(scheme := r'.scheme, host := r'.host)
  {
    ApplyPublicHeaders(ApplyForwardedHeaders(r))
  }

  /** The scheme override looks only at `X-Public-Proto`: two requests that
      agree on that header and on their incoming scheme end with the same
      scheme, whatever their other headers say. */
  lemma SchemeOverrideIsLocal(a: Request, b: Request)
    requires PublicProto(a) == PublicProto(b) && a.scheme == b.scheme
    ensures ApplyPublicHeaders(a).scheme == ApplyPublicHeaders(b).scheme
  {
  }

  /** Likewise the host override looks only at `X-Public-Host`. */
  lemma HostOverrideIsLocal(a: Request, b: Request)
    requires PublicHost(a) == PublicHost(b) && a.host == b.host
    ensures ApplyPublicHeaders(a).host == ApplyPublicHeaders(b).host
  {
  }

  /** Running the override twice is the same as running it once. */
  lemma OverrideIdempotent(r: Request)
    ensures ApplyPublicHeaders(ApplyPublicHeaders(r)) == ApplyPublicHeaders(r)
  {
  }

  /** Ordering: because the custom middleware runs after the forwarded-headers
      step, non-empty dedicated headers decide the final origin even when the
      standard forwarded headers say something else. */
  lemma PublicHeadersWin(r: Request)
    requires Present(PublicProto(r)) && Present(PublicHost(r))
    ensures Pipeline(r).scheme == PublicProto(r).value
    ensures Pipeline(r).host == PublicHost(r).value
  {
  }

  /** Without the dedicated headers the forwarded headers decide, and
      without either the request keeps its own scheme and host. */
  lemma FallbackOrder(r: Request)
    requires !Present(PublicProto(r)) && !Present(PublicHost(r))
    ensures Pipeline(r).scheme == OrElse(ForwardedProto(r), r.scheme)
    ensures Pipeline(r).host == OrElse(ForwardedHost(r), r.host)
    ensures Pipeline(r).path == r.path && Pipeline(r).headers == r.headers
  {
  }

  /** The forwarded-headers step reads only `X-Forwarded-Proto` and
      `X-Forwarded-Host`: setting any other header, such as `X-Public-Proto`,
      before the step changes nothing in its result but that header. */
  lemma ForwardedStepIgnoresOtherHeaders(r: Request, name: string, v: string)
    requires name != ForwardedProtoHeader && name != ForwardedHostHeader
    ensures var r1 := r.(headers := r.headers[name := v]);
            ApplyForwardedHeaders(r1) == ApplyForwardedHeaders(r).(headers := r1.headers)
  {
    var r1 := r.(headers := r.headers[name := v]);
    assert ForwardedProto(r1) == ForwardedProto(r);
    assert ForwardedHost(r1) == ForwardedHost(r);
  }
}
