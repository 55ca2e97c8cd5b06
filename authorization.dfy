/**
 * The on-demand TLS gate (`SailSslProxyController::__invoke`): the proxy
 * asks whether it may issue a certificate for `domain`, and the answer is an
 * empty response, 200 when the domain is in the configured allow-list and
 * 503 otherwise. A query value or list entry is a string or `null`
 * (`None`).
 */
module Authorization {
  import opened Wrappers

  const Allowed: int := 200
  const Denied: int := 503

  datatype Response = Response(status: int, body: string)

  /**
   * PHP's `==` between two values that are each a string or `null`: `null`
   * equals `null` and the empty string, two strings compare as strings.
   */
  predicate LooselyEqual(a: Option<string>, b: Option<string>)
  {
    match (a, b) {
      case (None, None) => true
      case (None, Some(t)) => t == ""
      case (Some(s), None) => s == ""
      case (Some(s), Some(t)) => s == t
    }
  }

  /** Non-strict `in_array($needle, $haystack)`. */
  function InArray(needle: Option<string>, haystack: seq<Option<string>>): (b: bool)
    ensures b <==> exists i :: 0 <= i < |haystack| && LooselyEqual(needle, haystack[i])
  {
    if |haystack| == 0 then false
    else LooselyEqual(needle, haystack[0]) || InArray(needle, haystack[1..])
  }

  /** `__invoke` for the query value `domain` and `authorized_domains`. */
  function Invoke(domain: Option<string>, authorizedDomains: seq<Option<string>>): (r: Response)
    ensures r.body == ""
    ensures r.status == Allowed || r.status == Denied
    ensures r.status == Allowed <==> exists i :: 0 <= i < |authorizedDomains| && LooselyEqual(domain, authorizedDomains[i])
  {
    if InArray(domain, authorizedDomains) then Response(Allowed, "") else Response(Denied, "")
  }

  /** A non-empty domain is let through exactly when the list holds it verbatim. */
  lemma NamedDomainNeedsExactEntry(domain: string, authorizedDomains: seq<Option<string>>)
    requires domain != ""
    ensures Invoke(Some(domain), authorizedDomains).status == Allowed <==> Some(domain) in authorizedDomains
  {
    if Some(domain) in authorizedDomains {
      var i :| 0 <= i < |authorizedDomains| && authorizedDomains[i] == Some(domain);
      assert LooselyEqual(Some(domain), authorizedDomains[i]);
    }
  }

  /**
   * A request without `domain` (or with an empty one) is let through exactly
   * when the list holds `null` or the empty string.
   */
  lemma MissingDomain(domain: Option<string>, authorizedDomains: seq<Option<string>>)
    requires domain == None || domain == Some("")
    ensures Invoke(domain, authorizedDomains).status == Allowed <==> None in authorizedDomains || Some("") in authorizedDomains
  {
    if None in authorizedDomains {
      var i :| 0 <= i < |authorizedDomains| && authorizedDomains[i] == None;
      assert LooselyEqual(domain, authorizedDomains[i]);
    }
    if Some("") in authorizedDomains {
      var i :| 0 <= i < |authorizedDomains| && authorizedDomains[i] == Some("");
      assert LooselyEqual(domain, authorizedDomains[i]);
    }
  }

  /**
   * With the default configuration, a list holding only the host of
   * `app.url`: a named domain passes exactly when it is that host, and when
   * the URL has no host (`null`) a request without `domain` passes.
   */
  lemma DefaultAllowList(domain: Option<string>, appHost: Option<string>)
    ensures domain.Some? && domain.value != "" ==> (Invoke(domain, [appHost]).status == Allowed <==> appHost == domain)
    ensures appHost.None? ==> (Invoke(domain, [appHost]).status == Allowed <==> domain == None || domain == Some(""))
  {
    assert LooselyEqual(domain, [appHost][0]) ==> Invoke(domain, [appHost]).status == Allowed;
  }
}
