/**
 * middleware/middleware_request_check.py: RequestCheckMiddleware.request_in,
 * the domain whitelist. A spider whose `spider_domains` is a non-empty list
 * lets through only requests whose url's netloc is in it; filter_repeat
 * without FILTER_REQUEST only logs a warning.
 */
module RequestCheckMiddlewares {
  import opened Common
  import Requests

  /** `urlparse(request.url).netloc`, as a value compared against the list: no str when url is not one. */
  function NetlocOf(r: Requests.Request): (n: Result<Val>)
    ensures n.Ok? <==> Url in r.attrs
    ensures n.Ok? && r.attrs[Url].VStr? ==> n.value == VStr(Requests.Netloc(r.attrs[Url].s))
    ensures n.Ok? && !r.attrs[Url].VStr? ==> !n.value.VStr?
  {
    var u :- Requests.GetAttr(r, Url);
    if u.VStr? then Ok(VStr(Requests.Netloc(u.s))) else Ok(VNone)
  }

  /**
   * request_in: the outcome (DropRequestException or not) and whether the
   * warning is logged. `domains` is the spider class's spider_domains and
   * `filterRequest` settings.FILTER_REQUEST.
   */
  function RequestIn(r: Requests.Request, domains: Val, filterRequest: bool): (res: (Result<()>, bool))
    ensures res.1 <==> FilterRepeat in r.attrs && Truthy(r.attrs[FilterRepeat]) && !filterRequest && Url in r.attrs
    ensures FilterRepeat !in r.attrs ==> res.0 == Err(AttributeError)
    ensures FilterRepeat in r.attrs && Url !in r.attrs
            && ((Truthy(r.attrs[FilterRepeat]) && !filterRequest) || (domains.VList? && |domains.l| > 0)) ==>
              res.0 == Err(AttributeError)
    ensures FilterRepeat in r.attrs && !(domains.VList? && |domains.l| > 0)
            && (Url in r.attrs || !Truthy(r.attrs[FilterRepeat]) || filterRequest) ==>
              res.0 == Ok(())
    ensures FilterRepeat in r.attrs && domains.VList? && |domains.l| > 0 && Url in r.attrs ==>
              (res.0 == Err(DropRequest) <==> NetlocOf(r).value !in domains.l)
              && (res.0 != Err(DropRequest) ==> res.0 == Ok(()))
  {
    match Requests.GetAttr(r, FilterRepeat)
    case Err(e) => (Err(e), false)
    case Ok(fr) =>
      // the warning's message reads request.url
      if Truthy(fr) && !filterRequest && Url !in r.attrs then (Err(AttributeError), false)
      else
        var warned := Truthy(fr) && !filterRequest;
        if domains.VList? && |domains.l| != 0 then
          match NetlocOf(r)
          case Err(e) => (Err(e), warned)
          case Ok(domain) => (if domain !in domains.l then Err(DropRequest) else Ok(()), warned)
        else (Ok(()), warned)
  }

  /**
   * A request for `scheme://host` plus a path passes the whitelist iff host
   * is listed; filter_repeat never makes this middleware drop.
   */
  lemma WhitelistByHost(r: Requests.Request, domains: seq<Val>, scheme: string, host: string, path: string,
                        filterRequest: bool)
    requires |domains| > 0 && FilterRepeat in r.attrs
    requires |scheme| > 0 && Requests.Letter(scheme[0])
    requires forall i :: 0 <= i < |scheme| ==> Requests.SchemeChar(scheme[i])
    requires forall i :: 0 <= i < |host| ==> !Requests.NetlocEnd(host[i])
    requires path == [] || Requests.NetlocEnd(path[0])
    requires Url in r.attrs && r.attrs[Url] == VStr(scheme + "://" + host + path)
    ensures RequestIn(r, VList(domains), filterRequest).0 == (if VStr(host) in domains then Ok(()) else Err(DropRequest))
  {
    Requests.NetlocOfUrl(scheme, host, path);
  }

  /**
   * Whatever filter_repeat and FILTER_REQUEST are, they decide the warning
   * only, not the outcome, for a request with a url; without one the
   * warning's message raises AttributeError.
   */
  lemma FilterRepeatOnlyWarns(r: Requests.Request, domains: Val, v: Val)
    requires FilterRepeat in r.attrs
    ensures Url in r.attrs ==> RequestIn(r.(attrs := r.attrs[FilterRepeat := v]), domains, false).0 == RequestIn(r, domains, true).0
    ensures Url !in r.attrs ==>
              RequestIn(r.(attrs := r.attrs[FilterRepeat := v]), domains, false).0
              == (if Truthy(v) then Err(AttributeError) else RequestIn(r, domains, true).0)
  {
    assert NetlocOf(r.(attrs := r.attrs[FilterRepeat := v])) == NetlocOf(r);
  }
}
