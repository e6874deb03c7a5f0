/**
 * filter/filter_base.py: BaseFilter.fingerprint, an expression-for-expression
 * copy of FilterBase.fingerprint (module Fingerprints models both). The
 * lemmas here state the text it concatenates, in order.
 */
module BaseFilters {
  import opened Common
  import Requests
  import opened Tasks
  import opened Fingerprints

  /** A POST filter string is method and url, then params, data and json, in that order. */
  lemma PostPiecesInOrder(r: Requests.Request, e: Encoding)
    requires Requests.GetAttr(r, Method) == Ok(VStr("POST"))
    requires Params in r.attrs && Data in r.attrs && Json in r.attrs
    requires Url in r.attrs && r.attrs[Url].VStr?
    ensures FilterStr(RequestTask(r), e)
            == Ok("POST" + r.attrs[Url].s + UrlEncode(e, OrEmpty(r.attrs[Params]))
                  + UrlEncode(e, OrEmpty(r.attrs[Data])) + UrlEncode(e, OrEmpty(r.attrs[Json])))
  {
    var p, d, j := UrlEncode(e, OrEmpty(r.attrs[Params])), UrlEncode(e, OrEmpty(r.attrs[Data])), UrlEncode(e, OrEmpty(r.attrs[Json]));
    assert BodyText(r, VStr("POST"), e) == Ok(p + d + j);
    assert "POST" + r.attrs[Url].s + (p + d + j) == "POST" + r.attrs[Url].s + p + d + j;
  }

  /** A GET filter string is method and url, then the params alone. */
  lemma GetPieces(r: Requests.Request, e: Encoding)
    requires Requests.GetAttr(r, Method) == Ok(VStr("GET"))
    requires Params in r.attrs && Url in r.attrs && r.attrs[Url].VStr?
    ensures FilterStr(RequestTask(r), e) == Ok("GET" + r.attrs[Url].s + UrlEncode(e, OrEmpty(r.attrs[Params])))
  {
    assert BodyText(r, VStr("GET"), e) == Ok(UrlEncode(e, OrEmpty(r.attrs[Params])));
  }

  /** Another method gives just method and url; an item gives its JSON text. */
  lemma OtherPieces(r: Requests.Request, fields: map<Key, Val>, e: Encoding)
    requires Method in r.attrs && r.attrs[Method].VStr? && r.attrs[Method].s != "GET" && r.attrs[Method].s != "POST"
    requires Url in r.attrs && r.attrs[Url].VStr?
    ensures FilterStr(RequestTask(r), e) == Ok(r.attrs[Method].s + r.attrs[Url].s)
    ensures FilterStr(ItemTask(fields), e) == Ok(e.toJson(fields))
  {
    assert BodyText(r, r.attrs[Method], e) == Ok("");
    assert r.attrs[Method].s + r.attrs[Url].s + "" == r.attrs[Method].s + r.attrs[Url].s;
  }
}
