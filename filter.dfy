/**
 * filter/filter.py: FilterBase.fingerprint, the digest every filter
 * deduplicates by. A request is identified by the text method + url, followed
 * by the urlencoded params for GET and params, data and json for POST; any
 * other object by its to_json(). The pieces are concatenated with no
 * separator, and the md5 of that one string is the fingerprint.
 */
module Fingerprints {
  import opened Common
  import Requests
  import opened Tasks

  /**
   * The text functions the fingerprint applies, as parameters:
   * `urlencode(v)` of a non-empty value, an item's `to_json()` text, and
   * `hashlib.md5(s.encode()).hexdigest()`. urlencode and json.dumps follow
   * a dict's insertion order, which the model's dict values do not hold, so
   * they are left to the parameter.
   */
  datatype Encoding = Encoding(urlencode: Val -> string, toJson: map<Key, Val> -> string, md5: string -> string)

  /** `x or {}` */
  function OrEmpty(v: Val): (r: Val)
    ensures Truthy(v) ==> r == v
    ensures !Truthy(v) ==> r == VDict(map[])
  {
    if Truthy(v) then v else VDict(map[])
  }

  /** `urlencode(v)`: the empty dict encodes as the empty string. */
  function UrlEncode(e: Encoding, v: Val): (s: string)
    ensures v == VDict(map[]) ==> s == ""
    ensures v != VDict(map[]) ==> s == e.urlencode(v)
  {
    if v == VDict(map[]) then "" else e.urlencode(v)
  }

  /** `urlencode(x or {})`: a falsy value contributes nothing. */
  lemma FalsyEncodesEmpty(e: Encoding, v: Val)
    requires !Truthy(v)
    ensures UrlEncode(e, OrEmpty(v)) == ""
  {
  }

  /** The text after method and url: params for GET; params, data and json for POST; nothing otherwise. */
  function BodyText(r: Requests.Request, verb: Val, e: Encoding): Result<string> {
    if verb == VStr("GET") then
      var p :- Requests.GetAttr(r, Params);
      Ok(UrlEncode(e, OrEmpty(p)))
    else if verb == VStr("POST") then
      var p :- Requests.GetAttr(r, Params);
      var d :- Requests.GetAttr(r, Data);
      var j :- Requests.GetAttr(r, Json);
      Ok(UrlEncode(e, OrEmpty(p)) + UrlEncode(e, OrEmpty(d)) + UrlEncode(e, OrEmpty(j)))
    else
      Ok("")
  }

  /**
   * The string fingerprint digests. `obj.method + obj.url` raises TypeError
   * unless both are strings (a method still None, say).
   */
  function FilterStr(obj: Task, e: Encoding): (res: Result<string>)
    ensures obj.ItemTask? ==> res == Ok(e.toJson(obj.fields))
    ensures (obj.RequestTask? && Requests.GetAttr(obj.r, Method).Ok? && !Requests.GetAttr(obj.r, Method).value.VStr?
             && BodyText(obj.r, Requests.GetAttr(obj.r, Method).value, e).Ok? && Url in obj.r.attrs) ==> res == Err(TypeError)
    ensures res.Ok? && obj.RequestTask? ==>
              Method in obj.r.attrs && obj.r.attrs[Method].VStr? && Url in obj.r.attrs && obj.r.attrs[Url].VStr?
              && BodyText(obj.r, obj.r.attrs[Method], e).Ok?
              && res.value == obj.r.attrs[Method].s + obj.r.attrs[Url].s + BodyText(obj.r, obj.r.attrs[Method], e).value
  {
    match obj
    case ItemTask(f) => Ok(e.toJson(f))
    case RequestTask(r) =>
      var verb :- Requests.GetAttr(r, Method);
      var body :- BodyText(r, verb, e);
      var url :- Requests.GetAttr(r, Url);
      if verb.VStr? && url.VStr? then Ok(verb.s + url.s + body) else Err(TypeError)
  }

  /** FilterBase.fingerprint */
  function Fingerprint(obj: Task, e: Encoding): Result<string> {
    var s :- FilterStr(obj, e);
    Ok(e.md5(s))
  }

  /** Whether a and b agree on method, url, params, data and json. */
  predicate SameFields(a: Requests.Request, b: Requests.Request) {
    Requests.GetAttr(a, Method) == Requests.GetAttr(b, Method)
    && Requests.GetAttr(a, Url) == Requests.GetAttr(b, Url)
    && Requests.GetAttr(a, Params) == Requests.GetAttr(b, Params)
    && Requests.GetAttr(a, Data) == Requests.GetAttr(b, Data)
    && Requests.GetAttr(a, Json) == Requests.GetAttr(b, Json)
  }

  /** Equal method, url, params, data and json give equal filter strings, hence equal fingerprints. */
  lemma Deterministic(a: Requests.Request, b: Requests.Request, e: Encoding)
    requires SameFields(a, b)
    ensures FilterStr(RequestTask(a), e) == FilterStr(RequestTask(b), e)
    ensures Fingerprint(RequestTask(a), e) == Fingerprint(RequestTask(b), e)
  {
    var m := Requests.GetAttr(a, Method);
    if m.Ok? {
      assert BodyText(a, m.value, e) == BodyText(b, m.value, e);
    }
  }

  /** A GET fingerprint depends on method, url and params only: data and json may be anything. */
  lemma GetIgnoresBody(a: Requests.Request, b: Requests.Request, e: Encoding)
    requires Requests.GetAttr(a, Method) == Ok(VStr("GET")) == Requests.GetAttr(b, Method)
    requires Requests.GetAttr(a, Url) == Requests.GetAttr(b, Url)
    requires Requests.GetAttr(a, Params) == Requests.GetAttr(b, Params)
    ensures Fingerprint(RequestTask(a), e) == Fingerprint(RequestTask(b), e)
    ensures FilterStr(RequestTask(a), e).Ok? ==>
              FilterStr(RequestTask(a), e).value == "GET" + a.attrs[Url].s + UrlEncode(e, OrEmpty(a.attrs[Params]))
  {
    assert BodyText(a, VStr("GET"), e) == BodyText(b, VStr("GET"), e);
  }

  /**
   * The urlencoded dicts follow one another with no separator, so a POST
   * whose params are moved to data (the other one being falsy) keeps its
   * filter string and its fingerprint: `params={'a': 1}` and
   * `data={'a': 1}` on the same url are judged repeats of each other.
   */
  lemma PostParamsDataCollide(a: Requests.Request, b: Requests.Request, e: Encoding)
    requires Requests.GetAttr(a, Method) == Ok(VStr("POST")) == Requests.GetAttr(b, Method)
    requires Requests.GetAttr(a, Url) == Requests.GetAttr(b, Url)
    requires Params in a.attrs && Data in a.attrs && Json in a.attrs
    requires Params in b.attrs && Data in b.attrs && Json in b.attrs
    requires a.attrs[Params] == b.attrs[Data] && !Truthy(a.attrs[Data]) && !Truthy(b.attrs[Params])
    requires a.attrs[Json] == b.attrs[Json]
    ensures FilterStr(RequestTask(a), e) == FilterStr(RequestTask(b), e)
    ensures Fingerprint(RequestTask(a), e) == Fingerprint(RequestTask(b), e)
  {
    FalsyEncodesEmpty(e, a.attrs[Data]);
    FalsyEncodesEmpty(e, b.attrs[Params]);
    var q, j := UrlEncode(e, OrEmpty(a.attrs[Params])), UrlEncode(e, OrEmpty(a.attrs[Json]));
    assert BodyText(a, VStr("POST"), e) == Ok(q + "" + j);
    assert BodyText(b, VStr("POST"), e) == Ok("" + q + j);
    assert q + "" + j == "" + q + j;
  }

  /**
   * The url and the encoded params follow one another with no separator, so
   * a GET whose url already ends in the encoded params, with no params of
   * its own, has the filter string of the shorter url with those params.
   */
  lemma GetUrlSuffixCollides(a: Requests.Request, b: Requests.Request, u: string, p: Val, e: Encoding)
    requires Requests.GetAttr(a, Method) == Ok(VStr("GET")) == Requests.GetAttr(b, Method)
    requires Requests.GetAttr(a, Url) == Ok(VStr(u + UrlEncode(e, OrEmpty(p))))
    requires Requests.GetAttr(b, Url) == Ok(VStr(u))
    requires Params in a.attrs && !Truthy(a.attrs[Params])
    requires Requests.GetAttr(b, Params) == Ok(p)
    ensures FilterStr(RequestTask(a), e) == FilterStr(RequestTask(b), e)
    ensures Fingerprint(RequestTask(a), e) == Fingerprint(RequestTask(b), e)
  {
    FalsyEncodesEmpty(e, a.attrs[Params]);
    var q := UrlEncode(e, OrEmpty(p));
    assert BodyText(a, VStr("GET"), e) == Ok("");
    assert BodyText(b, VStr("GET"), e) == Ok(q);
    assert FilterStr(RequestTask(a), e) == Ok("GET" + (u + q) + "");
    assert FilterStr(RequestTask(b), e) == Ok("GET" + u + q);
    assert "GET" + (u + q) + "" == "GET" + u + q;
  }

  /** Any other method contributes just method and url. */
  lemma OtherMethodUrlOnly(a: Requests.Request, b: Requests.Request, e: Encoding)
    requires Requests.GetAttr(a, Method) == Requests.GetAttr(b, Method)
    requires Requests.GetAttr(a, Method).Ok? && Requests.GetAttr(a, Method).value.VStr?
    requires Requests.GetAttr(a, Method).value !in {VStr("GET"), VStr("POST")}
    requires Requests.GetAttr(a, Url) == Requests.GetAttr(b, Url)
    ensures Fingerprint(RequestTask(a), e) == Fingerprint(RequestTask(b), e)
    ensures FilterStr(RequestTask(a), e).Ok? ==>
              FilterStr(RequestTask(a), e).value == a.attrs[Method].s + a.attrs[Url].s
  {
    if FilterStr(RequestTask(a), e).Ok? {
      assert BodyText(a, a.attrs[Method], e) == Ok("");
      assert a.attrs[Method].s + a.attrs[Url].s + "" == a.attrs[Method].s + a.attrs[Url].s;
    }
  }

  /**
   * An item's fingerprint is the md5 of its to_json() text: two items with
   * the same JSON text have the same fingerprint.
   */
  lemma ItemByJson(f: map<Key, Val>, g: map<Key, Val>, e: Encoding)
    requires e.toJson(f) == e.toJson(g)
    ensures Fingerprint(ItemTask(f), e) == Ok(e.md5(e.toJson(f)))
    ensures Fingerprint(ItemTask(f), e) == Fingerprint(ItemTask(g), e)
  {
  }

  /** A request whose method is still None (set_default not yet run) makes fingerprint raise TypeError. */
  lemma MethodNoneRaises(r: Requests.Request, e: Encoding)
    requires Method in r.attrs && r.attrs[Method] == VNone && Url in r.attrs
    ensures Fingerprint(RequestTask(r), e) == Err(TypeError)
  {
  }
}
