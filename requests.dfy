/**
 * network/request.py and network/request_method.py.
 *
 * A Request is its attribute dict. `_requests_params` is not stored: it is
 * the restriction of the attributes to `__REQUEST_ATTRS__`, which is what
 * `__setattr__` keeps it equal to, plus the `verify=False` entry that
 * `set_default` adds with `setdefault`. Attribute assignment, construction,
 * `set_default`, ordering, `to_dict` and `load_from_dict` are functions from
 * the old object to the new one.
 */
module Requests {
  import opened Common

  /** `__REQUEST_ATTRS__`: the attributes mirrored into `_requests_params`. */
  predicate IsRequestAttr(k: Key) {
    match k
    case Url | Method | Params | Data | Headers | Cookies | Files | Auth | Timeout
       | AllowRedirects | Proxies | Hooks | Stream | Verify | Cert | Json => true
    case _ => false
  }

  /** `pickle_attr`: the attributes to_dict serialises with dill and base64. */
  predicate IsPickleAttr(k: Key) {
    match k
    case Meta | Downloader | DownloaderParser | CookieJar | Command | JumpSpider
       | JumpSpiderKwargs | JumpRequestMiddleware => true
    case _ => false
  }

  /** The named keyword parameters of Request.__init__. */
  const InitParams: set<Key> :=
    {Url, Method, Params, Data, Headers, Cookies, Timeout, Proxies, Json,
     Meta, Downloader, DownloaderParser, FilterRepeat, KeepSession, KeepCookie,
     Callback, CookieJar, Priority, Command, JumpSpider, JumpSpiderKwargs,
     JumpRequestMiddleware}

  /** Membership in InitParams, as a case analysis. */
  predicate IsInitParam(k: Key) {
    match k
    case Url | Method | Params | Data | Headers | Cookies | Timeout | Proxies | Json
       | Meta | Downloader | DownloaderParser | FilterRepeat | KeepSession | KeepCookie
       | Callback | CookieJar | Priority | Command | JumpSpider | JumpSpiderKwargs
       | JumpRequestMiddleware => true
    case _ => false
  }

  lemma InitParamsAre(k: Key)
    ensures k in InitParams <==> IsInitParam(k)
  {
  }

  lemma InitParamsAll()
    ensures forall k :: k in InitParams <==> IsInitParam(k)
  {
    forall k ensures k in InitParams <==> IsInitParam(k) {
      InitParamsAre(k);
    }
  }

  /** settings.DEFAULT_QUEUE_PRIORITY */
  const DefaultQueuePriority: int := 300

  /** The default value of a named parameter of Request.__init__. */
  function InitDefault(key: Key): Val {
    if key == Priority then VInt(DefaultQueuePriority)
    else if key == FilterRepeat || key == KeepSession || key == KeepCookie then VBool(false)
    else VNone
  }

  /** `verifyDefaulted` records that set_default has run `_requests_params.setdefault('verify', False)`. */
  datatype Request = Request(attrs: map<Key, Val>, verifyDefaulted: bool)

  /** The `_requests_params` dict handed to the downloader. */
  function RequestsParams(r: Request): (p: map<Key, Val>)
    ensures forall k :: k in p <==> (k in r.attrs && IsRequestAttr(k)) || (k == Verify && r.verifyDefaulted)
    ensures forall k :: k in p ==> p[k] == if k in r.attrs then r.attrs[k] else VBool(false)
  {
    var mirrored := map k | k in r.attrs && IsRequestAttr(k) :: r.attrs[k];
    if r.verifyDefaulted && Verify !in r.attrs then mirrored[Verify := VBool(false)] else mirrored
  }

  /** The attribute value, or None when it is unset (a reading aid for contracts). */
  function Attr(r: Request, key: Key): Val {
    if key in r.attrs then r.attrs[key] else VNone
  }

  /** Every attribute set by __init__ is present. */
  ghost predicate Complete(r: Request) {
    forall k :: IsInitParam(k) ==> k in r.attrs
  }

  /** What __setattr__ keeps as invariant: a truthy callback is a name string and meta is never None. */
  predicate WellFormed(r: Request) {
    (Truthy(Attr(r, Callback)) ==> Attr(r, Callback).VStr?)
    && (Meta in r.attrs ==> r.attrs[Meta] != VNone)
  }

  /** The value __setattr__ stores for `key = value`. */
  function Stored(key: Key, value: Val): Result<Val> {
    if key == Callback && Truthy(value) && !value.VStr? then
      (if value.VFunc? then Ok(VStr(value.name)) else Err(AttributeError))
    else if key == Meta && value == VNone then Ok(VDict(map[]))
    else Ok(value)
  }

  /** `r.key` through __getattr__: an unset attribute raises AttributeError. */
  function GetAttr(r: Request, key: Key): (v: Result<Val>)
    ensures v.Ok? <==> key in r.attrs
    ensures v.Ok? ==> v.value == Attr(r, key)
  {
    if key in r.attrs then Ok(r.attrs[key]) else Err(AttributeError)
  }

  /** `r.key = value` through __setattr__. */
  function SetAttr(r: Request, key: Key, value: Val): (res: Result<Request>)
    ensures res.Ok? <==> Stored(key, value).Ok?
    ensures res.Ok? ==> res.value.verifyDefaulted == r.verifyDefaulted
  {
    var v :- Stored(key, value);
    Ok(Request(r.attrs[key := v], r.verifyDefaulted))
  }

  /**
   * Assigning a non-string callback stores its __name__ (a value without one
   * raises AttributeError), assigning meta = None stores {}, anything else is
   * stored as given; no other attribute changes.
   */
  lemma SetAttrStores(r: Request, key: Key, value: Val)
    ensures SetAttr(r, key, value).Err? <==> key == Callback && Truthy(value) && !value.VStr? && !value.VFunc?
    ensures SetAttr(r, key, value).Ok? ==>
              var r2 := SetAttr(r, key, value).value;
              r2.attrs.Keys == r.attrs.Keys + {key}
              && (forall k :: k in r.attrs && k != key ==> r2.attrs[k] == r.attrs[k])
              && r2.attrs[key] == (if key == Callback && value.VFunc? then VStr(value.name)
                                   else if key == Meta && value == VNone then VDict(map[])
                                   else value)
  {
  }

  /** An attribute of `__REQUEST_ATTRS__` is mirrored into `_requests_params`; any other leaves it alone. */
  lemma SetAttrMirrors(r: Request, key: Key, value: Val)
    requires SetAttr(r, key, value).Ok?
    ensures IsRequestAttr(key) ==>
              RequestsParams(SetAttr(r, key, value).value) == RequestsParams(r)[key := SetAttr(r, key, value).value.attrs[key]]
    ensures !IsRequestAttr(key) ==> RequestsParams(SetAttr(r, key, value).value) == RequestsParams(r)
  {
    var v := Stored(key, value).value;
    assert SetAttr(r, key, value) == Ok(Request(r.attrs[key := v], r.verifyDefaulted));
    ParamsOfSet(r, key, v);
  }

  lemma ParamsOfSet(r: Request, key: Key, v: Val)
    ensures var p, p2 := RequestsParams(r), RequestsParams(Request(r.attrs[key := v], r.verifyDefaulted));
            p2 == if IsRequestAttr(key) then p[key := v] else p
  {
    var p, p2 := RequestsParams(r), RequestsParams(Request(r.attrs[key := v], r.verifyDefaulted));
    var want := if IsRequestAttr(key) then p[key := v] else p;
    forall k ensures k in p2 <==> k in want {
    }
    forall k | k in p2 ensures p2[k] == want[k] {
    }
  }

  lemma SetAttrKeepsWellFormed(r: Request, key: Key, value: Val)
    requires WellFormed(r) && SetAttr(r, key, value).Ok?
    ensures WellFormed(SetAttr(r, key, value).value)
  {
  }

  /** The value an __init__ argument (or its default) ends up as. */
  function InitValue(args: map<Key, Val>, key: Key): Val {
    var given := if key in args then args[key] else InitDefault(key);
    var s := Stored(key, given);
    if s.Ok? then s.value else VNone
  }

  /**
   * Request(**args): every named parameter and every extra keyword argument
   * is assigned through __setattr__; `url` has no default.
   */
  function Init(args: map<Key, Val>): (res: Result<Request>)
    ensures res.Ok? <==> Url in args && (Callback in args ==> Stored(Callback, args[Callback]).Ok?)
  {
    if Url !in args then Err(TypeError)
    else if Callback in args && Stored(Callback, args[Callback]).Err? then Err(AttributeError)
    else Ok(Request(InitAttrs(args), false))
  }

  /** The attributes __init__ assigns: every named parameter and every extra keyword argument. */
  function InitAttrs(args: map<Key, Val>): (a: map<Key, Val>)
    ensures forall k :: k in a <==> IsInitParam(k) || k in args
    ensures forall k :: k in a ==> a[k] == InitValue(args, k)
  {
    InitParamsAll();
    map k | k in InitParams + args.Keys :: InitValue(args, k)
  }

  /** What Request(**args) holds in attribute `k`: the assigned argument, or the parameter's default. */
  lemma InitAttribute(args: map<Key, Val>, k: Key)
    requires Init(args).Ok?
    ensures k in Init(args).value.attrs <==> k in InitParams || k in args
    ensures k in args ==> Ok(Init(args).value.attrs[k]) == Stored(k, args[k])
    ensures k in InitParams && k !in args ==> Ok(Init(args).value.attrs[k]) == Stored(k, InitDefault(k))
  {
    var a := InitAttrs(args);
    assert Init(args).value.attrs == a;
    InitParamsAre(k);
    if k in a {
      var given := if k in args then args[k] else InitDefault(k);
      assert a[k] == InitValue(args, k);
      assert Stored(k, given).Ok?;
    }
  }

  /** The callback __init__ stores is a name whenever it is truthy. */
  lemma InitCallbackStored(args: map<Key, Val>)
    requires Callback in args ==> Stored(Callback, args[Callback]).Ok?
    ensures Truthy(InitValue(args, Callback)) ==> InitValue(args, Callback).VStr?
  {
  }

  /** The meta __init__ stores is never None. */
  lemma InitMetaStored(args: map<Key, Val>)
    ensures InitValue(args, Meta) != VNone
  {
  }

  lemma InitWellFormed(args: map<Key, Val>)
    requires Init(args).Ok?
    ensures WellFormed(Init(args).value) && Complete(Init(args).value)
    ensures !Init(args).value.verifyDefaulted
  {
    var a := InitAttrs(args);
    var r := Init(args).value;
    assert r.attrs == a;
    assert Complete(r) by {
      forall k | IsInitParam(k) ensures k in r.attrs {
      }
    }
    InitCallbackStored(args);
    InitMetaStored(args);
    assert Callback in a && a[Callback] == InitValue(args, Callback);
    assert Meta in a && a[Meta] == InitValue(args, Meta);
  }

  /** Assigning `keys` one after the other, as __init__ does, each to its argument or default. */
  function AssignAll(r: Request, keys: seq<Key>, args: map<Key, Val>): Result<Request>
    decreases keys
  {
    if keys == [] then Ok(r)
    else
      var r1 :- SetAttr(r, keys[0], if keys[0] in args then args[keys[0]] else InitDefault(keys[0]));
      AssignAll(r1, keys[1..], args)
  }

  /**
   * The closed form of Init agrees with the sequence of __setattr__ calls
   * __init__ makes, whatever order the assignments come in.
   */
  lemma InitIsAssignmentSequence(args: map<Key, Val>, keys: seq<Key>)
    requires Url in args
    requires forall i, j :: 0 <= i < j < |keys| ==> keys[i] != keys[j]
    requires forall x :: x in keys <==> IsInitParam(x) || x in args
    ensures Init(args) == AssignAll(Request(map[], false), keys, args)
  {
    AssignAllFrom(args, keys, Request(map[], false));
  }

  /** A request holding exactly the values __init__ assigns is what Init builds. */
  lemma InitOfAttrs(args: map<Key, Val>, r: Request)
    requires Url in args && !r.verifyDefaulted
    requires forall x :: x in r.attrs <==> IsInitParam(x) || x in args
    requires forall x :: x in r.attrs ==> r.attrs[x] == InitValue(args, x)
    requires Callback in args ==> Stored(Callback, args[Callback]).Ok?
    ensures Init(args) == Ok(r)
  {
    InitAttrsAre(args, r.attrs);
    assert r == Request(InitAttrs(args), false);
  }

  lemma InitAttrsAre(args: map<Key, Val>, attrs: map<Key, Val>)
    requires forall x :: x in attrs <==> IsInitParam(x) || x in args
    requires forall x :: x in attrs ==> attrs[x] == InitValue(args, x)
    ensures attrs == InitAttrs(args)
  {
    MapExt(attrs, InitAttrs(args));
  }

  lemma {:induction false} AssignAllFrom(args: map<Key, Val>, keys: seq<Key>, r: Request)
    requires Url in args && !r.verifyDefaulted
    requires forall i, j :: 0 <= i < j < |keys| ==> keys[i] != keys[j]
    requires forall x :: x in keys || x in r.attrs <==> IsInitParam(x) || x in args
    requires forall x :: x in keys ==> x !in r.attrs
    requires forall x :: x in r.attrs ==> r.attrs[x] == InitValue(args, x)
    requires Callback in args && Stored(Callback, args[Callback]).Err? ==> Callback in keys
    ensures Init(args) == AssignAll(r, keys, args)
  {
    if keys == [] {
      InitOfAttrs(args, r);
    } else {
      var k := keys[0];
      var given := if k in args then args[k] else InitDefault(k);
      if Stored(k, given).Err? {
        assert k == Callback && k in args;
      } else {
        var r1 := Request(r.attrs[k := InitValue(args, k)], false);
        assert SetAttr(r, k, given) == Ok(r1);
        var rest := keys[1..];
        assert forall x :: x in keys <==> x == k || x in rest;
        assert forall j :: 0 <= j < |rest| ==> rest[j] != k;
        AssignAllFrom(args, rest, r1);
      }
    }
  }

  /** ASCII upper-casing, as `str.upper` does on ASCII letters. */
  function Upper(s: string): (u: string)
    ensures |u| == |s|
    ensures forall i :: 0 <= i < |s| ==> u[i] == if 'a' <= s[i] <= 'z' then (s[i] as int - 32) as char else s[i]
  {
    if s == [] then [] else
      [if 'a' <= s[0] <= 'z' then (s[0] as int - 32) as char else s[0]] + Upper(s[1..])
  }

  /** dict(pairs): a later pair overrides an earlier one with the same key. */
  function PairsToMap(p: seq<(Key, Val)>): (m: map<Key, Val>)
    ensures forall i :: 0 <= i < |p| ==> p[i].0 in m
    ensures forall k :: k in m ==> exists i :: 0 <= i < |p| && p[i].0 == k
    ensures |p| > 0 ==> m[p[|p| - 1].0] == p[|p| - 1].1
  {
    if p == [] then map[] else
      var init := p[..|p| - 1];
      var m := PairsToMap(init);
      assert forall i :: 0 <= i < |init| ==> init[i] == p[i];
      m[p[|p| - 1].0 := p[|p| - 1].1]
  }

  /** In dict(pairs) every key maps to the value of its last pair. */
  lemma {:induction false} PairsToMapLastWins(p: seq<(Key, Val)>, i: nat)
    requires i < |p|
    requires forall j :: i < j < |p| ==> p[j].0 != p[i].0
    ensures PairsToMap(p)[p[i].0] == p[i].1
  {
    if i < |p| - 1 {
      var init := p[..|p| - 1];
      assert init[i] == p[i];
      assert forall j :: i < j < |init| ==> init[j] == p[j];
      PairsToMapLastWins(init, i);
    }
  }

  /** Class-level and settings-level values set_default reads. */
  datatype Defaults = Defaults(
    downloader: Val,        // Request.DOWNLOADER
    downloaderParser: Val,  // Request.DOWNLOADER_PARSER
    freshJar: Val,          // the RequestsCookieJar() created for a request without one
    requestTimeout: Val,    // settings.REQUEST_TIMEOUT
    userAgent: string)      // random_ua() or settings.DEFAULT_USER_AGENT, as RANDOM_USERAGENT chooses

  /** The method set_default keeps or chooses. */
  function DefaultMethod(r: Request): string
    requires Attr(r, Method).VStr? || !Truthy(Attr(r, Method))
  {
    if Truthy(Attr(r, Method)) then Upper(Attr(r, Method).s)
    else if Truthy(Attr(r, Data)) || Truthy(Attr(r, Json)) then "POST"
    else "GET"
  }

  /** `if value is None: value = default` */
  function NoneTo(v: Val, default: Val): Val {
    if v == VNone then default else v
  }

  /** The cookies step of set_default: None becomes {}, a tuple of pairs becomes a dict. */
  function DefaultCookies(c: Val): Val {
    match c
    case VNone => VDict(map[])
    case VPairs(p) => VDict(PairsToMap(p))
    case other => other
  }

  /** The value of a dict key, None when absent (`dict.get`). */
  function DictGet(m: map<Key, Val>, key: Key): Val {
    if key in m then m[key] else VNone
  }

  /**
   * The header update of set_default: User-Agent is added when missing or
   * falsy; when it is present, a missing or falsy lower-case `user-agent`
   * is added instead.
   */
  function WithUserAgent(h: map<Key, Val>, ua: string): (h2: map<Key, Val>)
    ensures K("User-Agent") in h2 && (|ua| > 0 ==> Truthy(h2[K("User-Agent")]))
    ensures Truthy(DictGet(h, K("User-Agent"))) ==> K("user-agent") in h2 && (|ua| > 0 ==> Truthy(h2[K("user-agent")]))
    ensures h2.Keys >= h.Keys
    ensures forall k :: k in h && k != K("User-Agent") && k != K("user-agent") ==> h2[k] == h[k]
    ensures Truthy(DictGet(h, K("User-Agent"))) && Truthy(DictGet(h, K("user-agent"))) ==> h2 == h
  {
    if !Truthy(DictGet(h, K("User-Agent"))) then h[K("User-Agent") := VStr(ua)]
    else if !Truthy(DictGet(h, K("user-agent"))) then h[K("user-agent") := VStr(ua)]
    else h
  }

  /** The timeout set_default gives a request without one: REQUEST_TIMEOUT or 60. */
  function DefaultTimeout(d: Defaults): Val {
    if Truthy(d.requestTimeout) then d.requestTimeout else VInt(60)
  }

  /**
   * When set_default raises AttributeError: an attribute it reads is unset
   * (data only when the method is falsy, json only when data is falsy too),
   * the method is truthy but not a string (no .upper()), or the headers are
   * neither None nor a dict (no .update()/.get()).
   */
  predicate SetDefaultFails(r: Request) {
    Method !in r.attrs
    || (Truthy(r.attrs[Method]) && !r.attrs[Method].VStr?)
    || (!Truthy(r.attrs[Method]) && (Data !in r.attrs || (!Truthy(r.attrs[Data]) && Json !in r.attrs)))
    || Meta !in r.attrs || Downloader !in r.attrs || DownloaderParser !in r.attrs || CookieJar !in r.attrs
    || Command !in r.attrs || Headers !in r.attrs || Cookies !in r.attrs || Timeout !in r.attrs
    || (r.attrs[Headers] != VNone && !r.attrs[Headers].VDict?)
  }

  /**
   * Request.set_default. Every step assigns a different attribute, and each
   * assignment goes through __setattr__ (none of the values is a callback,
   * and meta is only assigned {}), so the steps combine into one update.
   */
  function SetDefault(r: Request, d: Defaults): (res: Result<Request>)
    ensures res.Err? <==> SetDefaultFails(r)
  {
    if SetDefaultFails(r) then Err(AttributeError)
    else
      var headers := if r.attrs[Headers] == VNone then map[] else r.attrs[Headers].m;
      Ok(Request(r.attrs[Method := VStr(DefaultMethod(r))]
                        [Meta := NoneTo(r.attrs[Meta], VDict(map[]))]
                        [Downloader := NoneTo(r.attrs[Downloader], d.downloader)]
                        [DownloaderParser := NoneTo(r.attrs[DownloaderParser], d.downloaderParser)]
                        [CookieJar := NoneTo(r.attrs[CookieJar], d.freshJar)]
                        [Command := NoneTo(r.attrs[Command], VDict(map[]))]
                        [Cookies := DefaultCookies(r.attrs[Cookies])]
                        [Timeout := NoneTo(r.attrs[Timeout], DefaultTimeout(d))]
                        [Headers := VDict(WithUserAgent(headers, d.userAgent))],
                 true))
  }

  /** The method step of set_default raises: an attribute it reads is unset, or a truthy method has no .upper(). */
  predicate MethodStepFails(r: Request) {
    Method !in r.attrs
    || (Truthy(r.attrs[Method]) && !r.attrs[Method].VStr?)
    || (!Truthy(r.attrs[Method]) && (Data !in r.attrs || (!Truthy(r.attrs[Data]) && Json !in r.attrs)))
  }

  /** `if self.k is None: self.k = default` (cookies: a tuple of pairs becomes a dict as well). */
  function FillValue(k: Key, v: Val, d: Defaults): Val {
    match k
    case Downloader => NoneTo(v, d.downloader)
    case DownloaderParser => NoneTo(v, d.downloaderParser)
    case CookieJar => NoneTo(v, d.freshJar)
    case Cookies => DefaultCookies(v)
    case Timeout => NoneTo(v, DefaultTimeout(d))
    case _ => NoneTo(v, VDict(map[]))   // meta, command, headers
  }

  /**
   * One defaulting step on the attribute map and whether an earlier step
   * raised: after a raise nothing runs, and reading an unset attribute
   * raises AttributeError.
   */
  function FillStep(s: (map<Key, Val>, bool), k: Key, d: Defaults): (map<Key, Val>, bool) {
    if s.1 then s
    else if k !in s.0 then (s.0, true)
    else (s.0[k := FillValue(k, s.0[k], d)], false)
  }

  /** set_default's defaulting steps after the method, in the source's order. */
  function FillSteps(a: map<Key, Val>, d: Defaults): (map<Key, Val>, bool) {
    var s0 := (a, false);
    var s1 := FillStep(s0, Meta, d);
    var s2 := FillStep(s1, Downloader, d);
    var s3 := FillStep(s2, DownloaderParser, d);
    var s4 := FillStep(s3, CookieJar, d);
    var s5 := FillStep(s4, Command, d);
    var s6 := FillStep(s5, Headers, d);
    var s7 := FillStep(s6, Cookies, d);
    FillStep(s7, Timeout, d)
  }

  /**
   * set_default run step by step: the request it leaves, and the exception
   * it raises. A step that raises leaves the earlier steps' assignments in
   * place; `_requests_params.setdefault('verify', False)` runs once every
   * default is filled, before the user-agent update reads the headers.
   */
  function SetDefaultRun(r: Request, d: Defaults): (Request, Option<Exc>) {
    if MethodStepFails(r) then (r, Some(AttributeError))
    else
      var (a, raised) := FillSteps(r.attrs[Method := VStr(DefaultMethod(r))], d);
      if raised then (Request(a, r.verifyDefaulted), Some(AttributeError))
      else if Headers !in a || !a[Headers].VDict? then (Request(a, true), Some(AttributeError))
      else (Request(a[Headers := VDict(WithUserAgent(a[Headers].m, d.userAgent))], true), None)
  }

  /** A step keeps the attribute names, and a raise sticks. */
  lemma FillStepKeys(s: (map<Key, Val>, bool), k: Key, d: Defaults)
    ensures FillStep(s, k, d).0.Keys == s.0.Keys
    ensures FillStep(s, k, d).1 <==> s.1 || k !in s.0
  {
  }

  /** The defaulting steps raise exactly when one of their attributes is unset. */
  lemma FillRaises(a: map<Key, Val>, d: Defaults)
    ensures FillSteps(a, d).1 <==> Meta !in a || Downloader !in a || DownloaderParser !in a || CookieJar !in a
                                   || Command !in a || Headers !in a || Cookies !in a || Timeout !in a
  {
    var s1 := FillStep((a, false), Meta, d);
    var s2 := FillStep(s1, Downloader, d);
    var s3 := FillStep(s2, DownloaderParser, d);
    var s4 := FillStep(s3, CookieJar, d);
    var s5 := FillStep(s4, Command, d);
    var s6 := FillStep(s5, Headers, d);
    var s7 := FillStep(s6, Cookies, d);
    FillStepKeys((a, false), Meta, d);
    FillStepKeys(s1, Downloader, d);
    FillStepKeys(s2, DownloaderParser, d);
    FillStepKeys(s3, CookieJar, d);
    FillStepKeys(s4, Command, d);
    FillStepKeys(s5, Headers, d);
    FillStepKeys(s6, Cookies, d);
    FillStepKeys(s7, Timeout, d);
  }

  /** With every attribute set, the defaulting steps default each of theirs and change nothing else. */
  lemma FillAll(a: map<Key, Val>, d: Defaults)
    requires Meta in a && Downloader in a && DownloaderParser in a && CookieJar in a
    requires Command in a && Headers in a && Cookies in a && Timeout in a
    ensures !FillSteps(a, d).1
    ensures FillSteps(a, d).0 == a[Meta := NoneTo(a[Meta], VDict(map[]))]
                                  [Downloader := NoneTo(a[Downloader], d.downloader)]
                                  [DownloaderParser := NoneTo(a[DownloaderParser], d.downloaderParser)]
                                  [CookieJar := NoneTo(a[CookieJar], d.freshJar)]
                                  [Command := NoneTo(a[Command], VDict(map[]))]
                                  [Headers := NoneTo(a[Headers], VDict(map[]))]
                                  [Cookies := DefaultCookies(a[Cookies])]
                                  [Timeout := NoneTo(a[Timeout], DefaultTimeout(d))]
  {
    var m4 := FillFront(a, d);
    FillBack(m4, d);
  }

  /** The first four steps, meta to cookie jar, on a map where all four are set. */
  lemma FillFront(a: map<Key, Val>, d: Defaults) returns (m4: map<Key, Val>)
    requires Meta in a && Downloader in a && DownloaderParser in a && CookieJar in a
    ensures m4 == a[Meta := NoneTo(a[Meta], VDict(map[]))]
                   [Downloader := NoneTo(a[Downloader], d.downloader)]
                   [DownloaderParser := NoneTo(a[DownloaderParser], d.downloaderParser)]
                   [CookieJar := NoneTo(a[CookieJar], d.freshJar)]
    ensures FillStep(FillStep(FillStep(FillStep((a, false), Meta, d), Downloader, d), DownloaderParser, d), CookieJar, d)
            == (m4, false)
  {
    var m1 := a[Meta := NoneTo(a[Meta], VDict(map[]))];
    var m2 := m1[Downloader := NoneTo(a[Downloader], d.downloader)];
    var m3 := m2[DownloaderParser := NoneTo(a[DownloaderParser], d.downloaderParser)];
    m4 := m3[CookieJar := NoneTo(a[CookieJar], d.freshJar)];
    assert FillStep((a, false), Meta, d) == (m1, false);
    assert FillStep((m1, false), Downloader, d) == (m2, false);
    assert FillStep((m2, false), DownloaderParser, d) == (m3, false);
    assert FillStep((m3, false), CookieJar, d) == (m4, false);
  }

  /** The last four steps, command to timeout, on a map where all four are set. */
  lemma FillBack(m4: map<Key, Val>, d: Defaults)
    requires Command in m4 && Headers in m4 && Cookies in m4 && Timeout in m4
    ensures FillStep(FillStep(FillStep(FillStep((m4, false), Command, d), Headers, d), Cookies, d), Timeout, d)
            == (m4[Command := NoneTo(m4[Command], VDict(map[]))]
                  [Headers := NoneTo(m4[Headers], VDict(map[]))]
                  [Cookies := DefaultCookies(m4[Cookies])]
                  [Timeout := NoneTo(m4[Timeout], DefaultTimeout(d))], false)
  {
    var m5 := m4[Command := NoneTo(m4[Command], VDict(map[]))];
    var m6 := m5[Headers := NoneTo(m4[Headers], VDict(map[]))];
    var m7 := m6[Cookies := DefaultCookies(m4[Cookies])];
    assert FillStep((m4, false), Command, d) == (m5, false);
    assert FillStep((m5, false), Headers, d) == (m6, false);
    assert FillStep((m6, false), Cookies, d) == (m7, false);
  }

  /** set_default step by step raises exactly when the closed form does, always AttributeError. */
  lemma SetDefaultRunFails(r: Request, d: Defaults)
    ensures SetDefaultRun(r, d).1.Some? <==> SetDefaultFails(r)
    ensures SetDefaultRun(r, d).1.Some? ==> SetDefaultRun(r, d).1 == Some(AttributeError)
  {
    if !MethodStepFails(r) {
      var a1 := r.attrs[Method := VStr(DefaultMethod(r))];
      FillRaises(a1, d);
      if !FillSteps(a1, d).1 {
        FillAll(a1, d);
      }
    }
  }

  /** When it does not raise, set_default step by step leaves SetDefault's request. */
  lemma SetDefaultRunAgrees(r: Request, d: Defaults)
    requires SetDefaultRun(r, d).1.None?
    ensures SetDefaultRun(r, d).0 == SetDefault(r, d).value
  {
    SetDefaultRunFails(r, d);
    var a1 := r.attrs[Method := VStr(DefaultMethod(r))];
    FillAll(a1, d);
    var r2 := SetDefaultRun(r, d).0;
    var r3 := SetDefault(r, d).value;
    forall k | k in r2.attrs
      ensures k in r3.attrs && r2.attrs[k] == r3.attrs[k]
    {
    }
    MapExt(r2.attrs, r3.attrs);
  }

  /** The method after set_default: an explicit one upper-cased, else POST iff data or json is truthy. */
  lemma SetDefaultMethod(r: Request, d: Defaults)
    requires SetDefault(r, d).Ok?
    ensures Truthy(r.attrs[Method]) ==> r.attrs[Method].VStr? && SetDefault(r, d).value.attrs[Method] == VStr(Upper(r.attrs[Method].s))
    ensures !Truthy(r.attrs[Method]) && (Truthy(r.attrs[Data]) || Truthy(Attr(r, Json))) ==> SetDefault(r, d).value.attrs[Method] == VStr("POST")
    ensures !Truthy(r.attrs[Method]) && !Truthy(r.attrs[Data]) && !Truthy(Attr(r, Json)) ==> SetDefault(r, d).value.attrs[Method] == VStr("GET")
    ensures RequestsParams(SetDefault(r, d).value)[Method] == SetDefault(r, d).value.attrs[Method]
  {
  }

  /**
   * After set_default: meta, command and cookies are not None, a tuple of
   * cookie pairs has become a dict, the timeout is the request's own or
   * REQUEST_TIMEOUT or 60, and a missing cookie jar is a fresh one.
   */
  lemma SetDefaultFillsIn(r: Request, d: Defaults)
    requires SetDefault(r, d).Ok?
    ensures var a := SetDefault(r, d).value.attrs;
      a[Meta] != VNone && a[Command] != VNone && a[Cookies] != VNone && a[Headers].VDict?
      && (r.attrs[Cookies].VPairs? ==> a[Cookies] == VDict(PairsToMap(r.attrs[Cookies].p)))
      && a[Timeout] == (if r.attrs[Timeout] == VNone then DefaultTimeout(d) else r.attrs[Timeout])
      && a[CookieJar] == (if r.attrs[CookieJar] == VNone then d.freshJar else r.attrs[CookieJar])
  {
  }

  /** set_default assigns no attribute that a request without it lacks. */
  lemma SetDefaultKeepsNames(r: Request, d: Defaults)
    requires SetDefault(r, d).Ok?
    ensures forall k :: k in SetDefault(r, d).value.attrs <==> k in r.attrs
  {
  }

  /**
   * set_default assigns only values __setattr__ stores unchanged, so it
   * keeps the invariant; `_requests_params` gains a `verify` entry that keeps
   * an explicit value.
   */
  lemma SetDefaultKeeps(r: Request, d: Defaults)
    requires SetDefault(r, d).Ok?
    ensures WellFormed(r) ==> WellFormed(SetDefault(r, d).value)
    ensures Verify in RequestsParams(SetDefault(r, d).value)
    ensures Verify in RequestsParams(r) ==> RequestsParams(SetDefault(r, d).value)[Verify] == RequestsParams(r)[Verify]
  {
    var r2 := SetDefault(r, d).value;
    assert r2.verifyDefaulted;
    assert Verify in r.attrs ==> r2.attrs[Verify] == r.attrs[Verify];
    assert Attr(r2, Callback) == Attr(r, Callback);
  }

  /**
   * The user agent after set_default: a request without a truthy User-Agent
   * gets one; one with User-Agent but no truthy user-agent gets the
   * lower-case key as well; `_requests_params` sees the same dict.
   */
  lemma SetDefaultUserAgent(r: Request, d: Defaults)
    requires SetDefault(r, d).Ok?
    ensures var h := SetDefault(r, d).value.attrs[Headers].m;
            var h0 := if r.attrs[Headers] == VNone then map[] else r.attrs[Headers].m;
      (!Truthy(DictGet(h0, K("User-Agent"))) ==> h == h0[K("User-Agent") := VStr(d.userAgent)])
      && (Truthy(DictGet(h0, K("User-Agent"))) && !Truthy(DictGet(h0, K("user-agent"))) ==>
            h == h0[K("user-agent") := VStr(d.userAgent)])
      && RequestsParams(SetDefault(r, d).value)[Headers] == VDict(h)
  {
  }

  /** `a < b` (Request.__lt__): compares priorities. */
  function Less(a: Request, b: Request): (res: Result<bool>)
    ensures res.Ok? <==> Priority in a.attrs && Priority in b.attrs && a.attrs[Priority].VInt? && b.attrs[Priority].VInt?
  {
    var pa :- GetAttr(a, Priority);
    var pb :- GetAttr(b, Priority);
    if pa.VInt? && pb.VInt? then Ok(pa.i < pb.i) else Err(TypeError)
  }

  /** `<` on requests is the order of their priorities, hence a strict order. */
  lemma LessIsPriorityOrder(a: Request, b: Request, c: Request)
    ensures Less(a, b).Ok? ==> (Less(a, b).value <==> a.attrs[Priority].i < b.attrs[Priority].i)
    ensures Less(a, a).Ok? ==> !Less(a, a).value
    ensures Less(a, b).Ok? && Less(b, c).Ok? && Less(a, b).value && Less(b, c).value ==> Less(a, c).value
    ensures Less(a, b).Ok? && Less(a, b).value ==> !Less(b, a).value
  {
  }

  /** Whether to_dict keeps attribute `k` of `r`. */
  predicate Kept(r: Request, d: Defaults, k: Key)
    requires k in r.attrs
  {
    !Private(k) && Truthy(r.attrs[k])
    && !(k == Downloader && r.attrs[k] == d.downloader)
    && !(k == DownloaderParser && r.attrs[k] == d.downloaderParser)
  }

  /** Request.to_dict */
  function ToDict(r: Request, d: Defaults): map<Key, Val> {
    map k | k in r.attrs && Kept(r, d, k) :: if IsPickleAttr(k) then VBlob(r.attrs[k]) else r.attrs[k]
  }

  /**
   * to_dict omits `_`-prefixed names, falsy values and the class-default
   * downloader and parser, and encodes the pickled attributes.
   */
  lemma ToDictEntry(r: Request, d: Defaults, k: Key)
    ensures k in ToDict(r, d) <==> k in r.attrs && !Private(k) && Truthy(r.attrs[k])
                                   && !(k == Downloader && r.attrs[k] == d.downloader)
                                   && !(k == DownloaderParser && r.attrs[k] == d.downloaderParser)
    ensures k in ToDict(r, d) ==> ToDict(r, d)[k] == if IsPickleAttr(k) then VBlob(r.attrs[k]) else r.attrs[k]
  {
  }

  /** The kwargs load_from_dict passes to Request: pickled attributes decoded. */
  function Unpickled(m: map<Key, Val>): map<Key, Val> {
    map k | k in m :: if IsPickleAttr(k) && m[k].VBlob? then m[k].v else m[k]
  }

  /** LoadRequest.load_from_dict: decode the pickled attributes, then Request(**kwargs). */
  function LoadFromDict(m: map<Key, Val>): (res: Result<Request>)
    ensures (exists k :: k in m && IsPickleAttr(k) && !m[k].VBlob?) ==> res == Err(ValueError)
  {
    if exists k :: k in m && IsPickleAttr(k) && !m[k].VBlob? then Err(ValueError)
    else Init(Unpickled(m))
  }

  /** Decoding what to_dict encoded gives back the kept attributes. */
  lemma UnpickledToDict(r: Request, d: Defaults)
    ensures LoadFromDict(ToDict(r, d)) == Init(Unpickled(ToDict(r, d)))
    ensures forall k :: k in Unpickled(ToDict(r, d)) <==> k in ToDict(r, d)
    ensures forall k :: k in ToDict(r, d) ==> Unpickled(ToDict(r, d))[k] == r.attrs[k]
  {
  }

  /** A kept attribute is decoded back to its value, which __setattr__ stores unchanged. */
  lemma UnpickledKept(r: Request, d: Defaults, k: Key)
    requires WellFormed(r) && k in ToDict(r, d)
    ensures k in Unpickled(ToDict(r, d)) && Unpickled(ToDict(r, d))[k] == r.attrs[k]
    ensures Stored(k, r.attrs[k]) == Ok(r.attrs[k])
  {
    ToDictEntry(r, d, k);
    if k == Meta {
      assert r.attrs[Meta] != VNone;
    }
  }

  /** A request with a truthy url decodes from its to_dict without error. */
  lemma LoadFromDictOk(r: Request, d: Defaults)
    requires WellFormed(r)
    requires Url in r.attrs && Truthy(r.attrs[Url])
    ensures LoadFromDict(ToDict(r, d)) == Init(Unpickled(ToDict(r, d))) && Init(Unpickled(ToDict(r, d))).Ok?
  {
    var args := Unpickled(ToDict(r, d));
    UnpickledToDict(r, d);
    ToDictEntry(r, d, Url);
    ToDictEntry(r, d, Callback);
    assert Url in args;
    assert Callback in args ==> Stored(Callback, args[Callback]).Ok?;
  }

  /** Init stores an argument that __setattr__ keeps as it is. */
  lemma InitKeeps(args: map<Key, Val>, k: Key)
    requires Init(args).Ok? && k in args && Stored(k, args[k]) == Ok(args[k])
    ensures Init(args).value.attrs[k] == args[k]
  {
    InitAttribute(args, k);
  }

  /**
   * to_dict followed by load_from_dict rebuilds every attribute that to_dict
   * kept; every other named attribute returns to its __init__ default.
   */
  lemma LoadFromDictOfToDict(r: Request, d: Defaults, k: Key)
    requires WellFormed(r)
    requires Url in r.attrs && Truthy(r.attrs[Url])
    ensures LoadFromDict(ToDict(r, d)).Ok?
    ensures k in ToDict(r, d) ==> LoadFromDict(ToDict(r, d)).value.attrs[k] == r.attrs[k]
    ensures k in InitParams && k !in ToDict(r, d) ==>
              Ok(LoadFromDict(ToDict(r, d)).value.attrs[k]) == Stored(k, InitDefault(k))
  {
    var m := ToDict(r, d);
    var args := Unpickled(m);
    LoadFromDictOk(r, d);
    if k in m {
      UnpickledKept(r, d, k);
      InitKeeps(args, k);
    } else if k in InitParams {
      assert k !in args;
      InitAttribute(args, k);
    }
  }

  /** to_json: the JSON text of to_dict. */
  function ToJson(r: Request, d: Defaults): Bytes {
    BJson(ToDict(r, d))
  }

  /** LoadRequest.load_from_json */
  function LoadFromJson(b: Bytes): (res: Result<Request>)
    ensures !b.BJson? ==> res == Err(JsonDecodeError)
    ensures b.BJson? ==> res == LoadFromDict(b.d)
  {
    var m :- JsonLoads(b);
    LoadFromDict(m)
  }

  predicate SchemeChar(c: char) {
    ('a' <= c <= 'z') || ('A' <= c <= 'Z') || ('0' <= c <= '9') || c == '+' || c == '-' || c == '.'
  }

  predicate Letter(c: char) { ('a' <= c <= 'z') || ('A' <= c <= 'Z') }

  /** The index of the first ':' in s, or |s| when there is none. */
  function ColonIndex(s: string): (i: nat)
    ensures i <= |s| && (i < |s| ==> s[i] == ':') && forall j :: 0 <= j < i ==> s[j] != ':'
  {
    if s == [] then 0 else if s[0] == ':' then 0 else 1 + ColonIndex(s[1..])
  }

  predicate NetlocEnd(c: char) { c == '/' || c == '?' || c == '#' }

  /** The prefix of s up to the first '/', '?' or '#'. */
  function UntilNetlocEnd(s: string): (t: string)
    ensures t <= s && forall i :: 0 <= i < |t| ==> !NetlocEnd(t[i])
    ensures |t| < |s| ==> NetlocEnd(s[|t|])
  {
    if s == [] || NetlocEnd(s[0]) then [] else [s[0]] + UntilNetlocEnd(s[1..])
  }

  /** Whether url starts with a scheme (a letter, then scheme characters, up to the first ':'). */
  predicate HasScheme(url: string) {
    var i := ColonIndex(url);
    0 < i < |url| && Letter(url[0]) && forall j :: 0 <= j < i ==> SchemeChar(url[j])
  }

  /** urlparse(url).netloc: the authority after an optional scheme and '//'. */
  function Netloc(url: string): string {
    var rest := if HasScheme(url) then url[ColonIndex(url) + 1..] else url;
    if |rest| >= 2 && rest[..2] == "//" then UntilNetlocEnd(rest[2..]) else ""
  }

  /** Request.domain */
  function Domain(r: Request): (res: Result<string>)
    ensures res.Ok? <==> Url in r.attrs && r.attrs[Url].VStr?
  {
    var u :- GetAttr(r, Url);
    if u.VStr? then Ok(Netloc(u.s)) else Err(TypeError)
  }

  lemma {:induction false} UntilNetlocEndOfHost(host: string, tail: string)
    requires forall i :: 0 <= i < |host| ==> !NetlocEnd(host[i])
    requires tail == [] || NetlocEnd(tail[0])
    ensures UntilNetlocEnd(host + tail) == host
  {
    if host != [] {
      assert (host + tail)[0] == host[0];
      assert (host + tail)[1..] == host[1..] + tail;
      UntilNetlocEndOfHost(host[1..], tail);
    }
  }

  lemma {:induction false} ColonAfterScheme(scheme: string, rest: string)
    requires forall i :: 0 <= i < |scheme| ==> SchemeChar(scheme[i])
    ensures ColonIndex(scheme + rest) == |scheme| + ColonIndex(rest)
  {
    if scheme != [] {
      assert (scheme + rest)[0] == scheme[0] && SchemeChar(scheme[0]);
      assert (scheme + rest)[1..] == scheme[1..] + rest;
      assert forall i :: 0 <= i < |scheme[1..]| ==> SchemeChar(scheme[1..][i]) by {
        forall i | 0 <= i < |scheme[1..]| ensures SchemeChar(scheme[1..][i]) {
          assert scheme[1..][i] == scheme[i + 1];
        }
      }
      ColonAfterScheme(scheme[1..], rest);
      assert ColonIndex(scheme + rest) == 1 + ColonIndex((scheme + rest)[1..]);
    } else {
      assert scheme + rest == rest;
    }
  }

  /** A url that starts with a scheme and ':' has that scheme. */
  lemma SchemePrefix(scheme: string, after: string)
    requires |scheme| > 0 && Letter(scheme[0]) && forall i :: 0 <= i < |scheme| ==> SchemeChar(scheme[i])
    ensures ColonIndex(scheme + (":" + after)) == |scheme|
    ensures HasScheme(scheme + (":" + after))
  {
    var url := scheme + (":" + after);
    ColonAfterScheme(scheme, ":" + after);
    assert ColonIndex(":" + after) == 0;
    forall j | 0 <= j < |scheme| ensures SchemeChar(url[j]) {
      assert url[j] == scheme[j];
    }
  }

  /** Netloc, once the scheme and its ':' are known to end where rest begins. */
  lemma NetlocAfterScheme(url: string, rest: string)
    requires HasScheme(url) && url[ColonIndex(url) + 1..] == rest
    ensures Netloc(url) == if |rest| >= 2 && rest[..2] == "//" then UntilNetlocEnd(rest[2..]) else ""
  {
  }

  /** How `scheme://hp` splits around its ':' and its "//". */
  lemma SlashesSplit(scheme: string, hp: string)
    ensures (scheme + (":" + ("//" + hp)))[|scheme| + 1..] == "//" + hp
    ensures ("//" + hp)[..2] == "//" && ("//" + hp)[2..] == hp
    ensures scheme + (":" + ("//" + hp)) == scheme + "://" + hp
  {
  }

  /** `scheme://` + host + path regrouped. */
  lemma UrlRegroup(scheme: string, host: string, path: string)
    ensures scheme + "://" + host + path == scheme + "://" + (host + path)
  {
  }

  /** After `scheme://` the netloc runs up to the first '/', '?' or '#'. */
  lemma NetlocAfterSlashes(scheme: string, hp: string)
    requires |scheme| > 0 && Letter(scheme[0]) && forall i :: 0 <= i < |scheme| ==> SchemeChar(scheme[i])
    ensures Netloc(scheme + "://" + hp) == UntilNetlocEnd(hp)
  {
    var after := "//" + hp;
    SchemePrefix(scheme, after);
    SlashesSplit(scheme, hp);
    NetlocAfterScheme(scheme + (":" + after), after);
  }

  /** The domain of `scheme://host` followed by a path, query or fragment is host. */
  lemma NetlocOfUrl(scheme: string, host: string, path: string)
    requires |scheme| > 0 && Letter(scheme[0]) && forall i :: 0 <= i < |scheme| ==> SchemeChar(scheme[i])
    requires forall i :: 0 <= i < |host| ==> !NetlocEnd(host[i])
    requires path == [] || NetlocEnd(path[0])
    ensures Netloc(scheme + "://" + host + path) == host
  {
    UrlRegroup(scheme, host, path);
    NetlocAfterSlashes(scheme, host + path);
    UntilNetlocEndOfHost(host, path);
  }

  /**
   * A Request object: its `__dict__`, updated in place by attribute
   * assignment and set_default, and read by to_dict.
   */
  class RequestObject {
    var attrs: map<Key, Val>
    var verifyDefaulted: bool

    /** The value this object currently holds. */
    function Value(): Request
      reads this
    {
      Request(attrs, verifyDefaulted)
    }

    /** Request(**args) when it does not raise. */
    constructor (args: map<Key, Val>)
      requires Init(args).Ok?
      ensures Value() == Init(args).value
    {
      attrs := Init(args).value.attrs;
      verifyDefaulted := false;
    }

    /** `self.key = value` (__setattr__); on AttributeError nothing is stored. */
    method Assign(key: Key, value: Val) returns (err: Option<Exc>)
      modifies this
      ensures SetAttr(old(Value()), key, value).Ok? ==> err.None? && Value() == SetAttr(old(Value()), key, value).value
      ensures SetAttr(old(Value()), key, value).Err? ==> err == Some(AttributeError) && Value() == old(Value())
    {
      var v := value;
      if key == Callback && Truthy(value) && !value.VStr? {
        if !value.VFunc? {
          return Some(AttributeError);
        }
        v := VStr(value.name);
      } else if key == Meta && value == VNone {
        v := VDict(map[]);
      }
      attrs := attrs[key := v];
      return None;
    }

    /** The method step of set_default. */
    method SetDefaultMethodStep() returns (err: Option<Exc>)
      modifies this`attrs
      ensures err.Some? <==> MethodStepFails(old(Value()))
      ensures err.Some? ==> err == Some(AttributeError) && attrs == old(attrs)
      ensures err.None? ==> attrs == old(attrs)[Method := VStr(DefaultMethod(old(Value())))]
    {
      if Method !in attrs {
        return Some(AttributeError);
      }
      var m := attrs[Method];
      if Truthy(m) {
        if !m.VStr? {
          return Some(AttributeError);
        }
        attrs := attrs[Method := VStr(Upper(m.s))];
      } else {
        if Data !in attrs {
          return Some(AttributeError);
        }
        if Truthy(attrs[Data]) {
          attrs := attrs[Method := VStr("POST")];
        } else {
          if Json !in attrs {
            return Some(AttributeError);
          }
          attrs := attrs[Method := VStr(if Truthy(attrs[Json]) then "POST" else "GET")];
        }
      }
      return None;
    }

    /** `if self.k is None: self.k = default`; reading an unset attribute raises AttributeError. */
    method FillAttr(k: Key, d: Defaults) returns (raised: bool)
      modifies this`attrs
      ensures raised <==> k !in old(attrs)
      ensures raised ==> attrs == old(attrs)
      ensures !raised ==> attrs == old(attrs)[k := FillValue(k, old(attrs)[k], d)]
    {
      if k !in attrs {
        return true;
      }
      attrs := attrs[k := FillValue(k, attrs[k], d)];
      return false;
    }

    /** The steps of set_default that replace None (and a tuple of cookies) by a default, in the source's order. */
    method FillNones(d: Defaults) returns (raised: bool)
      modifies this`attrs
      ensures (attrs, raised) == FillSteps(old(attrs), d)
    {
      ghost var s := (attrs, false);
      raised := FillAttr(Meta, d);
      s := FillStep(s, Meta, d);
      if raised { return; }
      raised := FillAttr(Downloader, d);
      s := FillStep(s, Downloader, d);
      if raised { return; }
      raised := FillAttr(DownloaderParser, d);
      s := FillStep(s, DownloaderParser, d);
      if raised { return; }
      raised := FillAttr(CookieJar, d);
      s := FillStep(s, CookieJar, d);
      if raised { return; }
      raised := FillAttr(Command, d);
      s := FillStep(s, Command, d);
      if raised { return; }
      raised := FillAttr(Headers, d);
      s := FillStep(s, Headers, d);
      if raised { return; }
      raised := FillAttr(Cookies, d);
      s := FillStep(s, Cookies, d);
      if raised { return; }
      raised := FillAttr(Timeout, d);
    }

    /**
     * set_default, one step at a time; a step that raises leaves the
     * earlier steps' assignments in place. Every assignment goes through
     * __setattr__, which stores these values as given.
     */
    method SetDefaults(d: Defaults) returns (err: Option<Exc>)
      modifies this
      ensures (Value(), err) == SetDefaultRun(old(Value()), d)
      ensures err.Some? <==> SetDefaultFails(old(Value()))
      ensures err.Some? ==> err == Some(AttributeError)
      ensures err.None? ==> Value() == SetDefault(old(Value()), d).value
    {
      SetDefaultRunFails(Value(), d);
      if !SetDefaultFails(Value()) {
        SetDefaultRunAgrees(Value(), d);
      }
      err := SetDefaultMethodStep();
      if err.Some? {
        return;
      }
      var raised := FillNones(d);
      if raised {
        return Some(AttributeError);
      }
      verifyDefaulted := true;
      if Headers !in attrs || !attrs[Headers].VDict? {
        // `.update` / `.get` on a value that is not a dict
        return Some(AttributeError);
      }
      attrs := attrs[Headers := VDict(WithUserAgent(attrs[Headers].m, d.userAgent))];
      return None;
    }

    /** to_dict: one pass over `__dict__`, keeping and encoding entries as Request.to_dict does. */
    method AsDict(d: Defaults) returns (m: map<Key, Val>)
      ensures m == ToDict(Value(), d)
    {
      var rest := attrs.Keys;
      m := map[];
      while rest != {}
        invariant rest <= attrs.Keys
        invariant forall k :: k in m <==> k in attrs && k !in rest && Kept(Value(), d, k)
        invariant forall k :: k in m ==> m[k] == if IsPickleAttr(k) then VBlob(attrs[k]) else attrs[k]
        decreases rest
      {
        var k :| k in rest;
        rest := rest - {k};
        var value := attrs[k];
        if Private(k) || !Truthy(value) {
        } else if k == Downloader && value == d.downloader {
        } else if k == DownloaderParser && value == d.downloaderParser {
        } else if IsPickleAttr(k) {
          m := m[k := VBlob(value)];
        } else {
          m := m[k := value];
        }
      }
      assert forall k :: k in m <==> k in ToDict(Value(), d);
    }
  }

  /** The verbs of network/request_method.py. */
  datatype Verb = GET | POST | OPTIONS | HEAD | PATCH | DELETE

  function VerbName(v: Verb): string {
    match v
    case GET => "GET"
    case POST => "POST"
    case OPTIONS => "OPTIONS"
    case HEAD => "HEAD"
    case PATCH => "PATCH"
    case DELETE => "DELETE"
  }

  /** RequestGet(**kwargs), RequestPost(**kwargs), ...: `kwargs.update({'method': verb})`, then Request(**kwargs). */
  function RequestWithVerb(verb: Verb, kwargs: map<Key, Val>): Result<Request> {
    Init(kwargs[Method := VStr(VerbName(verb))])
  }

  /** The verb overrides any method keyword; every other keyword reaches Request unchanged. */
  lemma RequestWithVerbForcesMethod(verb: Verb, kwargs: map<Key, Val>, k: Key)
    ensures RequestWithVerb(verb, kwargs).Ok? <==> Url in kwargs && (Callback in kwargs ==> Stored(Callback, kwargs[Callback]).Ok?)
    ensures RequestWithVerb(verb, kwargs).Ok? ==> RequestWithVerb(verb, kwargs).value.attrs[Method] == VStr(VerbName(verb))
    ensures RequestWithVerb(verb, kwargs).Ok? && k in kwargs && k != Method ==>
              Ok(RequestWithVerb(verb, kwargs).value.attrs[k]) == Stored(k, kwargs[k])
  {
    var args := kwargs[Method := VStr(VerbName(verb))];
    if Init(args).Ok? {
      InitAttribute(args, Method);
      InitAttribute(args, k);
    }
  }
}
