/**
 * Values, exceptions and byte payloads shared by the whole model.
 *
 * Python values are represented by `Val`, which distinguishes just what the
 * modelled code inspects: truthiness, strings, integers, dicts, lists,
 * tuples of pairs, functions (known by their `__name__`) and cookie jars.
 */
module Common {

  datatype Option<T> = None | Some(value: T)

  /** The Python exceptions the modelled code raises. */
  datatype Exc =
    | AttributeError
    | TypeError
    | KeyError
    | ValueError
    | NameError
    | JsonDecodeError
    | DropRequest
    | DropItem
    | NotGeneratorFunction
    | NotStrictItemField
    | Raised(what: string)   // an exception raised by user code (a hook, a callback, the transport)

  datatype Result<T> = Ok(value: T) | Err(error: Exc) {
    predicate IsFailure() { Err? }
    function PropagateFailure<U>(): Result<U> requires Err? { Err(error) }
    function Extract(): T requires Ok? { value }
  }

  /**
   * A dict key or attribute name. The names the modelled code spells out are
   * constructors (their spelling is in the comment); any other name is K(text).
   */
  datatype Key =
    | Url | Method | Params | Data | Headers | Cookies | Files | Auth | Timeout
    | AllowRedirects | Proxies | Hooks | Stream | Verify | Cert | Json
    | Downloader | DownloaderParser | FilterRepeat | KeepSession | KeepCookie
    | Callback | CookieJar | Priority | Command | Meta | JumpSpider
    | JumpSpiderKwargs | JumpRequestMiddleware
    | Level | Session            // 'level', 'session' (set on children by parser.py)
    | K(text: string)

  /** A name beginning with '_' (only a K name can: the constructors spell snake_case words). */
  predicate Private(k: Key) {
    k.K? && |k.text| > 0 && k.text[0] == '_'
  }

  /** A Python value. */
  datatype Val =
    | VNone
    | VBool(b: bool)
    | VInt(i: int)
    | VStr(s: string)
    | VFunc(name: string)            // a function or bound method, known by its __name__
    | VDict(m: map<Key, Val>)        // a dict
    | VList(l: seq<Val>)             // a list
    | VPairs(p: seq<(Key, Val)>)     // a tuple of (key, value) pairs
    | VJar(id: nat, size: nat)       // a RequestsCookieJar object holding `size` cookies
    | VBlob(v: Val)                  // the base64 text of dill.dumps(v)
    | VObj(id: nat)                  // any other object: a class, a session, a downloader

  /** Python's truth value: None, False, 0, empty containers and empty jars are falsy. */
  predicate Truthy(v: Val) {
    match v
    case VNone => false
    case VBool(b) => b
    case VInt(i) => i != 0
    case VStr(s) => |s| > 0
    case VFunc(_) => true
    case VDict(m) => |m| > 0
    case VList(l) => |l| > 0
    case VPairs(p) => |p| > 0
    case VJar(_, size) => size > 0
    case VBlob(_) => true
    case VObj(_) => true
  }

  /**
   * A byte string as stored in Redis. JSON texts and pickles are kept as the
   * value they encode, so that decoding is the inverse of encoding.
   */
  datatype Bytes =
    | BText(s: string)                                       // plain text (uuids, md5 digests, '')
    | BJson(d: map<Key, Val>)                                // json.dumps of a dict
    | BPickle(attrs: map<Key, Val>, verifyDefaulted: bool)   // zlib(pickle) of a Request object

  /** bytes.decode() followed by json.loads: only JSON texts parse. */
  function JsonLoads(b: Bytes): (r: Result<map<Key, Val>>)
    ensures r.Ok? <==> b.BJson?
    ensures b.BJson? ==> r.value == b.d
  {
    if b.BJson? then Ok(b.d) else Err(JsonDecodeError)
  }

  /** Sum of a sequence of integers. */
  function Sum(s: seq<int>): int {
    if s == [] then 0 else Sum(s[..|s| - 1]) + s[|s| - 1]
  }

  /** Two maps with the same keys and the same value at each key are equal. */
  lemma MapExt<K, V>(a: map<K, V>, b: map<K, V>)
    requires forall x :: x in a <==> x in b
    requires forall x :: x in a ==> a[x] == b[x]
    ensures a == b
  {
  }

  lemma ConcatAssoc<T>(a: seq<T>, b: seq<T>, c: seq<T>)
    ensures (a + b) + c == a + (b + c)
  {
  }
}
