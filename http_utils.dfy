/**
 * The pure helpers of the JSON HTTP client: the error it reports (`JSONClientError`) and how
 * errors are classified and read, how a response's status is turned into a result or an error,
 * how a URL's host and port are found, how a base URL and a path are joined, and how a request's
 * headers are replaced.
 *
 * Transport, body reading and JSON decoding are not modelled: their outcomes are inputs
 * (a transport error text, a read error text, a decoded JSON value), and the `jsonutils`
 * accessors are function parameters.
 */
module HttpUtils {
  import opened Wrappers
  import opened Strings

  // ----- errors -----

  /** The error the client reports for an unsuccessful request. */
  datatype ClientError = ClientError(code: int, errorClass: string, details: string)

  /** A Go `error` value: a client error, or any other error with its `Error()` text. */
  datatype GoError =
    | ClientErr(ce: ClientError)
    | OtherError(text: string)
      /** The run-time panic of calling a method on a nil JSON value. */
    | NilDereference

  /** What `Cause()` reports a client error as. */
  datatype Cause = ClassCause(errorClass: string) | ErrServer | ErrClient | ErrUnclassified

  /**
   * `JSONClientError.Cause`: the error's own class when it has one; otherwise a server error
   * from code 500 up, a client error from 400 up, and unclassified below.
   */
  function ErrorCause(e: ClientError): (r: Cause)
    ensures e.errorClass != [] <==> r.ClassCause?
    ensures r.ClassCause? ==> r.errorClass == e.errorClass
    ensures e.errorClass == [] ==> (r == ErrServer <==> e.code >= 500)
    ensures e.errorClass == [] ==> (r == ErrClient <==> 400 <= e.code < 500)
    ensures e.errorClass == [] ==> (r == ErrUnclassified <==> e.code < 400)
  {
    if e.errorClass != [] then ClassCause(e.errorClass)
    else if e.code >= 500 then ErrServer
    else if e.code >= 400 then ErrClient
    else ErrUnclassified
  }

  /** `ErrorCode`: 0 for no error, the code of a client error, -1 for any other error. */
  function ErrorCode(err: Option<GoError>): (r: int)
    ensures err.None? ==> r == 0
    ensures err.Some? && err.value.ClientErr? ==> r == err.value.ce.code
    ensures err.Some? && !err.value.ClientErr? ==> r == -1
  {
    match err
    case None => 0
    case Some(ClientErr(ce)) => ce.code
    case Some(_) => -1
  }

  /**
   * `ErrorMsg`: "" for no error, the details of a client error, and the text of any other error
   * (the panic is given the text "nil dereference").
   */
  function ErrorMsg(err: Option<GoError>): (r: string)
    ensures err.None? ==> r == []
    ensures err.Some? && err.value.ClientErr? ==> r == err.value.ce.details
    ensures err.Some? && err.value.OtherError? ==> r == err.value.text
  {
    match err
    case None => []
    case Some(ClientErr(ce)) => ce.details
    case Some(OtherError(t)) => t
    case Some(NilDereference) => "nil dereference"
  }

  /**
   * `JSONClientError.ParseErrorFromJsonResponse`, given the receiver as it stands after the body
   * was unmarshalled into it (or the unmarshal error's text): no error when that left no code,
   * class or details; otherwise the receiver itself, with a zero code replaced by the status.
   */
  function ParseErrorFromJsonResponse(statusCode: int, unmarshalled: Result<ClientError, string>): (r: Option<GoError>)
    ensures unmarshalled.Err? ==> r.Some? && r.value.OtherError?
    ensures unmarshalled.Ok? ==>
      (r.None? <==> unmarshalled.value.code == 0 && unmarshalled.value.errorClass == [] && unmarshalled.value.details == [])
    ensures unmarshalled.Ok? && r.Some? ==>
      var ce := unmarshalled.value;
      r.value.ClientErr? && r.value.ce.errorClass == ce.errorClass && r.value.ce.details == ce.details &&
      r.value.ce.code == (if ce.code == 0 then statusCode else ce.code)
  {
    match unmarshalled
    case Err(msg) => Some(OtherError("body.Unmarshal: " + msg))
    case Ok(ce) =>
      if ce.code != 0 || |ce.errorClass| > 0 || |ce.details| > 0 then
        Some(ClientErr(if ce.code == 0 then ce.(code := statusCode) else ce))
      else None
  }

  /** A reported error never has code 0 when the status it is completed with is not 0. */
  lemma ParsedErrorHasCode(statusCode: int, unmarshalled: Result<ClientError, string>)
    requires statusCode != 0
    ensures var r := ParseErrorFromJsonResponse(statusCode, unmarshalled);
      ErrorCode(r) != 0 <==> r.Some?
  {
  }

  // ----- host and port -----

  /** The parts of a parsed URL that `GetAddrPort` reads. */
  datatype Url = Url(scheme: string, host: string)

  /**
   * `GetAddrPort`: for a host with a ':' after its first character, the text before it and the
   * 32-bit decimal port after it; otherwise the whole host with port 80 for "http" and 443 for
   * "https". A URL that does not parse, a port that is not a number and any other scheme are errors.
   */
  function GetAddrPort(parsed: Result<Url, string>): (r: Result<(string, int), string>)
    ensures parsed.Err? ==> r == Err(parsed.error)
    ensures parsed.Ok? && IndexByte(parsed.value.host, ':') > 0 ==>
      var k := IndexByte(parsed.value.host, ':');
      (r.Ok? <==> ParseInt32(parsed.value.host[k + 1..]).Some?) &&
      (r.Ok? ==> r.value.0 == parsed.value.host[..k] && r.value.1 == ParseInt32(parsed.value.host[k + 1..]).value)
    ensures parsed.Ok? && IndexByte(parsed.value.host, ':') <= 0 ==>
      (r.Ok? <==> parsed.value.scheme in {"http", "https"}) &&
      (r.Ok? ==> r.value.0 == parsed.value.host && r.value.1 == (if parsed.value.scheme == "http" then 80 else 443))
    ensures r.Ok? ==> ':' !in r.value.0 || IndexByte(r.value.0, ':') == 0
  {
    match parsed
    case Err(e) => Err(e)
    case Ok(u) =>
      var k := IndexByte(u.host, ':');
      if k > 0 then
        match ParseInt32(u.host[k + 1..])
        case None => Err("invalid port " + u.host[k + 1..])
        case Some(port) => Ok((u.host[..k], port))
      else if u.scheme == "http" then Ok((u.host, 80))
      else if u.scheme == "https" then Ok((u.host, 443))
      else Err("Unknown schema " + u.scheme)
  }

  /** A host with an explicit port is split back into that host and port. */
  lemma {:induction false} AddrPortRoundTrip(scheme: string, host: string, port: nat)
    requires host != [] && ':' !in host && port < Int32Cutoff
    ensures GetAddrPort(Ok(Url(scheme, host + ":" + Decimal(port)))) == Ok((host, port))
  {
    var h := host + ":" + Decimal(port);
    assert h[|host|] == ':';
    assert forall j :: 0 <= j < |host| ==> h[j] == host[j];
    assert IndexByte(h, ':') == |host|;
    assert h[..|host|] == host;
    assert h[|host| + 1..] == Decimal(port);
    ParseDecimal(port, Int32Cutoff);
  }

  // ----- paths -----

  /** `JoinPath`: the base without its trailing '/', one '/', and the path without its leading '/'. */
  function JoinPath(ep: string, path: string): string {
    TrimRight(ep, '/') + "/" + TrimLeft(path, '/')
  }

  /**
   * Exactly one '/' joins the two parts: the result is the base's text up to its trailing
   * slashes, one '/', and the path's text after its leading slashes, and neither part ends or
   * starts with another '/'.
   */
  lemma JoinPathOneSlash(ep: string, path: string)
    ensures exists e, p ::
      JoinPath(ep, path) == e + "/" + p && e <= ep && (e == [] || e[|e| - 1] != '/') &&
      (p == [] || p[0] != '/') && |p| <= |path| && p == path[|path| - |p|..] &&
      (forall k :: |e| <= k < |ep| ==> ep[k] == '/') && (forall k :: 0 <= k < |path| - |p| ==> path[k] == '/')
  {
    var e := TrimRight(ep, '/');
    var p := TrimLeft(path, '/');
    assert JoinPath(ep, path) == e + "/" + p;
  }

  /** Extra slashes on either side do not change the joined path. */
  lemma {:induction false} JoinPathExtraSlashes(ep: string, path: string)
    ensures JoinPath(ep + "/", path) == JoinPath(ep, path)
    ensures JoinPath(ep, "/" + path) == JoinPath(ep, path)
  {
    var s := ep + "/";
    assert s[..|s| - 1] == ep;
    var t := "/" + path;
    assert t[1..] == path;
  }

  // ----- responses -----

  /** What the model keeps of an HTTP response: status code and text, Location header and body. */
  datatype Response = Response(statusCode: int, status: string, location: string, body: string)

  /** The redirect error for a 3xx response. */
  function Redirect(resp: Response): ClientError {
    ClientError(resp.statusCode, "redirect", resp.location)
  }

  /**
   * `ParseResponse`, given the transport error (if any), the response, and the body read error
   * (if any): a transport error is a client error with code 499; a status below 300 yields the
   * body; 3xx is a "redirect" error carrying the Location header; from 400 up, an error with the
   * status code and the body as details, or the status text when the body is empty.
   */
  function ParseResponse(transportErr: Option<string>, resp: Response, readErr: Option<string>)
    : (r: Result<string, GoError>)
    ensures transportErr.Some? ==> r == Err(ClientErr(ClientError(499, [], transportErr.value)))
    ensures transportErr.None? && readErr.Some? ==> r.Err? && r.error.OtherError?
    ensures transportErr.None? && readErr.None? ==>
      (resp.statusCode < 300 <==> r.Ok?) &&
      (r.Ok? ==> r.value == resp.body) &&
      (300 <= resp.statusCode < 400 ==> r == Err(ClientErr(Redirect(resp)))) &&
      (resp.statusCode >= 400 ==>
        r == Err(ClientErr(ClientError(resp.statusCode, [], if resp.body != [] then resp.body else resp.status))))
  {
    if transportErr.Some? then Err(ClientErr(ClientError(499, [], transportErr.value)))
    else if readErr.Some? then Err(OtherError("Fail to read body: " + readErr.value))
    else if resp.statusCode < 300 then Ok(resp.body)
    else if resp.statusCode < 400 then Err(ClientErr(Redirect(resp)))
    else Err(ClientErr(ClientError(resp.statusCode, [], if |resp.body| > 0 then resp.body else resp.status)))
  }

  /**
   * How the errors of `ParseResponse` are classified: a lost connection and a 4xx status are
   * client errors, a 5xx status a server error, and a 3xx status has the class "redirect".
   */
  lemma ParseResponseCause(transportErr: Option<string>, resp: Response, readErr: Option<string>)
    ensures var r := ParseResponse(transportErr, resp, readErr);
      (transportErr.Some? ==> ErrorCause(r.error.ce) == ErrClient) &&
      (transportErr.None? && readErr.None? && 300 <= resp.statusCode < 400 ==>
        ErrorCause(r.error.ce) == ClassCause("redirect")) &&
      (transportErr.None? && readErr.None? && 400 <= resp.statusCode < 500 ==> ErrorCause(r.error.ce) == ErrClient) &&
      (transportErr.None? && readErr.None? && resp.statusCode >= 500 ==> ErrorCause(r.error.ce) == ErrServer)
  {
  }

  /** A decoded JSON value: an object with its members in order (keys distinct), or any other value. */
  datatype Json = JObject(members: seq<(string, Json)>) | JValue(text: string)

  /**
   * `jsonutils.GetAnyString`: the first of `keys` whose string value is not empty, or "".
   * `getString(j, k)` stands for `j.GetString(k)` ("" when absent or on error).
   */
  function GetAnyString(j: Json, keys: seq<string>, getString: (Json, string) -> string): (r: string)
    ensures r == [] <==> forall i :: 0 <= i < |keys| ==> getString(j, keys[i]) == []
    ensures r != [] ==> exists i :: 0 <= i < |keys| && getString(j, keys[i]) == r &&
                                    forall m :: 0 <= m < i ==> getString(j, keys[m]) == []
  {
    if keys == [] then []
    else if getString(j, keys[0]) != [] then getString(j, keys[0])
    else
      var rest := GetAnyString(j, keys[1..], getString);
      assert forall i :: 1 <= i < |keys| ==> keys[1..][i - 1] == keys[i];
      rest
  }

  const DetailKeys: seq<string> := ["message", "detail", "details", "error_msg"]
  const ClassKeys: seq<string> := ["title", "type", "error_code"]

  /** The JSON body of a response: parsed only when it starts with '{'. */
  function JsonBody(body: string, parse: string -> Option<Json>): (r: Option<Json>)
    ensures body == [] || body[0] != '{' ==> r.None?
  {
    if |body| > 0 && body[0] == '{' then parse(body) else None
  }

  /** The error as the body's `Unmarshal` fills it in, from a zero error. */
  function Unmarshalled(j: Json, unmarshal: Json -> Result<ClientError, string>): ClientError {
    if unmarshal(j).Ok? then unmarshal(j).value else ClientError(0, [], [])
  }

  /** An unmarshalled error that is reported as it is: it has a class, a 4xx/5xx code and details. */
  predicate Complete(u: ClientError) {
    u.errorClass != [] && u.code >= 400 && u.details != []
  }

  /**
   * The error reported after searching `inner` for error fields, starting from the unmarshalled
   * `u`: a numeric "code" sets the code, any other "code" the class; a code still zero is the
   * status; the first non-empty detail key sets the details and the first non-empty class key
   * the class.
   */
  predicate FilledFrom(ce: ClientError, u: ClientError, inner: Json, getString: (Json, string) -> string, statusCode: int) {
    var ecode := getString(inner, "code");
    var detail := GetAnyString(inner, DetailKeys, getString);
    var eclass := GetAnyString(inner, ClassKeys, getString);
    var numeric := ecode != [] && Atoi(ecode).Some?;
    var code := if numeric then Atoi(ecode).value else u.code;
    ce.code == (if code == 0 then statusCode else code) &&
    ce.details == (if detail != [] then detail else u.details) &&
    ce.errorClass == (if eclass != [] then eclass else if ecode != [] && !numeric then ecode else u.errorClass)
  }

  /**
   * `ParseJSONResponse`. Below 300 it yields the JSON body (nil unless the body starts with '{');
   * 3xx is a redirect error; from 400 up, a body that is not JSON gives the status code with the
   * body (or status text) as details. A JSON body is unmarshalled into the error, which is kept
   * as it is when it has a class, a code from 400 up and details. Otherwise, for an object, its
   * one member (or the object itself when it has several) is searched: a "code" that is a number
   * becomes the code and any other "code" the class; a zero code becomes the status; the first
   * non-empty detail key replaces the details and the first non-empty class key the class.
   * An empty object leaves nothing to search, and the code calls a method on nil.
   */
  method ParseJSONResponse(transportErr: Option<string>, resp: Response, readErr: Option<string>,
                           parse: string -> Option<Json>, unmarshal: Json -> Result<ClientError, string>,
                           getString: (Json, string) -> string)
    returns (r: Result<Option<Json>, GoError>)
    ensures transportErr.Some? ==> r == Err(ClientErr(ClientError(499, [], transportErr.value)))
    ensures transportErr.None? && readErr.Some? ==> r.Err? && r.error.OtherError?
    ensures transportErr.None? && readErr.None? ==>
      (resp.statusCode < 300 <==> r.Ok?) &&
      (r.Ok? ==> r.value == JsonBody(resp.body, parse)) &&
      (300 <= resp.statusCode < 400 ==> r == Err(ClientErr(Redirect(resp))))
    ensures transportErr.None? && readErr.None? && resp.statusCode >= 400 && JsonBody(resp.body, parse).None? ==>
      r == Err(ClientErr(ClientError(resp.statusCode, [], if resp.body != [] then resp.body else resp.status)))
    ensures transportErr.None? && readErr.None? && resp.statusCode >= 400 && JsonBody(resp.body, parse).Some? ==>
      var j := JsonBody(resp.body, parse).value;
      var u := Unmarshalled(j, unmarshal);
      r.Err? && (Complete(u) ==> r.error == ClientErr(u)) &&
      (!Complete(u) && j.JValue? ==>
        r.error == ClientErr(if unmarshal(j).Err? then u.(details := unmarshal(j).error) else u)) &&
      (!Complete(u) && j == JObject([]) ==> r.error == NilDereference) &&
      (!Complete(u) && j.JObject? && j.members != [] ==>
        r.error.ClientErr? && FilledFrom(r.error.ce, u, Inner(j), getString, resp.statusCode))
  {
    if transportErr.Some? {
      return Err(ClientErr(ClientError(499, [], transportErr.value)));
    }
    if readErr.Some? {
      return Err(OtherError("Fail to read body: " + readErr.value));
    }
    var jrbody := JsonBody(resp.body, parse);
    if resp.statusCode < 300 {
      return Ok(jrbody);
    } else if resp.statusCode < 400 {
      return Err(ClientErr(Redirect(resp)));
    }
    if jrbody.None? {
      var details := resp.status;
      if |resp.body| > 0 {
        details := resp.body;
      }
      return Err(ClientErr(ClientError(resp.statusCode, [], details)));
    }
    var j := jrbody.value;
    var ce := ClientError(0, [], []);
    var decoded := unmarshal(j);
    if decoded.Ok? {
      ce := decoded.value;
    }
    if |ce.errorClass| > 0 && ce.code >= 400 && |ce.details| > 0 {
      return Err(ClientErr(ce));
    }
    if !j.JObject? {
      var again := unmarshal(j);
      if again.Err? {
        ce := ce.(details := again.error);
      }
      return Err(ClientErr(ce));
    }
    if j.members == [] {
      return Err(NilDereference);
    }
    var inner := Inner(j);
    var ecode := getString(inner, "code");
    if |ecode| > 0 {
      var code := Atoi(ecode);
      if code.None? {
        ce := ce.(errorClass := ecode);
      } else {
        ce := ce.(code := code.value);
      }
    }
    if ce.code == 0 {
      ce := ce.(code := resp.statusCode);
    }
    var edetail := GetAnyString(inner, DetailKeys, getString);
    if |edetail| > 0 {
      ce := ce.(details := edetail);
    }
    var eclass := GetAnyString(inner, ClassKeys, getString);
    if |eclass| > 0 {
      ce := ce.(errorClass := eclass);
    }
    return Err(ClientErr(ce));
  }

  /** The value searched for error fields: an object's only member, or the object itself. */
  function Inner(j: Json): (r: Json)
    requires j.JObject? && j.members != []
    ensures |j.members| == 1 ==> r == j.members[0].1
    ensures |j.members| > 1 ==> r == j
  {
    if |j.members| > 1 then j else j.members[0].1
  }

  // ----- request headers -----

  /** Header values by canonical key; a key with no values is absent. */
  type Header = map<string, seq<string>>

  /** `Del(key)` followed by `Add(key, v)` for each of `values`. */
  function Replaced(h: Header, key: string, values: seq<string>): (r: Header)
    ensures values == [] ==> key !in r
    ensures values != [] ==> key in r && r[key] == values
    ensures forall k :: k != key ==> (k in r <==> k in h) && (k in r ==> r[k] == h[k])
  {
    if values == [] then h - {key} else h[key := values]
  }

  /** The header after replacing, in the order given, the values of each key of `arg`. */
  function ReplacedAll(h: Header, arg: map<string, seq<string>>, order: seq<string>, canon: string -> string): Header
    requires forall i :: 0 <= i < |order| ==> order[i] in arg
  {
    if order == [] then h
    else
      var k := order[|order| - 1];
      Replaced(ReplacedAll(h, arg, order[..|order| - 1], canon), canon(k), arg[k])
  }

  /** Whether no two keys of `arg` have the same canonical form. */
  predicate CanonInjective(arg: map<string, seq<string>>, canon: string -> string) {
    forall k1, k2 :: k1 in arg && k2 in arg && canon(k1) == canon(k2) ==> k1 == k2
  }

  /**
   * After the replacement, a key of the argument has exactly the argument's values (and is
   * absent when they are empty), and every header no key of the argument names is untouched.
   */
  lemma {:induction false} ReplacedAllMeaning(h: Header, arg: map<string, seq<string>>, order: seq<string>,
                                             canon: string -> string, key: string)
    requires forall i :: 0 <= i < |order| ==> order[i] in arg
    requires CanonInjective(arg, canon)
    requires forall i, j :: 0 <= i < j < |order| ==> order[i] != order[j]
    ensures var r := ReplacedAll(h, arg, order, canon);
      (forall i :: 0 <= i < |order| && canon(order[i]) == key ==>
        (arg[order[i]] == [] ==> key !in r) && (arg[order[i]] != [] ==> key in r && r[key] == arg[order[i]])) &&
      ((forall i :: 0 <= i < |order| ==> canon(order[i]) != key) ==>
        (key in r <==> key in h) && (key in r ==> r[key] == h[key]))
  {
    if order != [] {
      var init := order[..|order| - 1];
      ReplacedAllMeaning(h, arg, init, canon, key);
      assert forall i :: 0 <= i < |init| ==> init[i] == order[i];
    }
  }

  /** `h.Del(key)`, then `h.Add(key, v)` for each of `values` in turn. */
  method DelAdd(h: Header, key: string, values: seq<string>) returns (r: Header)
    ensures r == Replaced(h, key, values)
  {
    r := h - {key};
    for m := 0 to |values|
      invariant m == 0 ==> key !in r
      invariant m > 0 ==> key in r && r[key] == values[..m]
      invariant forall k :: k != key ==> (k in r <==> k in h) && (k in r ==> r[k] == h[k])
    {
      if key in r {
        r := r[key := r[key] + [values[m]]];
      } else {
        r := r[key := [values[m]]];
      }
    }
    if values == [] {
      assert r == h - {key};
    } else {
      assert values[..|values|] == values;
      assert r == h[key := values];
    }
  }

  /** The parts of a JSON request that `SetHeader` touches. */
  class JsonBaseRequest {
    var httpMethod: string
    const url: string
    var header: Header

    /** `NewJsonRequest`: the only header is the JSON content type. */
    constructor(httpMethod: string, url: string)
      ensures this.httpMethod == httpMethod && this.url == url
      ensures header == map["Content-Type" := ["application/json"]]
    {
      this.httpMethod := httpMethod;
      this.url := url;
      header := map["Content-Type" := ["application/json"]];
    }

    /**
     * `SetHeader`: for each key of `arg`, in the order the map is ranged over, deletes the
     * header and adds each of its values. `canon` stands for the canonical form of a header key.
     */
    method SetHeader(arg: map<string, seq<string>>, order: seq<string>, canon: string -> string)
      requires forall k :: k in arg <==> k in order
      requires forall i, j :: 0 <= i < j < |order| ==> order[i] != order[j]
      modifies this
      ensures header == ReplacedAll(old(header), arg, order, canon)
      ensures httpMethod == old(httpMethod)
    {
      for n := 0 to |order|
        invariant header == ReplacedAll(old(header), arg, order[..n], canon)
        invariant httpMethod == old(httpMethod)
      {
        var k := order[n];
        header := DelAdd(header, canon(k), arg[k]);
        assert order[..n + 1][..n] == order[..n];
      }
      assert order[..|order|] == order;
    }
  }
}
