/**
 * The JSON-RPC gateway: HTTP POST bodies carrying JSON-RPC 2.0 calls are
 * turned into asynchronous bus invocations, and the answers into JSON
 * envelopes written back on the connection.  A body is either one call
 * object or a batch (an array), whose elements are answered one after the
 * other inside one bracketed array.
 *
 * json-c and blobmsg appear as the `Json` value; the bus (`ubus_lookup_id`,
 * `ubus_invoke`, `ubus_invoke_async`) and the json-c tokener appear as
 * oracle values passed in by the caller.
 */
module Gateway {
  import opened Wrappers
  import opened Json
  import opened Chunked
  import opened Dispatch
  import opened Connection

  /** At most this many body bytes are fed to the tokener. */
  const MaxPostSize: nat := 4096

  /** The session id used when authentication is switched off: 32 zeros. */
  const DefaultSid: string := "00000000000000000000000000000000"

  // ---------------------------------------------------------------------
  // Error table and envelopes
  // ---------------------------------------------------------------------

  datatype RpcError =
    | ParseError | InvalidRequest | MethodNotFound | InvalidParams | InternalError
    | ObjectNotFound | SessionNotFound | AccessDenied | Timeout

  /** The errors JSON-RPC 2.0 itself defines, as opposed to the gateway's own. */
  predicate StandardError(e: RpcError)
  {
    e in {ParseError, InvalidRequest, MethodNotFound, InvalidParams, InternalError}
  }

  /**
   * `json_errors[type].code`.  The five JSON-RPC errors carry the codes
   * section 5.1 of the JSON-RPC 2.0 specification assigns them (-32700 and
   * -32600 to -32603); the gateway's own errors lie in the range that
   * section reserves for server errors (-32099 to -32000).
   */
  function ErrorCode(e: RpcError): (c: int)
    ensures StandardError(e) ==> c == -32700 || -32603 <= c <= -32600
    ensures !StandardError(e) ==> -32099 <= c <= -32000
  {
    match e
    case ParseError => -32700
    case InvalidRequest => -32600
    case MethodNotFound => -32601
    case InvalidParams => -32602
    case InternalError => -32603
    case ObjectNotFound => -32000
    case SessionNotFound => -32001
    case AccessDenied => -32002
    case Timeout => -32003
  }

  function ErrorMessage(e: RpcError): string
  {
    match e
    case ParseError => "Parse error"
    case InvalidRequest => "Invalid request"
    case MethodNotFound => "Method not found"
    case InvalidParams => "Invalid parameters"
    case InternalError => "Internal error"
    case ObjectNotFound => "Object not found"
    case SessionNotFound => "Session not found"
    case AccessDenied => "Access denied"
    case Timeout => "ubus request timed out"
  }

  /** The error whose code is `c`, if any: the table read backwards. */
  function ErrorOfCode(c: int): Option<RpcError>
  {
    if c == -32700 then Some(ParseError)
    else if c == -32600 then Some(InvalidRequest)
    else if c == -32601 then Some(MethodNotFound)
    else if c == -32602 then Some(InvalidParams)
    else if c == -32603 then Some(InternalError)
    else if c == -32000 then Some(ObjectNotFound)
    else if c == -32001 then Some(SessionNotFound)
    else if c == -32002 then Some(AccessDenied)
    else if c == -32003 then Some(Timeout)
    else None
  }

  /** No two errors share a code, so a client can tell every error by its code. */
  lemma ErrorCodeDetermines(e: RpcError)
    ensures ErrorOfCode(ErrorCode(e)) == Some(e)
    ensures forall e' :: ErrorCode(e') == ErrorCode(e) ==> e' == e
  {
    forall e' | ErrorCode(e') == ErrorCode(e)
      ensures e' == e
    {
      assert ErrorOfCode(ErrorCode(e')) == Some(e');
    }
  }

  /** The `id` member of the call object being answered, or null when there is none. */
  function ResponseId(cur: Option<Json>): Json
  {
    if cur.Some? && cur.value.JObject? then
      match Member(cur.value.members, "id")
      case Some(id) => id
      case None => JNull
    else JNull
  }

  /**
   * The response blob `uh_ubus_init_response` starts and the callers
   * complete: `jsonrpc`, `id`, then one member `key` holding `payload`.
   */
  function Envelope(cur: Option<Json>, key: string, payload: Json): (j: Json)
    requires key != "jsonrpc" && key != "id"
    ensures j.JObject? && |j.members| == 3
    ensures Member(j.members, "jsonrpc") == Some(JString("2.0"))
    ensures Member(j.members, "id") == Some(ResponseId(cur))
    ensures Member(j.members, key) == Some(payload)
  {
    var j := JObject([("jsonrpc", JString("2.0")), ("id", ResponseId(cur)), (key, payload)]);
    assert j.members[1..][1..][0] == (key, payload);
    j
  }

  /** `{"jsonrpc": "2.0", "id": …, "error": {"code": …, "message": …}}`. */
  function ErrorEnvelope(cur: Option<Json>, e: RpcError): Json
  {
    Envelope(cur, "error", JObject([("code", JInt(ErrorCode(e))), ("message", JString(ErrorMessage(e)))]))
  }

  /** `{"jsonrpc": "2.0", "id": …, "result": [ret, data…]}`. */
  function ResultEnvelope(cur: Option<Json>, ret: int, data: seq<Json>): Json
  {
    Envelope(cur, "result", JArray([JInt(ret)] + data))
  }

  /** An error envelope names the error by its code and message, and echoes the request id. */
  lemma ErrorEnvelopeShape(cur: Option<Json>, e: RpcError)
    ensures var j := ErrorEnvelope(cur, e);
      j.JObject? && Member(j.members, "id") == Some(ResponseId(cur))
      && Member(j.members, "result").None?
      && match Member(j.members, "error")
         case Some(JObject(body)) =>
           Member(body, "code") == Some(JInt(ErrorCode(e)))
           && Member(body, "message") == Some(JString(ErrorMessage(e)))
         case _ => false
  {
    var j := ErrorEnvelope(cur, e);
    assert j.members[0].0 != "result" && j.members[1].0 != "result" && j.members[2].0 != "result";
    var body := [("code", JInt(ErrorCode(e))), ("message", JString(ErrorMessage(e)))];
    assert body[1..][0].0 == "message";
  }

  /** A result envelope carries the return code first, then the data blobs in arrival order. */
  lemma ResultEnvelopeShape(cur: Option<Json>, ret: int, data: seq<Json>)
    ensures var j := ResultEnvelope(cur, ret, data);
      j.JObject? && Member(j.members, "id") == Some(ResponseId(cur))
      && Member(j.members, "error").None?
      && match Member(j.members, "result")
         case Some(JArray(items)) => |items| == |data| + 1 && items[0] == JInt(ret) && items[1..] == data
         case _ => false
  {
    var j := ResultEnvelope(cur, ret, data);
    assert j.members[0].0 != "error" && j.members[1].0 != "error" && j.members[2].0 != "error";
    assert ([JInt(ret)] + data)[1..] == data;
  }

  // ---------------------------------------------------------------------
  // Call validation
  // ---------------------------------------------------------------------

  /** What `parse_json_rpc` extracts from a call object. */
  datatype RpcCall = RpcCall(rpcMethod: string, objectName: string, funcName: string, args: seq<(string, Json)>)

  /** The member `key` when it is a string; blobmsg's STRING policy drops any other type. */
  function StringMember(members: seq<(string, Json)>, key: string): Option<string>
  {
    match Member(members, key)
    case Some(JString(v)) => Some(v)
    case _ => None
  }

  /** The elements of the member `key` when it is an array (the ARRAY policy). */
  function ArrayMember(members: seq<(string, Json)>, key: string): Option<seq<Json>>
  {
    match Member(members, key)
    case Some(JArray(items)) => Some(items)
    case _ => None
  }

  /** The element types of the policy `parse_json_rpc` applies to `params`. */
  datatype Slot = StringSlot | TableSlot

  predicate Fits(v: Json, slot: Slot)
  {
    match slot
    case StringSlot => v.JString?
    case TableSlot => v.JObject?
  }

  /** Index of the first element from `n` on that fits `slot`. */
  function FirstFit(ps: seq<Json>, n: nat, slot: Slot): (r: Option<nat>)
    requires n <= |ps|
    ensures r.Some? ==> n <= r.value < |ps| && Fits(ps[r.value], slot)
    ensures r.Some? ==> forall i :: n <= i < r.value ==> !Fits(ps[i], slot)
    ensures r.None? ==> forall i :: n <= i < |ps| ==> !Fits(ps[i], slot)
    decreases |ps| - n
  {
    if n == |ps| then None
    else if Fits(ps[n], slot) then Some(n)
    else FirstFit(ps, n + 1, slot)
  }

  /**
   * `blobmsg_parse_array` with the params policy (object name, method
   * name, arguments): the elements are matched to the slots in order and
   * an element of the wrong type for the next slot is skipped, so the
   * slots take the first string, the first string after it and the first
   * table after that.  The result is the three indices, when all three
   * slots are filled.
   */
  function PickParams(ps: seq<Json>): (r: Option<(nat, nat, nat)>)
    ensures r.Some? ==> (0 <= r.value.0 < r.value.1 < r.value.2 < |ps|
      && ps[r.value.0].JString? && ps[r.value.1].JString? && ps[r.value.2].JObject?)
    ensures r.Some? ==> ((forall l :: 0 <= l < r.value.0 ==> !ps[l].JString?)
      && (forall l :: r.value.0 < l < r.value.1 ==> !ps[l].JString?)
      && (forall l :: r.value.1 < l < r.value.2 ==> !ps[l].JObject?))
  {
    match FirstFit(ps, 0, StringSlot)
    case None => None
    case Some(i) =>
      match FirstFit(ps, i + 1, StringSlot)
      case None => None
      case Some(j) =>
        match FirstFit(ps, j + 1, TableSlot)
        case None => None
        case Some(k) => Some((i, j, k))
  }

  /** The params policy is met exactly when the array holds a string, a later string and a later object. */
  lemma PickParamsThree(ps: seq<Json>)
    ensures PickParams(ps).Some? <==>
      exists i, j, k :: 0 <= i < j < k < |ps| && ps[i].JString? && ps[j].JString? && ps[k].JObject?
  {
    if PickParams(ps).None? {
      forall i, j, k | 0 <= i < j < k < |ps| && ps[i].JString? && ps[j].JString?
        ensures !ps[k].JObject?
      {
        var a := FirstFit(ps, 0, StringSlot).value;
        var b := FirstFit(ps, a + 1, StringSlot).value;
        assert FirstFit(ps, b + 1, TableSlot).None?;
      }
    }
  }

  /**
   * `parse_json_rpc`: `jsonrpc` must be the string "2.0", `method` a string
   * and `params` an array from which the array policy picks a string (the
   * object), a string (the method) and a table (the arguments).  A member
   * of the wrong type counts as missing, as the blobmsg policy drops it.
   */
  function ParseJsonRpc(members: seq<(string, Json)>): Option<RpcCall>
  {
    var v := StringMember(members, "jsonrpc");
    if v != Some("2.0") then None
    else
      var m := StringMember(members, "method");
      var params := ArrayMember(members, "params");
      if m.None? || params.None? then None
      else
        var ps := params.value;
        match PickParams(ps)
        case Some((i, j, k)) => Some(RpcCall(m.value, ps[i].s, ps[j].s, ps[k].members))
        case None => None
  }

  /**
   * A call object is accepted exactly when its members have the names and
   * types the policies ask for.
   */
  lemma ParseJsonRpcAccepts(members: seq<(string, Json)>)
    ensures ParseJsonRpc(members).Some? <==>
      Member(members, "jsonrpc") == Some(JString("2.0"))
      && Member(members, "method").Some? && Member(members, "method").value.JString?
      && Member(members, "params").Some? && Member(members, "params").value.JArray?
      && var ps := Member(members, "params").value.items;
         exists i, j, k :: 0 <= i < j < k < |ps| && ps[i].JString? && ps[j].JString? && ps[k].JObject?
  {
    var v := Member(members, "jsonrpc");
    var m := Member(members, "method");
    var params := Member(members, "params");
    assert StringMember(members, "jsonrpc") == Some("2.0") <==> v == Some(JString("2.0"));
    assert StringMember(members, "method").Some? <==> m.Some? && m.value.JString?;
    assert ArrayMember(members, "params").Some? <==> params.Some? && params.value.JArray?;
    if params.Some? && params.value.JArray? {
      PickParamsThree(params.value.items);
    }
  }

  /**
   * An accepted call holds the method member's string and the elements the
   * params policy picks: object name, method name and arguments.
   */
  lemma ParseJsonRpcFields(members: seq<(string, Json)>)
    requires ParseJsonRpc(members).Some?
    ensures var r := ParseJsonRpc(members).value;
      Member(members, "method") == Some(JString(r.rpcMethod))
      && Member(members, "params").Some? && Member(members, "params").value.JArray?
      && var ps := Member(members, "params").value.items;
         PickParams(ps).Some?
         && var (i, j, k) := PickParams(ps).value;
            ps[i] == JString(r.objectName) && ps[j] == JString(r.funcName) && ps[k] == JObject(r.args)
  {
  }

  /**
   * The bus and json-c as seen from one call: whether the call object
   * converts to a blob, the id of an object name, whether the "session"
   * object exists, what its `access` method answers (nothing when no reply
   * arrives within 250 ms), and whether an asynchronous invocation can be
   * issued.
   */
  datatype Backend = Backend(
    converts: Json -> bool,
    lookup: string -> Option<nat>,
    sessionFound: bool,
    accessReply: (string, string, string) -> Option<Json>,
    invokes: Invocation -> bool)

  /**
   * `uh_ubus_allowed`: false unless the session object is found and its
   * reply carries a boolean `access`, whose value then decides.
   */
  predicate Allowed(b: Backend, sid: string, objectName: string, funcName: string)
  {
    b.sessionFound &&
    match b.accessReply(sid, objectName, funcName)
    case Some(JObject(m)) => (match Member(m, "access") case Some(JBool(v)) => v case _ => false)
    case _ => false
  }

  lemma AllowedNeedsGrant(b: Backend, sid: string, objectName: string, funcName: string)
    ensures Allowed(b, sid, objectName, funcName) <==>
      b.sessionFound && b.accessReply(sid, objectName, funcName).Some?
      && b.accessReply(sid, objectName, funcName).value.JObject?
      && Member(b.accessReply(sid, objectName, funcName).value.members, "access") == Some(JBool(true))
  {
  }

  /** How one call object is answered: with an error, or by attempting an invocation. */
  datatype Route = Refuse(error: RpcError) | Issue(call: Invocation)

  /**
   * The checks of `uh_ubus_handle_request_object` in the order the code
   * makes them; the first failing check decides.  Whether the bus accepts
   * the invocation is `uh_ubus_send_request`'s check, made after these.
   */
  function RouteCall(obj: Json, noauth: bool, sid: string, b: Backend): Route
  {
    if !obj.JObject? || !b.converts(obj) then Refuse(ParseError)
    else
      match ParseJsonRpc(obj.members)
      case None => Refuse(ParseError)
      case Some(c) =>
        if c.rpcMethod != "call" then Refuse(MethodNotFound)
        else
          match b.lookup(c.objectName)
          case None => Refuse(ObjectNotFound)
          case Some(id) =>
            if !noauth && !Allowed(b, sid, c.objectName, c.funcName) then Refuse(AccessDenied)
            else Issue(Invocation(id, c.funcName, c.args))
  }

  /** Each error is reached exactly when every earlier check passed and its own failed. */
  lemma RouteOrder(obj: Json, noauth: bool, sid: string, b: Backend)
    ensures RouteCall(obj, noauth, sid, b) == Refuse(ParseError) <==>
      !obj.JObject? || !b.converts(obj) || ParseJsonRpc(obj.members).None?
    ensures RouteCall(obj, noauth, sid, b) == Refuse(MethodNotFound) <==>
      obj.JObject? && b.converts(obj) && ParseJsonRpc(obj.members).Some?
      && ParseJsonRpc(obj.members).value.rpcMethod != "call"
    ensures RouteCall(obj, noauth, sid, b) == Refuse(ObjectNotFound) <==>
      obj.JObject? && b.converts(obj) && ParseJsonRpc(obj.members).Some?
      && ParseJsonRpc(obj.members).value.rpcMethod == "call"
      && b.lookup(ParseJsonRpc(obj.members).value.objectName).None?
    ensures RouteCall(obj, noauth, sid, b) == Refuse(AccessDenied) <==>
      obj.JObject? && b.converts(obj) && ParseJsonRpc(obj.members).Some?
      && ParseJsonRpc(obj.members).value.rpcMethod == "call"
      && b.lookup(ParseJsonRpc(obj.members).value.objectName).Some?
      && !noauth
      && !Allowed(b, sid, ParseJsonRpc(obj.members).value.objectName, ParseJsonRpc(obj.members).value.funcName)
  {
  }

  /** A call reaches the bus iff every check passes, and it carries the call's own object, method and arguments. */
  lemma RouteIssues(obj: Json, noauth: bool, sid: string, b: Backend)
    ensures RouteCall(obj, noauth, sid, b).Issue? <==>
      obj.JObject? && b.converts(obj) && ParseJsonRpc(obj.members).Some?
      && ParseJsonRpc(obj.members).value.rpcMethod == "call"
      && b.lookup(ParseJsonRpc(obj.members).value.objectName).Some?
      && (noauth || Allowed(b, sid, ParseJsonRpc(obj.members).value.objectName, ParseJsonRpc(obj.members).value.funcName))
    ensures RouteCall(obj, noauth, sid, b).Issue? ==>
      var c := ParseJsonRpc(obj.members).value;
      RouteCall(obj, noauth, sid, b).call == Invocation(b.lookup(c.objectName).value, c.funcName, c.args)
  {
  }

  /**
   * Malformed envelopes are all reported as parse errors: the gateway
   * never answers with InvalidRequest, InvalidParams or SessionNotFound,
   * and the checks themselves never produce an internal error or a timeout.
   */
  lemma RouteNeverInvalid(obj: Json, noauth: bool, sid: string, b: Backend)
    ensures RouteCall(obj, noauth, sid, b) != Refuse(InvalidRequest)
    ensures RouteCall(obj, noauth, sid, b) != Refuse(InvalidParams)
    ensures RouteCall(obj, noauth, sid, b) != Refuse(SessionNotFound)
    ensures RouteCall(obj, noauth, sid, b) != Refuse(Timeout)
    ensures RouteCall(obj, noauth, sid, b) != Refuse(InternalError)
  {
  }

  /** With authentication off the session service is never consulted. */
  lemma RouteNoauth(obj: Json, sid: string, b: Backend, b': Backend)
    requires b'.converts == b.converts && b'.lookup == b.lookup
    ensures RouteCall(obj, true, sid, b) == RouteCall(obj, true, sid, b')
    ensures RouteCall(obj, true, sid, b) != Refuse(AccessDenied)
  {
  }

  // ---------------------------------------------------------------------
  // Session id
  // ---------------------------------------------------------------------

  /** The session id in what follows the prefix: leading slashes skipped, cut at the next slash. */
  function SessionOf(rest: string): string
    decreases |rest|
  {
    if |rest| > 0 && rest[0] == '/' then SessionOf(rest[1..]) else UpToSlash(rest)
  }

  function UpToSlash(s: string): (r: string)
    ensures |r| <= |s|
    decreases |s|
  {
    if |s| == 0 || s[0] == '/' then "" else [s[0]] + UpToSlash(s[1..])
  }

  /**
   * The session id is recovered from any URL of the form
   * prefix, slashes, id, then nothing or a slash and more.
   */
  lemma {:induction false} SessionOfPath(k: nat, sid: string, tail: string)
    requires |sid| > 0 && forall i :: 0 <= i < |sid| ==> sid[i] != '/'
    requires |tail| == 0 || tail[0] == '/'
    ensures SessionOf(Repeat('/', k) + sid + tail) == sid
    decreases k
  {
    if k == 0 {
      assert Repeat('/', k) + sid + tail == sid + tail;
      UpToSlashOf(sid, tail);
    } else {
      var s := Repeat('/', k) + sid + tail;
      assert s[0] == '/';
      assert s[1..] == Repeat('/', k - 1) + sid + tail;
      SessionOfPath(k - 1, sid, tail);
    }
  }

  lemma {:induction false} UpToSlashOf(sid: string, tail: string)
    requires forall i :: 0 <= i < |sid| ==> sid[i] != '/'
    requires |tail| == 0 || tail[0] == '/'
    ensures UpToSlash(sid + tail) == sid
    decreases |sid|
  {
    if |sid| == 0 {
      assert sid + tail == tail;
    } else {
      assert (sid + tail)[1..] == sid[1..] + tail;
      UpToSlashOf(sid[1..], tail);
    }
  }

  lemma SessionOfSkip(s: string)
    requires |s| > 0 && s[0] == '/'
    ensures SessionOf(s) == SessionOf(s[1..])
  {
  }

  lemma SessionOfStop(s: string)
    requires |s| == 0 || s[0] != '/'
    ensures SessionOf(s) == UpToSlash(s)
  {
  }

  lemma UpToSlashStep(s: string)
    requires |s| > 0 && s[0] != '/'
    ensures UpToSlash(s) == [s[0]] + UpToSlash(s[1..])
  {
  }

  /** One more character of the session id is copied, up to the next slash. */
  lemma CutStep(url: string, i: nat, j: nat)
    requires i <= j < |url| && url[j] != '/'
    ensures url[i..j] + UpToSlash(url[j..]) == url[i..j + 1] + UpToSlash(url[j + 1..])
  {
    var a, c, r := url[i..j], url[j], UpToSlash(url[j + 1..]);
    assert url[j..][1..] == url[j + 1..];
    UpToSlashStep(url[j..]);
    assert url[i..j + 1] == a + [c];
    assert a + ([c] + r) == (a + [c]) + r;
  }

  /** A session id taken from the URL never holds a slash and never is longer than the URL. */
  lemma {:induction false} SessionOfBounds(rest: string)
    ensures |SessionOf(rest)| <= |rest|
    ensures forall i :: 0 <= i < |SessionOf(rest)| ==> SessionOf(rest)[i] != '/'
    decreases |rest|
  {
    if |rest| > 0 && rest[0] == '/' {
      SessionOfBounds(rest[1..]);
    } else {
      UpToSlashNoSlash(rest);
    }
  }

  lemma {:induction false} UpToSlashNoSlash(s: string)
    ensures forall i :: 0 <= i < |UpToSlash(s)| ==> UpToSlash(s)[i] != '/'
    decreases |s|
  {
    if |s| > 0 && s[0] != '/' {
      UpToSlashNoSlash(s[1..]);
    }
  }

  // ---------------------------------------------------------------------
  // Response text
  // ---------------------------------------------------------------------

  /**
   * The separator written before an answer: `", "` inside a batch once
   * `arrayIdx`, which already counts the element being answered, is past
   * the first element.
   */
  function Separator(batch: bool, arrayIdx: nat): string
  {
    if batch && arrayIdx > 1 then ", " else ""
  }

  /** The answers of batch elements `first`, `first + 1`, … with their separators. */
  function BatchText(answers: seq<string>, first: nat): string
    decreases |answers|
  {
    if |answers| == 0 then "" else Separator(true, first + 1) + answers[0] + BatchText(answers[1..], first + 1)
  }

  function CommaJoined(answers: seq<string>): string
    decreases |answers|
  {
    if |answers| == 0 then ""
    else if |answers| == 1 then answers[0]
    else answers[0] + ", " + CommaJoined(answers[1..])
  }

  /** A batch's answers, written from its first element on, are the answers joined by `", "`. */
  lemma BatchTextJoins(answers: seq<string>)
    ensures BatchText(answers, 0) == CommaJoined(answers)
  {
    if |answers| > 0 {
      BatchTextAfterFirst(answers[1..], 1);
      if |answers| == 1 {
        assert answers[1..] == [];
      }
    }
  }

  lemma {:induction false} BatchTextAfterFirst(answers: seq<string>, first: nat)
    requires first >= 1
    ensures BatchText(answers, first) == if |answers| == 0 then "" else ", " + CommaJoined(answers)
    decreases |answers|
  {
    if |answers| > 0 {
      BatchTextAfterFirst(answers[1..], first + 1);
      if |answers| == 1 {
        assert answers[1..] == [];
      }
    }
  }

  const JsonContentType: string := "Content-Type: application/json\r\n\r\n"

  // ---------------------------------------------------------------------
  // Connection steps, as functions of the connection's state
  // ---------------------------------------------------------------------

  /**
   * The parts of a connection the gateway changes; `heads` is the
   * connection's log of response-head status codes.
   */
  datatype Conn = Conn(
    out: string, timer: Timer, du: DispatchUbus, free: bool,
    notifyWrite: bool, state: State, eof: bool, stateChanged: bool, heads: seq<nat>)

  ghost function Snapshot(cl: Client): Conn
    reads cl
  {
    Conn(cl.out, cl.timer, cl.du, cl.dispatchFree, cl.notifyWrite, cl.state, cl.eof, cl.stateChanged, cl.statuses)
  }

  /** `uh_ubus_send_header`: status 200 and the JSON content type. */
  function Headed(c: Conn, req: Request): Conn
  {
    c.(out := c.out + StatusHead(req, 200, "OK") + JsonContentType, heads := c.heads + [200])
  }

  /** `uh_chunk_printf(text)`: one chunk, and the idle timer re-armed. */
  function Printed(c: Conn, req: Request, conf: Config, text: string): Conn
  {
    c.(out := c.out + ChunkFrame(UseChunked(req), text), timer := Armed(conf.networkTimeout * 1000))
  }

  /**
   * `uh_request_done`: the chunk terminator, the free hook run at most
   * once, then either back to INIT with the keep-alive timer or closed.
   */
  function Ended(c: Conn, req: Request, conf: Config): Conn
  {
    var c1 := c.(out := c.out + EofMarker(UseChunked(req)), free := false, notifyWrite := false,
                 du := if c.free then RequestFree(c.du) else c.du,
                 timer := if c.free then Disarmed else c.timer);
    if KeepAlive(req, conf.httpKeepalive) then c1.(state := Init, timer := Armed(conf.httpKeepalive * 1000))
    else c1.(state := Done, eof := true, stateChanged := true)
  }

  /**
   * `uh_ubus_send_response(j)`: the answer with its separator; inside a
   * batch the next element is scheduled, otherwise a newline is added
   * and the request is done.
   */
  function Answered(c: Conn, req: Request, conf: Config, j: Json): Conn
  {
    var c1 := Printed(c, req, conf, Separator(c.du.batch, c.du.arrayIdx) + Render(j));
    var c2 := c1.(du := c1.du.(jsobjCur := None));
    if c.du.batch then c2.(du := c2.du.(timer := NextBatch))
    else Ended(Printed(c2, req, conf, "\n"), req, conf)
  }

  /** `uh_ubus_json_error(e)`: the error envelope for the current call, answered. */
  function ErrorAnswered(c: Conn, req: Request, conf: Config, e: RpcError): Conn
  {
    Answered(c, req, conf, ErrorEnvelope(c.du.jsobjCur, e))
  }

  /** `uh_ubus_single_error(e)`: a response head, the error answer, and `uh_request_done` once more. */
  function SingleErrored(c: Conn, req: Request, conf: Config, e: RpcError): Conn
  {
    Ended(ErrorAnswered(Headed(c, req), req, conf, e), req, conf)
  }

  /**
   * The record as the checks of `uh_ubus_handle_request_object` leave it
   * before the answer or the invocation: the call object becomes current
   * once it is an object, the method name is kept once the method is
   * "call", and the object id once it is found.
   */
  function Prepared(du0: DispatchUbus, obj: Json, noauth: bool, b: Backend): DispatchUbus
  {
    if !obj.JObject? then du0
    else
      var d1 := du0.(jsobjCur := Some(obj));
      if !b.converts(obj) then d1
      else
        match ParseJsonRpc(obj.members)
        case None => d1
        case Some(c) =>
          if c.rpcMethod != "call" then d1
          else
            var d2 := d1.(func := c.funcName);
            match b.lookup(c.objectName)
            case None => d2
            case Some(id) =>
              var d3 := d2.(obj := id);
              d3
  }

  /** The record once an invocation is handed to the bus: its timeout armed and the request pending. */
  function Issued(d: DispatchUbus, inv: Invocation, ms: int): DispatchUbus
  {
    d.(timer := CallTimeout(ms), reqPending := true,
       bus := d.bus.(outstanding := true, invoked := d.bus.invoked + [inv]))
  }

  /**
   * `uh_ubus_send_request`: the reply buffer emptied, the invocation
   * attempted, and on success its timeout armed and the request pending.
   */
  function Requested(c: Conn, req: Request, conf: Config, args: seq<(string, Json)>, b: Backend): Conn
  {
    var c1 := c.(du := c.du.(reply := []));
    var inv := Invocation(c.du.obj, c.du.func, args);
    if b.invokes(inv) then c1.(du := Issued(c1.du, inv, conf.scriptTimeout))
    else ErrorAnswered(c1, req, conf, InternalError)
  }

  /**
   * `uh_ubus_handle_request_object(obj)`: the first failing check of
   * `RouteCall` is answered, for the call as far as the checks got;
   * a call that passes them all reaches the bus and writes nothing yet.
   */
  function Handled(c: Conn, req: Request, conf: Config, obj: Json, b: Backend): Conn
  {
    var c1 := c.(du := Prepared(c.du, obj, conf.ubusNoauth, b));
    match RouteCall(obj, conf.ubusNoauth, c.du.sid, b)
    case Refuse(e) => ErrorAnswered(c1, req, conf, e)
    case Issue(inv) => Requested(c1, req, conf, inv.args, b)
  }

  /** A call that passes the checks reaches the bus with its own object id, method and arguments. */
  lemma HandledIssues(c: Conn, req: Request, conf: Config, obj: Json, b: Backend)
    requires RouteCall(obj, conf.ubusNoauth, c.du.sid, b).Issue?
    ensures var inv := RouteCall(obj, conf.ubusNoauth, c.du.sid, b).call;
      var d := Prepared(c.du, obj, conf.ubusNoauth, b).(reply := []);
      Handled(c, req, conf, obj, b) ==
        if b.invokes(inv) then c.(du := Issued(d, inv, conf.scriptTimeout))
        else ErrorAnswered(c.(du := d), req, conf, InternalError)
  {
    var call := ParseJsonRpc(obj.members).value;
    var id := b.lookup(call.objectName).value;
    assert Prepared(c.du, obj, conf.ubusNoauth, b) == c.du.(jsobjCur := Some(obj), func := call.funcName, obj := id);
  }

  /** `uh_ubus_data_done`: an object is one call, a non-empty array a batch, anything else a parse error. */
  function BodyDone(c: Conn, req: Request, conf: Config, b: Backend): Conn
  {
    if c.du.jsobj.Some? && c.du.jsobj.value.JObject? then
      Handled(Headed(c, req), req, conf, c.du.jsobj.value, b)
    else if c.du.jsobj.Some? && c.du.jsobj.value.JArray? then
      BatchOpened(c, req, conf, |c.du.jsobj.value.items|)
    else SingleErrored(c, req, conf, ParseError)
  }

  /** `uh_ubus_init_batch`: the record marked as a batch, a response head, and the opening of the answer array. */
  function BatchHead(c: Conn, req: Request, conf: Config): Conn
  {
    Printed(Headed(c.(du := c.du.(batch := true)), req), req, conf, "[\n\t")
  }

  /**
   * The array case of `uh_ubus_data_done`: the batch is opened, then its
   * first element is scheduled, or, for an empty array, control falls
   * through to the single parse error.
   */
  function BatchOpened(c: Conn, req: Request, conf: Config, len: nat): Conn
  {
    var c1 := BatchHead(c, req, conf);
    if len > 0 then c1.(du := c1.du.(timer := NextBatch))
    else SingleErrored(c1, req, conf, ParseError)
  }

  /** Whether `uh_ubus_data_send` takes `len` more body bytes. */
  predicate Accepts(du: DispatchUbus, len: nat)
  {
    du.jsobj.None? && du.jstok && du.postLen + len <= MaxPostSize
  }

  /** `uh_ubus_request_cb(ret)`: the call's timeout cancelled and `[ret, data…]` answered. */
  function Completed(c: Conn, req: Request, conf: Config, ret: int): Conn
  {
    var c1 := c.(du := c.du.(timer := Idle, bus := c.du.bus.(outstanding := false)));
    Answered(c1, req, conf, ResultEnvelope(c1.du.jsobjCur, ret, c1.du.reply))
  }

  /** `uh_ubus_timeout_cb`: the call aborted, then the timeout error answered. */
  function TimedOut(c: Conn, req: Request, conf: Config): Conn
  {
    var bus := c.du.bus.(outstanding := false, aborts := c.du.bus.aborts + 1);
    ErrorAnswered(c.(du := c.du.(timer := Idle, bus := bus)), req, conf, Timeout)
  }

  // ---------------------------------------------------------------------
  // The gateway's handlers on a connection
  // ---------------------------------------------------------------------

  method Print(cl: Client, text: string)
    modifies cl`out, cl`timer
    ensures Snapshot(cl) == Printed(old(Snapshot(cl)), cl.request, cl.conf, text)
  {
    cl.ChunkPrintf(text);
  }

  method End(cl: Client)
    modifies cl`out, cl`timer, cl`du, cl`dispatchFree, cl`notifyWrite, cl`state, cl`eof, cl`stateChanged
    ensures Snapshot(cl) == Ended(old(Snapshot(cl)), cl.request, cl.conf)
  {
    cl.RequestDone();
  }

  method SendHeader(cl: Client)
    modifies cl`out, cl`statuses
    ensures Snapshot(cl) == Headed(old(Snapshot(cl)), cl.request)
  {
    cl.HttpHeader(200, "OK");
    cl.out := cl.out + JsonContentType;
  }

  method SendResponse(cl: Client, j: Json)
    modifies cl`out, cl`timer, cl`du, cl`dispatchFree, cl`notifyWrite, cl`state, cl`eof, cl`stateChanged
    ensures Snapshot(cl) == Answered(old(Snapshot(cl)), cl.request, cl.conf, j)
  {
    var sep := Separator(cl.du.batch, cl.du.arrayIdx);
    Print(cl, sep + Render(j));
    cl.du := cl.du.(jsobjCur := None);
    if cl.du.batch {
      cl.du := cl.du.(timer := NextBatch);
    } else {
      Print(cl, "\n");
      End(cl);
    }
  }

  method JsonError(cl: Client, e: RpcError)
    modifies cl`out, cl`timer, cl`du, cl`dispatchFree, cl`notifyWrite, cl`state, cl`eof, cl`stateChanged
    ensures Snapshot(cl) == ErrorAnswered(old(Snapshot(cl)), cl.request, cl.conf, e)
  {
    SendResponse(cl, ErrorEnvelope(cl.du.jsobjCur, e));
  }

  method SingleError(cl: Client, e: RpcError)
    modifies cl`out, cl`timer, cl`du, cl`dispatchFree, cl`notifyWrite, cl`state, cl`eof, cl`stateChanged
    modifies cl`statuses
    ensures Snapshot(cl) == SingleErrored(old(Snapshot(cl)), cl.request, cl.conf, e)
  {
    SendHeader(cl);
    JsonError(cl, e);
    End(cl);
  }

  method SendRequest(cl: Client, args: seq<(string, Json)>, b: Backend)
    modifies cl`out, cl`timer, cl`du, cl`dispatchFree, cl`notifyWrite, cl`state, cl`eof, cl`stateChanged
    ensures Snapshot(cl) == Requested(old(Snapshot(cl)), cl.request, cl.conf, args, b)
  {
    cl.du := cl.du.(reply := []);
    var inv := Invocation(cl.du.obj, cl.du.func, args);
    if !b.invokes(inv) {
      JsonError(cl, InternalError);
      return;
    }
    var bus := cl.du.bus.(outstanding := true, invoked := cl.du.bus.invoked + [inv]);
    cl.du := cl.du.(bus := bus, timer := CallTimeout(cl.conf.scriptTimeout), reqPending := true);
  }

  /**
   * The checks run in order, filling in the record (`du` here) as they
   * pass; every failure jumps to the one error answer at the end.
   */
  method HandleRequestObject(cl: Client, obj: Json, b: Backend)
    modifies cl`out, cl`timer, cl`du, cl`dispatchFree, cl`notifyWrite, cl`state, cl`eof, cl`stateChanged
    ensures Snapshot(cl) == Handled(old(Snapshot(cl)), cl.request, cl.conf, obj, b)
  {
    var route := RouteCall(obj, cl.conf.ubusNoauth, cl.du.sid, b);
    cl.du := Prepared(cl.du, obj, cl.conf.ubusNoauth, b);
    ghost var c1 := Snapshot(cl);
    assert c1 == old(Snapshot(cl)).(du := cl.du);
    match route
    case Refuse(e) =>
      JsonError(cl, e);
      assert Snapshot(cl) == ErrorAnswered(c1, cl.request, cl.conf, e);
    case Issue(inv) =>
      SendRequest(cl, inv.args, b);
      assert Snapshot(cl) == Requested(c1, cl.request, cl.conf, inv.args, b);
  }

  /** `uh_ubus_request_data_cb`: one more data blob kept, in order, for the call's answer. */
  method RequestDataCb(cl: Client, msg: Json)
    modifies cl`du
    ensures cl.du == old(cl.du).(reply := old(cl.du.reply) + [msg])
  {
    cl.du := cl.du.(reply := cl.du.reply + [msg]);
  }

  /** `uh_ubus_request_cb(ret)`: the bus completes the call it holds. */
  method RequestCb(cl: Client, ret: int)
    requires cl.du.bus.outstanding
    modifies cl`out, cl`timer, cl`du, cl`dispatchFree, cl`notifyWrite, cl`state, cl`eof, cl`stateChanged
    ensures Snapshot(cl) == Completed(old(Snapshot(cl)), cl.request, cl.conf, ret)
  {
    cl.du := cl.du.(timer := Idle, bus := cl.du.bus.(outstanding := false));
    SendResponse(cl, ResultEnvelope(cl.du.jsobjCur, ret, cl.du.reply));
  }

  /** `uh_ubus_timeout_cb`: the call's timeout fires before the bus answers. */
  method TimeoutCb(cl: Client)
    requires cl.du.timer.CallTimeout?
    modifies cl`out, cl`timer, cl`du, cl`dispatchFree, cl`notifyWrite, cl`state, cl`eof, cl`stateChanged
    ensures Snapshot(cl) == TimedOut(old(Snapshot(cl)), cl.request, cl.conf)
  {
    var bus := cl.du.bus.(outstanding := false, aborts := cl.du.bus.aborts + 1);
    cl.du := cl.du.(timer := Idle, bus := bus);
    JsonError(cl, Timeout);
  }

  method InitBatch(cl: Client)
    modifies cl`out, cl`timer, cl`du, cl`statuses
    ensures Snapshot(cl) == BatchHead(old(Snapshot(cl)), cl.request, cl.conf)
  {
    cl.du := cl.du.(batch := true);
    SendHeader(cl);
    Print(cl, "[\n\t");
  }

  /** `uh_ubus_complete_batch`: the answer array closed and the request done. */
  method CompleteBatch(cl: Client)
    modifies cl`out, cl`timer, cl`du, cl`dispatchFree, cl`notifyWrite, cl`state, cl`eof, cl`stateChanged
    ensures Snapshot(cl) == Ended(Printed(old(Snapshot(cl)), cl.request, cl.conf, "\n]\n"), cl.request, cl.conf)
  {
    Print(cl, "\n]\n");
    End(cl);
  }

  /**
   * `__uh_ubus_next_batched_request`, run when the batch timer fires
   * while the request that armed it is still in progress (its free hook
   * has not run) and the record still holds its parsed body.
   */
  method NextBatched(cl: Client, b: Backend)
    requires cl.du.timer == NextBatch && cl.dispatchFree
    requires cl.du.jsobj.Some? && cl.du.jsobj.value.JArray?
    modifies cl`out, cl`timer, cl`du, cl`dispatchFree, cl`notifyWrite, cl`state, cl`eof, cl`stateChanged
    ensures var items := old(cl.du.jsobj.value.items); var i := old(cl.du.arrayIdx);
      i >= |items| ==>
        Snapshot(cl) == Ended(Printed(old(Snapshot(cl)).(du := old(cl.du).(timer := Idle)), cl.request, cl.conf, "\n]\n"), cl.request, cl.conf)
    ensures var items := old(cl.du.jsobj.value.items); var i := old(cl.du.arrayIdx);
      i < |items| ==>
        Snapshot(cl) == Handled(old(Snapshot(cl)).(du := old(cl.du).(timer := Idle, arrayIdx := i + 1)), cl.request, cl.conf, items[i], b)
  {
    ghost var c0 := Snapshot(cl);
    cl.du := cl.du.(timer := Idle);
    var items := cl.du.jsobj.value.items;
    if cl.du.arrayIdx >= |items| {
      assert Snapshot(cl) == c0.(du := c0.du.(timer := Idle));
      CompleteBatch(cl);
    } else {
      var obj := items[cl.du.arrayIdx];
      cl.du := cl.du.(arrayIdx := cl.du.arrayIdx + 1);
      assert Snapshot(cl) == c0.(du := c0.du.(timer := Idle, arrayIdx := c0.du.arrayIdx + 1));
      HandleRequestObject(cl, obj, b);
    }
  }

  /** `uh_ubus_data_done`, once the body is complete. */
  method DataDone(cl: Client, b: Backend)
    modifies cl`out, cl`timer, cl`du, cl`dispatchFree, cl`notifyWrite, cl`state, cl`eof, cl`stateChanged
    modifies cl`statuses
    ensures Snapshot(cl) == BodyDone(old(Snapshot(cl)), cl.request, cl.conf, b)
  {
    if cl.du.jsobj.Some? && cl.du.jsobj.value.JObject? {
      var obj := cl.du.jsobj.value;
      ghost var c0 := Snapshot(cl);
      SendHeader(cl);
      assert Snapshot(cl) == Headed(c0, cl.request);
      HandleRequestObject(cl, obj, b);
    } else if cl.du.jsobj.Some? && cl.du.jsobj.value.JArray? {
      OpenBatch(cl, |cl.du.jsobj.value.items|);
    } else {
      SingleError(cl, ParseError);
    }
  }

  method OpenBatch(cl: Client, len: nat)
    modifies cl`out, cl`timer, cl`du, cl`dispatchFree, cl`notifyWrite, cl`state, cl`eof, cl`stateChanged
    modifies cl`statuses
    ensures Snapshot(cl) == BatchOpened(old(Snapshot(cl)), cl.request, cl.conf, len)
  {
    InitBatch(cl);
    ghost var c1 := Snapshot(cl);
    if len > 0 {
      cl.du := cl.du.(timer := NextBatch);
      assert Snapshot(cl) == c1.(du := c1.du.(timer := NextBatch));
    } else {
      SingleError(cl, ParseError);
    }
  }

  /**
   * `uh_ubus_data_send` of `len` body bytes, which the tokener turns into
   * `parsed` (a complete value, or nothing yet).  Bytes are refused with a
   * single parse error once a value is complete or without a tokener;
   * otherwise they are counted first, so a chunk that overflows the limit
   * still counts before it is refused.
   */
  method DataSend(cl: Client, len: nat, parsed: Option<Json>) returns (taken: nat)
    modifies cl`out, cl`timer, cl`du, cl`dispatchFree, cl`notifyWrite, cl`state, cl`eof, cl`stateChanged
    modifies cl`statuses
    ensures taken == if Accepts(old(cl.du), len) then len else 0
    ensures old(cl.du.jsobj.Some? || !cl.du.jstok) ==>
      Snapshot(cl) == SingleErrored(old(Snapshot(cl)), cl.request, cl.conf, ParseError)
    ensures old(cl.du.jsobj.None? && cl.du.jstok && cl.du.postLen + len > MaxPostSize) ==>
      Snapshot(cl) == SingleErrored(old(Snapshot(cl)).(du := old(cl.du).(postLen := old(cl.du.postLen) + len)),
                                    cl.request, cl.conf, ParseError)
    ensures Accepts(old(cl.du), len) ==>
      Snapshot(cl) == old(Snapshot(cl)).(du := old(cl.du).(postLen := old(cl.du.postLen) + len, jsobj := parsed))
  {
    if cl.du.jsobj.Some? || !cl.du.jstok {
      SingleError(cl, ParseError);
      taken := 0;
    } else {
      taken := CountBody(cl, len, parsed);
    }
  }

  /** The part of `uh_ubus_data_send` past the tokener checks: the bytes are counted, then held to the limit. */
  method CountBody(cl: Client, len: nat, parsed: Option<Json>) returns (taken: nat)
    requires cl.du.jsobj.None? && cl.du.jstok
    modifies cl`out, cl`timer, cl`du, cl`dispatchFree, cl`notifyWrite, cl`state, cl`eof, cl`stateChanged
    modifies cl`statuses
    ensures taken == if old(cl.du.postLen) + len <= MaxPostSize then len else 0
    ensures old(cl.du.postLen) + len > MaxPostSize ==>
      Snapshot(cl) == SingleErrored(old(Snapshot(cl)).(du := old(cl.du).(postLen := old(cl.du.postLen) + len)),
                                    cl.request, cl.conf, ParseError)
    ensures old(cl.du.postLen) + len <= MaxPostSize ==>
      Snapshot(cl) == old(Snapshot(cl)).(du := old(cl.du).(postLen := old(cl.du.postLen) + len, jsobj := parsed))
  {
    AddBodyLen(cl, len);
    if cl.du.postLen > MaxPostSize {
      SingleError(cl, ParseError);
      taken := 0;
    } else {
      StoreValue(cl, parsed);
      taken := len;
    }
  }

  /** `du->post_len += len`. */
  method AddBodyLen(cl: Client, len: nat)
    modifies cl`du
    ensures Snapshot(cl) == old(Snapshot(cl)).(du := old(cl.du).(postLen := old(cl.du.postLen) + len))
  {
    cl.du := cl.du.(postLen := cl.du.postLen + len);
  }

  /** `du->jsobj = json_tokener_parse_ex(...)`, the tokener's outcome being `parsed`. */
  method StoreValue(cl: Client, parsed: Option<Json>)
    modifies cl`du
    ensures Snapshot(cl) == old(Snapshot(cl)).(du := old(cl.du).(jsobj := parsed))
  {
    cl.du := cl.du.(jsobj := parsed);
  }

  /** The session id `uh_ubus_handle_request` cuts out of `url` after the gateway's prefix. */
  method SessionFromUrl(url: string, prefix: string) returns (sid: string)
    requires prefix <= url
    ensures sid == SessionOf(url[|prefix|..])
  {
    var i := |prefix|;
    while i < |url| && url[i] == '/'
      invariant |prefix| <= i <= |url|
      invariant SessionOf(url[|prefix|..]) == SessionOf(url[i..])
    {
      SessionOfSkip(url[i..]);
      assert url[i..][1..] == url[i + 1..];
      i := i + 1;
    }
    SessionOfStop(url[i..]);
    var j := i;
    while j < |url| && url[j] != '/'
      invariant i <= j <= |url|
      invariant UpToSlash(url[i..]) == url[i..j] + UpToSlash(url[j..])
    {
      CutStep(url, i, j);
      j := j + 1;
    }
    assert UpToSlash(url[j..]) == "";
    sid := url[i..j];
  }

  /** The session id a request to `url` runs under: the fixed one without authentication. */
  function RequestSid(url: string, conf: Config): string
    requires conf.ubusNoauth || conf.ubusPrefix <= url
  {
    if conf.ubusNoauth then DefaultSid else SessionOf(url[|conf.ubusPrefix|..])
  }

  /** `uh_ubus_handle_request` serves only POST requests with a 32-character session id. */
  predicate Admits(sid: string, m: Method)
  {
    |sid| == 32 && m == POST
  }

  /** The connection after `uh_client_error(400, "Bad Request", "Invalid Request")`. */
  function Rejected(c: Conn, req: Request, conf: Config): Conn
  {
    var c1 := c.(out := c.out + StatusHead(req, 400, "Bad Request") + "Content-Type: text/plain\r\n\r\n",
                 heads := c.heads + [400]);
    Ended(Printed(c1, req, conf, "Invalid Request"), req, conf)
  }

  method BadRequest(cl: Client)
    modifies cl`out, cl`timer, cl`du, cl`dispatchFree, cl`notifyWrite, cl`state, cl`eof, cl`stateChanged
    modifies cl`statuses
    ensures Snapshot(cl) == Rejected(old(Snapshot(cl)), cl.request, cl.conf)
  {
    cl.ClientError(400, "Bad Request", "Invalid Request");
  }

  /**
   * `uh_ubus_handle_request`: a request that is admitted gets the free
   * hook, a new tokener and its session id in the gateway's record, whose
   * other fields are left as an earlier request on the connection left
   * them; any other is answered 400.
   */
  method HandleRequest(cl: Client, url: string)
    requires cl.conf.ubusNoauth || cl.conf.ubusPrefix <= url
    modifies cl`out, cl`timer, cl`du, cl`dispatchFree, cl`notifyWrite, cl`state, cl`eof, cl`stateChanged
    modifies cl`statuses
    ensures var sid := RequestSid(url, cl.conf);
      Admits(sid, cl.request.httpMethod) ==>
        Snapshot(cl) == old(Snapshot(cl)).(free := true, du := old(cl.du).(jstok := true, sid := sid))
    ensures !Admits(RequestSid(url, cl.conf), cl.request.httpMethod) ==>
      Snapshot(cl) == Rejected(old(Snapshot(cl)), cl.request, cl.conf)
  {
    var sid := DefaultSid;
    if !cl.conf.ubusNoauth {
      sid := SessionFromUrl(url, cl.conf.ubusPrefix);
    }
    Admit(cl, sid);
  }

  /** The admission check of `uh_ubus_handle_request` for session id `sid`. */
  method Admit(cl: Client, sid: string)
    modifies cl`out, cl`timer, cl`du, cl`dispatchFree, cl`notifyWrite, cl`state, cl`eof, cl`stateChanged
    modifies cl`statuses
    ensures Admits(sid, cl.request.httpMethod) ==>
      Snapshot(cl) == old(Snapshot(cl)).(free := true, du := old(cl.du).(jstok := true, sid := sid))
    ensures !Admits(sid, cl.request.httpMethod) ==> Snapshot(cl) == Rejected(old(Snapshot(cl)), cl.request, cl.conf)
  {
    if |sid| != 32 || cl.request.httpMethod != POST {
      BadRequest(cl);
    } else {
      Install(cl, sid);
    }
  }

  /**
   * The gateway's hooks installed for an admitted request: only the
   * tokener and the session id of the record are set.
   */
  method Install(cl: Client, sid: string)
    modifies cl`dispatchFree, cl`du
    ensures Snapshot(cl) == old(Snapshot(cl)).(free := true, du := old(cl.du).(jstok := true, sid := sid))
  {
    cl.dispatchFree := true;
    cl.du := cl.du.(jstok := true, sid := sid);
  }

  /**
   * On a keep-alive connection the next request is installed on the record
   * the previous one freed: a body value parsed by the previous request is
   * still there, so the next request's body is refused.
   */
  lemma LeftoverValueRefusesNextBody(du: DispatchUbus, sid: string, len: nat)
    requires du.jsobj.Some?
    ensures !Accepts(RequestFree(du).(jstok := true, sid := sid), len)
  {
  }

  /**
   * The body byte count also carries over: the next request's bytes are
   * accepted only while the two bodies together stay within the limit.
   */
  lemma BodyCountCarriesOver(du: DispatchUbus, sid: string, len: nat)
    ensures Accepts(RequestFree(du).(jstok := true, sid := sid), len) <==>
      du.jsobj.None? && du.postLen + len <= MaxPostSize
  {
  }

  /**
   * With authentication, the session id is the path segment after the
   * prefix and any slashes; a URL carrying a 32-character segment there is
   * admitted exactly when it is a POST.
   */
  lemma RequestSidOfPath(url: string, conf: Config, k: nat, sid: string, tail: string, m: Method)
    requires !conf.ubusNoauth && url == conf.ubusPrefix + Repeat('/', k) + sid + tail
    requires |sid| > 0 && forall i :: 0 <= i < |sid| ==> sid[i] != '/'
    requires |tail| == 0 || tail[0] == '/'
    ensures RequestSid(url, conf) == sid
    ensures Admits(RequestSid(url, conf), m) <==> |sid| == 32 && m == POST
  {
    assert url[|conf.ubusPrefix|..] == Repeat('/', k) + sid + tail;
    SessionOfPath(k, sid, tail);
  }

  /** Without authentication every POST is admitted under the fixed session id. */
  lemma RequestSidNoauth(url: string, conf: Config, m: Method)
    requires conf.ubusNoauth
    ensures RequestSid(url, conf) == DefaultSid
    ensures Admits(RequestSid(url, conf), m) <==> m == POST
  {
  }

  // ---------------------------------------------------------------------
  // What the steps write and leave behind
  // ---------------------------------------------------------------------

  /**
   * Outside a batch an answer is its rendering, a newline, and the end of
   * the request: the chunk terminator is written and the record released.
   */
  lemma AnsweredSingle(c: Conn, req: Request, conf: Config, j: Json)
    requires !c.du.batch
    ensures var r := Answered(c, req, conf, j); var ch := UseChunked(req);
      r.out == c.out + ChunkFrame(ch, Render(j)) + ChunkFrame(ch, "\n") + EofMarker(ch)
      && !r.free && r.du.jsobjCur.None?
      && (c.free ==> r.du.released)
  {
    var ch := UseChunked(req);
    assert Separator(c.du.batch, c.du.arrayIdx) + Render(j) == Render(j);
  }

  /**
   * Inside a batch an answer is its rendering after the separator, and
   * the next element is scheduled; the request goes on.
   */
  lemma AnsweredInBatch(c: Conn, req: Request, conf: Config, j: Json)
    requires c.du.batch
    ensures var r := Answered(c, req, conf, j);
      r.out == c.out + ChunkFrame(UseChunked(req), Separator(true, c.du.arrayIdx) + Render(j))
      && r.du.timer == NextBatch && r.state == c.state && r.free == c.free && r.du.jsobjCur.None?
  {
  }

  /**
   * `uh_ubus_single_error` outside a batch finishes the request twice: once
   * inside the error answer and once more itself, so two chunk terminators
   * follow the answer.
   */
  lemma SingleErrorEndsTwice(c: Conn, req: Request, conf: Config, e: RpcError)
    requires !c.du.batch
    ensures var r := SingleErrored(c, req, conf, e); var ch := UseChunked(req);
      r.out == c.out + StatusHead(req, 200, "OK") + JsonContentType
        + ChunkFrame(ch, Render(ErrorEnvelope(c.du.jsobjCur, e))) + ChunkFrame(ch, "\n")
        + EofMarker(ch) + EofMarker(ch)
      && r.heads == c.heads + [200]
  {
    var h := Headed(c, req);
    AnsweredSingle(h, req, conf, ErrorEnvelope(c.du.jsobjCur, e));
  }

  /**
   * A call that times out while its connection still holds the free hook
   * is aborted twice: by the timeout and again by `uh_ubus_request_free`,
   * since `req_pending` is never cleared.
   */
  lemma TimeoutThenFreeAbortsTwice(c: Conn, req: Request, conf: Config)
    requires !c.du.batch && c.du.reqPending && c.free
    ensures TimedOut(c, req, conf).du.bus.aborts == c.du.bus.aborts + 2
    ensures !TimedOut(c, req, conf).du.bus.outstanding
  {
  }

  /**
   * An empty batch gets the batch's response head and "[", then a second
   * response head with the parse error as a batch element; the batch
   * timer is left scheduled on a record the request's end has released.
   */
  lemma EmptyBatchAnswer(c: Conn, req: Request, conf: Config, b: Backend)
    requires c.du.jsobj == Some(JArray([])) && c.free
    ensures var r := BodyDone(c, req, conf, b);
      r.heads == c.heads + [200, 200] && r.du.timer == NextBatch && r.du.released && !r.free
  {
    assert |c.du.jsobj.value.items| == 0;
    EmptyBatchOpened(c, req, conf);
  }

  lemma EmptyBatchOpened(c: Conn, req: Request, conf: Config)
    requires c.free
    ensures var r := BatchOpened(c, req, conf, 0);
      r.heads == c.heads + [200, 200] && r.du.timer == NextBatch && r.du.released && !r.free
  {
    var c1 := BatchHead(c, req, conf);
    assert c1.du.batch && c1.free && c1.heads == c.heads + [200];
    var h := Headed(c1, req);
    assert h.du == c1.du && h.free && h.heads == c.heads + [200, 200];
    var a := ErrorAnswered(h, req, conf, ParseError);
    assert a.du.timer == NextBatch && a.free && a.heads == h.heads;
    var r := Ended(a, req, conf);
    assert r.heads == a.heads && r.du == RequestFree(a.du) && !r.free;
  }

}
