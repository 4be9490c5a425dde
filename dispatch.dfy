/**
 * The JSON-RPC gateway's per-request record (`struct dispatch_ubus`) and the
 * bus it talks to.  The record lives inside the connection, which frees it
 * through `uh_ubus_request_free` when the request is done, so it is declared
 * apart from both the connection and the gateway logic.
 */
module Dispatch {
  import opened Wrappers
  import opened Json

  /** Which callback `du->timeout` is armed with, if any. */
  datatype CallTimer = Idle | NextBatch | CallTimeout(ms: int)

  /** One asynchronous invocation handed to the bus: object id, method, arguments. */
  datatype Invocation = Invocation(obj: nat, func: string, args: seq<(string, Json)>)

  /**
   * What the bus has been told: the invocation it still owes an answer for,
   * every invocation issued, and how many times a request was aborted.
   */
  datatype Bus = Bus(outstanding: bool, invoked: seq<Invocation>, aborts: nat)

  datatype DispatchUbus = DispatchUbus(
    jstok: bool,               // a json tokener exists
    jsobj: Option<Json>,       // the value the tokener has completed, if any
    postLen: int,              // request body bytes fed so far
    sid: string,               // session id taken from the URL
    batch: bool,               // the body is a batch (`du->array`)
    arrayIdx: nat,             // next batch element to start
    jsobjCur: Option<Json>,    // the call object being answered
    obj: nat,                  // bus object id of the current call
    func: string,              // method name of the current call
    reply: seq<Json>,          // data blobs received for the current call, in order
    timer: CallTimer,
    reqPending: bool,
    released: bool,            // request_free has run: value, tokener and reply buffer are gone
    bus: Bus)

  /** The zero-initialised record of a freshly allocated connection. */
  const Zero: DispatchUbus :=
    DispatchUbus(false, None, 0, "", false, 0, None, 0, "", [], Idle, false, false, Bus(false, [], 0))

  /**
   * `uh_ubus_request_free` on the record: the reply buffer, parsed value and
   * tokener are released and an issued call is aborted.  The pointers to the
   * value and the tokener are not cleared, nor is the body byte count.
   * Cancelling the connection's idle timer is the connection's part of the
   * same call.
   */
  function RequestFree(du: DispatchUbus): (d: DispatchUbus)
    ensures d.reply == [] && d.released
    ensures d.bus.aborts == du.bus.aborts + (if du.reqPending then 1 else 0)
    ensures d.bus.outstanding == (du.bus.outstanding && !du.reqPending)
    ensures d.bus.invoked == du.bus.invoked
    ensures d.timer == du.timer && d.reqPending == du.reqPending
    ensures d.jsobj == du.jsobj && d.postLen == du.postLen
  {
    var b := if du.reqPending then du.bus.(outstanding := false, aborts := du.bus.aborts + 1) else du.bus;
    du.(reply := [], released := true, bus := b)
  }
}
