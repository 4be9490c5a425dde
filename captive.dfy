/**
 * Captive-portal redirection (`captive.c`): once a portal host and URL
 * are configured, a request addressed to any other host (or to none) is
 * answered with a `302 Found` pointing at the portal URL.
 */
module Captive {
  import opened Wrappers
  import opened Chunked
  import opened Dispatch
  import opened Connection

  /** The two globals `captive_host` and `captive_url`; `None` stands for NULL. */
  class CaptivePortal {
    var host: Option<string>
    var url: Option<string>

    constructor()
      ensures host.None? && url.None?
    {
      host := None;
      url := None;
    }

    /** `uh_captive_set_host`: both globals hold copies of the arguments. */
    method SetHost(h: string, u: string)
      modifies this
      ensures host == Some(h) && url == Some(u)
      ensures Configured()
      ensures forall reqHost :: CheckHost(reqHost) <==> reqHost != Some(h)
    {
      host := Some(h);
      url := Some(u);
    }

    predicate Configured()
      reads this
    {
      host.Some? && url.Some?
    }

    /**
     * `uh_captive_check_host`: whether a request naming `reqHost` in its
     * `Host` header (`None` when it has none) must be redirected.
     */
    function CheckHost(reqHost: Option<string>): (redirect: bool)
      reads this
      ensures redirect ==> url.Some?
      ensures redirect <==> Configured() && reqHost != host
    {
      if host.None? || url.None? then false
      else if reqHost.Some? && reqHost.value == host.value then false
      else true
    }
  }

  /** Without a configured portal nothing is redirected. */
  lemma UnconfiguredNeverRedirects(p: CaptivePortal, reqHost: Option<string>)
    requires !p.Configured()
    ensures !p.CheckHost(reqHost)
  {
  }

  /** A configured portal lets requests to its own host through and redirects every other one, including a request without a host. */
  lemma ConfiguredRedirectsOthers(p: CaptivePortal, other: string)
    requires p.Configured() && other != p.host.value
    ensures !p.CheckHost(p.host)
    ensures p.CheckHost(Some(other)) && p.CheckHost(None)
  {
  }

  /**
   * `uh_captive_redirect`: the status head for 302, an empty body and
   * the portal URL as `Location`, written straight to the stream, then
   * the request is done.  It is reached only after `CheckHost` said yes,
   * so the portal URL is set.
   */
  method Redirect(cl: Client, portal: CaptivePortal) returns (r: bool)
    requires portal.url.Some?
    modifies cl`out, cl`dispatchFree, cl`du, cl`timer, cl`notifyWrite
    modifies cl`state, cl`eof, cl`stateChanged, cl`statuses
    ensures r
    ensures cl.statuses == old(cl.statuses) + [302]
    ensures cl.out == old(cl.out) + StatusHead(cl.request, 302, "Found")
      + "Content-Length: 0\r\n" + "Location: " + portal.url.value + "\r\n\r\n"
      + EofMarker(UseChunked(cl.request))
    ensures !cl.dispatchFree && cl.du == (if old(cl.dispatchFree) then RequestFree(old(cl.du)) else old(cl.du))
    ensures !cl.notifyWrite
    ensures KeepAlive(cl.request, cl.conf.httpKeepalive) ==>
      cl.state == Init && cl.timer == Armed(cl.conf.httpKeepalive * 1000)
      && cl.eof == old(cl.eof) && cl.stateChanged == old(cl.stateChanged)
    ensures !KeepAlive(cl.request, cl.conf.httpKeepalive) ==>
      cl.state == Done && cl.eof && cl.stateChanged
      && cl.timer == (if old(cl.dispatchFree) then Disarmed else old(cl.timer))
  {
    RedirectHead(cl, portal.url.value);
    cl.RequestDone();
    return true;
  }

  /** The head of the redirect: status 302, no body, and where to go instead. */
  method RedirectHead(cl: Client, location: string)
    modifies cl`out, cl`statuses
    ensures cl.statuses == old(cl.statuses) + [302]
    ensures cl.out == old(cl.out) + StatusHead(cl.request, 302, "Found")
      + "Content-Length: 0\r\n" + "Location: " + location + "\r\n\r\n"
  {
    cl.HttpHeader(302, "Found");
    cl.out := cl.out + "Content-Length: 0\r\n";
    cl.out := cl.out + "Location: " + location + "\r\n\r\n";
  }
}
