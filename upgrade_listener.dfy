/**
 * The HTTP `upgrade` listener of the server (server/index.js:641-679). One
 * listening port carries two WebSocket protocols: Socket.IO, which claims its
 * own `/socket.io/` requests, and the Yjs document-sync server, which gets
 * every other request whose path (the request-target up to the first `?`)
 * starts with `/`. The router only classifies the raw request-target of the
 * opening handshake (section 4.1 of RFC 6455); what each handler then does
 * with the socket is outside this model.
 */
module UpgradeListener {
  import opened JsString

  /** The path prefix Socket.IO serves its transport under. */
  const SocketIoPrefix: string := "/socket.io/"

  /** What the upgrade listener does with one request. */
  datatype Route =
    | Declined            // returns untouched: Socket.IO's own listener claims the socket
    | Upgraded(path: string)  // handed to the Yjs WebSocket server, which emits "connection"
    | Destroyed           // no protocol claims it: the raw socket is destroyed

  /** `pathname.split("?")[0]`: the request-target without its query. */
  function CleanPath(url: string): (p: string)
    ensures StartsWith(url, p) && '?' !in p
    ensures |p| < |url| ==> url[|p|] == '?'
  {
    BeforeFirst(url, '?')
  }

  /** `isRoomPath`, exactly as the listener computes it. */
  predicate IsRoomPath(cleanPath: string)
    ensures IsRoomPath(cleanPath) ==> |cleanPath| > 0 && cleanPath[0] == '/'
    ensures IsRoomPath(cleanPath) ==> !StartsWith(cleanPath, SocketIoPrefix)
  {
    StartsWith(cleanPath, "/") && !StartsWith(cleanPath, SocketIoPrefix)
  }

  /** The listener, on the raw `request.url`. */
  function Classify(url: string): (r: Route)
    ensures r.Declined? <==> StartsWith(url, SocketIoPrefix)
    ensures r.Upgraded? <==> !StartsWith(url, SocketIoPrefix) && StartsWith(CleanPath(url), "/")
    ensures r.Upgraded? ==> r.path == CleanPath(url) && '?' !in r.path
    ensures r.Destroyed? <==> !StartsWith(url, SocketIoPrefix) && !StartsWith(CleanPath(url), "/")
  {
    if StartsWith(url, SocketIoPrefix) then
      Declined
    else
      var cleanPath := CleanPath(url);
      if IsRoomPath(cleanPath) then
        Upgraded(cleanPath)
      else
        assert !StartsWith(cleanPath, "/") by { CleanPathKeepsPrefix(url); }
        Destroyed
  }

  /**
   * A prefix of the path before the query is a prefix of the whole
   * request-target, so once the raw URL is known not to start with
   * `/socket.io/`, its clean path cannot start with it either: the second
   * half of `isRoomPath` never rejects anything.
   */
  lemma CleanPathKeepsPrefix(url: string)
    ensures StartsWith(CleanPath(url), SocketIoPrefix) ==> StartsWith(url, SocketIoPrefix)
  {
    var p := CleanPath(url);
    if StartsWith(p, SocketIoPrefix) {
      assert url[..|SocketIoPrefix|] == p[..|SocketIoPrefix|];
    }
  }

  /** A Socket.IO request is never given to the Yjs WebSocket server. */
  lemma SocketIoNeverReachesYjs(url: string)
    requires StartsWith(url, SocketIoPrefix)
    ensures !Classify(url).Upgraded?
  {
  }

  /**
   * The query part never decides whether a request reaches the Yjs server:
   * adding a query to a path without one keeps the clean path and the outcome.
   */
  lemma {:induction false} QueryIgnored(path: string, query: string)
    requires '?' !in path
    ensures CleanPath(path + "?" + query) == path
    ensures Classify(path + "?" + query).Upgraded? <==> Classify(path).Upgraded?
  {
    var url := path + "?" + query;
    var p := CleanPath(url);
    assert url[..|path|] == path;
    assert url[|path|] == '?';
    assert p == url[..|p|];
    CleanPathKeepsPrefix(path);
    CleanPathKeepsPrefix(url);
  }

  /** Concrete requests, one per outcome. */
  lemma SocketIoExample()
    ensures Classify("/socket.io/?EIO=4") == Declined
  {
  }

  lemma RoomExample()
    ensures Classify("/demo?t=1") == Upgraded("/demo")
  {
    assert CleanPath("/demo?t=1") == "/demo";
  }

  lemma BareSocketIoExample()
    ensures Classify("/socket.io") == Upgraded("/socket.io")
  {
    assert CleanPath("/socket.io") == "/socket.io";
  }

  lemma DestroyedExample()
    ensures Classify("demo") == Destroyed
  {
  }
}
