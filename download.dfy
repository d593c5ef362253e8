/**
 * The release download of scripts/install.js: an HTTPS GET that follows redirects
 * by recursion on a decreasing budget.
 *
 * The server is a script of replies, one per request in order; once the script is
 * exhausted a request gets a connection error. Writing the body of a 200 reply to
 * the destination either succeeds or fails, as the `writeOk` input says.
 */
module Download {
  import opened Wrappers

  type Byte = bv8

  /** What one request receives. */
  datatype Reply =
    | Response(status: int, location: Option<string>, body: seq<Byte>)
    | ConnectionError

  /** One request put on the wire: the URL and the `Authorization` header, if any. */
  datatype Request = Request(url: string, authorization: Option<string>)

  /** The three failure classes of the download, and a request that errored. */
  datatype Failure =
    | TooManyRedirects
    | HttpStatus(status: int, url: string)
    | WriteFailed
    | RequestFailed

  /** Either the destination now holds this body, or the download failed. */
  datatype Result = Saved(body: seq<Byte>) | Failed(failure: Failure)

  /** The requests made, in order, and how the download ended. */
  datatype Trace = Trace(requests: seq<Request>, outcome: Result)

  /** The default `maxRedirects`. */
  const DefaultMaxRedirects: int := 5

  /** `process.env.GITHUB_TOKEN || process.env.GH_TOKEN`: the first set, non-empty variable. */
  function BearerToken(githubToken: Option<string>, ghToken: Option<string>): (t: Option<string>)
    ensures t.Some? ==> t.value != "" && (t == githubToken || t == ghToken)
    ensures githubToken.Some? && githubToken.value != "" ==> t == githubToken
    ensures t.None? <==> (githubToken.None? || githubToken.value == "") && (ghToken.None? || ghToken.value == "")
  {
    if githubToken.Some? && githubToken.value != "" then githubToken
    else if ghToken.Some? && ghToken.value != "" then ghToken
    else None
  }

  /** The `Authorization` header sent with every request when a token is set. */
  function Authorization(token: Option<string>): (h: Option<string>)
    ensures h.Some? <==> token.Some?
    ensures token.Some? ==> h.value == "Bearer " + token.value
  {
    if token.Some? then Some("Bearer " + token.value) else None
  }

  /** A 3xx response with a non-empty `location` header is followed; any other reply is not. */
  predicate Redirects(reply: Reply) {
    reply.Response? && 300 <= reply.status < 400 && reply.location.Some? && reply.location.value != ""
  }

  /** The reply the next request gets. */
  function NextReply(replies: seq<Reply>): Reply {
    if replies == [] then ConnectionError else replies[0]
  }

  /** The replies left for later requests. */
  function Later(replies: seq<Reply>): seq<Reply> {
    if replies == [] then [] else replies[1..]
  }

  /** How a reply that is not followed ends the download of `url`. */
  function Settle(reply: Reply, url: string, writeOk: bool): (o: Result)
    requires !Redirects(reply)
    ensures o.Saved? <==> reply.Response? && reply.status == 200 && writeOk
    ensures o.Saved? ==> o.body == reply.body
    ensures reply.Response? && reply.status != 200 ==> o == Failed(HttpStatus(reply.status, url))
    ensures reply.Response? && reply.status == 200 && !writeOk ==> o == Failed(WriteFailed)
    ensures reply.ConnectionError? ==> o == Failed(RequestFailed)
    ensures o != Failed(TooManyRedirects)
  {
    if reply.ConnectionError? then Failed(RequestFailed)
    else if reply.status != 200 then Failed(HttpStatus(reply.status, url))
    else if writeOk then Saved(reply.body)
    else Failed(WriteFailed)
  }

  /**
   * `download(url, dest, maxRedirects)`. An exhausted budget rejects before any
   * request; each followed redirect spends one unit of the budget.
   */
  function Fetch(url: string, maxRedirects: int, auth: Option<string>, replies: seq<Reply>, writeOk: bool): (t: Trace)
    ensures maxRedirects <= 0 ==> t == Trace([], Failed(TooManyRedirects))
    ensures maxRedirects > 0 ==> 1 <= |t.requests| <= maxRedirects
    ensures t.requests != [] ==> t.requests[0] == Request(url, auth)
    ensures forall i :: 0 <= i < |t.requests| ==> t.requests[i].authorization == auth
    decreases maxRedirects
  {
    if maxRedirects <= 0 then Trace([], Failed(TooManyRedirects))
    else
      var reply := NextReply(replies);
      if Redirects(reply) then
        var next := Fetch(reply.location.value, maxRedirects - 1, auth, Later(replies), writeOk);
        Trace([Request(url, auth)] + next.requests, next.outcome)
      else
        Trace([Request(url, auth)], Settle(reply, url, writeOk))
  }

  /** The number of leading replies that are followed. */
  function LeadingRedirects(replies: seq<Reply>): (n: nat)
    ensures n <= |replies|
    ensures forall i :: 0 <= i < n ==> Redirects(replies[i])
    ensures n < |replies| ==> !Redirects(replies[n])
  {
    if replies == [] || !Redirects(replies[0]) then 0
    else
      var n := LeadingRedirects(replies[1..]);
      assert forall i :: 1 <= i < |replies| ==> replies[i] == replies[1..][i - 1];
      1 + n
  }

  /** The URL the request after `i` followed replies goes to. */
  function UrlAfter(url: string, replies: seq<Reply>, i: nat): string
    requires i <= |replies|
    requires forall j :: 0 <= j < i ==> Redirects(replies[j])
  {
    if i == 0 then url
    else
      assert Redirects(replies[i - 1]);
      replies[i - 1].location.value
  }

  /**
   * The download, classified by the server's script alone: with `n` leading
   * redirects, a budget of at most `n` ends in "Too many redirects" after exactly
   * budget-many requests; a larger budget makes `n + 1` requests and ends as the
   * reply after the redirects says.
   */
  lemma {:induction false} FetchClassified(url: string, maxRedirects: int, auth: Option<string>, replies: seq<Reply>, writeOk: bool)
    requires maxRedirects >= 0
    ensures var t := Fetch(url, maxRedirects, auth, replies, writeOk);
      var n := LeadingRedirects(replies);
      && (maxRedirects <= n ==> t.outcome == Failed(TooManyRedirects) && |t.requests| == maxRedirects)
      && (maxRedirects > n ==> |t.requests| == n + 1 && t.outcome == Settle(NextReply(replies[n..]), UrlAfter(url, replies, n), writeOk))
    decreases maxRedirects
  {
    var n := LeadingRedirects(replies);
    if maxRedirects == 0 {
    } else if n == 0 {
      assert replies[0..] == replies;
    } else {
      var rest := replies[1..];
      var next := replies[0].location.value;
      assert Later(replies) == rest;
      assert n == 1 + LeadingRedirects(rest);
      FetchClassified(next, maxRedirects - 1, auth, rest, writeOk);
      if maxRedirects > n {
        assert replies[n..] == rest[n - 1..];
        assert n > 1 ==> replies[n - 1] == rest[n - 2];
        assert UrlAfter(url, replies, n) == UrlAfter(next, rest, n - 1);
      }
    }
  }

  /** The requests go to the initial URL and then to each followed `location` in turn. */
  lemma {:induction false} FetchFollowsLocations(url: string, maxRedirects: int, auth: Option<string>, replies: seq<Reply>, writeOk: bool)
    ensures var t := Fetch(url, maxRedirects, auth, replies, writeOk);
      forall i :: 0 <= i < |t.requests| && i <= LeadingRedirects(replies) ==> t.requests[i] == Request(UrlAfter(url, replies, i), auth)
    decreases maxRedirects
  {
    var t := Fetch(url, maxRedirects, auth, replies, writeOk);
    var n := LeadingRedirects(replies);
    if maxRedirects > 0 && n > 0 {
      var rest := replies[1..];
      var next := replies[0].location.value;
      assert Later(replies) == rest;
      assert n == 1 + LeadingRedirects(rest);
      FetchFollowsLocations(next, maxRedirects - 1, auth, rest, writeOk);
      var t' := Fetch(next, maxRedirects - 1, auth, rest, writeOk);
      assert t.requests == [Request(url, auth)] + t'.requests;
      forall i | 1 <= i < |t.requests| && i <= n
        ensures t.requests[i] == Request(UrlAfter(url, replies, i), auth)
      {
        assert t.requests[i] == t'.requests[i - 1];
        if i > 1 {
          assert replies[i - 1] == rest[i - 2];
        }
        assert UrlAfter(url, replies, i) == UrlAfter(next, rest, i - 1);
      }
    }
  }

  /** With the default budget, up to four redirects followed by a 200 save the final body. */
  lemma DefaultFollowsFourRedirects(url: string, auth: Option<string>, replies: seq<Reply>)
    requires LeadingRedirects(replies) <= 4
    requires LeadingRedirects(replies) < |replies|
    requires replies[LeadingRedirects(replies)].Response? && replies[LeadingRedirects(replies)].status == 200
    ensures var t := Fetch(url, DefaultMaxRedirects, auth, replies, true);
      t.outcome == Saved(replies[LeadingRedirects(replies)].body) && |t.requests| == LeadingRedirects(replies) + 1
  {
    FetchClassified(url, DefaultMaxRedirects, auth, replies, true);
    var n := LeadingRedirects(replies);
    assert NextReply(replies[n..]) == replies[n];
  }

  /** With the default budget, a fifth consecutive redirect rejects after exactly five requests. */
  lemma DefaultRejectsFifthRedirect(url: string, auth: Option<string>, replies: seq<Reply>, writeOk: bool)
    requires LeadingRedirects(replies) >= 5
    ensures var t := Fetch(url, DefaultMaxRedirects, auth, replies, writeOk);
      t.outcome == Failed(TooManyRedirects) && |t.requests| == 5
  {
    FetchClassified(url, DefaultMaxRedirects, auth, replies, writeOk);
  }

  /** A 3xx reply without a usable `location` is not followed: it fails naming its status and URL. */
  lemma RedirectWithoutLocationFails(url: string, maxRedirects: int, auth: Option<string>, replies: seq<Reply>, writeOk: bool)
    requires maxRedirects > 0
    requires replies != [] && replies[0].Response? && 300 <= replies[0].status < 400
    requires replies[0].location.None? || replies[0].location.value == ""
    ensures Fetch(url, maxRedirects, auth, replies, writeOk) == Trace([Request(url, auth)], Failed(HttpStatus(replies[0].status, url)))
  {
  }
}
