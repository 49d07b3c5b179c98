/** The probe engine (app/net.py): address checks, redirect loop, bounded body, result construction.
    URLs arrive parsed; the resolver and the server are arbitrary sequences of replies, one per hop. */
module Net {
  import opened Common
  import opened Monitors
  import opened Db

  /** One entry of a resolver answer: an address, or text that is not one. */
  datatype Entry = Ip(address: nat) | Garbage(text: nat)

  datatype Host = NoHost | Literal(address: nat) | Name(loopbackAlias: bool, hostname: nat)

  datatype Url = Malformed | Url(http: bool, credentials: bool, host: Host, rest: nat)

  /** A URL that could be split into its parts. */
  type ParsedUrl = u: Url | u.Url? witness Url(true, false, NoHost, 0)

  datatype DnsReply = Answer(entries: seq<Entry>) | LookupFailed | LookupTimedOut

  datatype TransportError =
    | ConnectTimedOut | ReadTimedOut | WriteTimedOut | PoolTimedOut
    | TooManyRedirects | ConnectFailed(tls: bool) | OtherRequestError

  datatype BodyEnd = BodyComplete | BodyFailed(error: TransportError) | BodyTimedOut

  /** `location` is the joined redirect target; `None` when the header is missing or empty. */
  datatype ServerReply =
    | Response(code: int, location: Option<ParsedUrl>, chunks: seq<nat>, end: BodyEnd)
    | SendFailed(error: TransportError)
    | SendTimedOut

  datatype Dto = Dto(outcome: Outcome, statusCode: Option<int>, error: Option<ErrorDetail>, finalUrl: Option<Url>)

  /** A request as it left: the URL it is for and the address it was pinned to. */
  datatype Request = Request(url: Url, address: Entry)

  // ----- Target validation -----

  datatype Resolution = Pinned(address: Entry) | Blocked | Unresolved | ResolutionTimedOut

  predicate Allowed(e: Entry, blocked: nat -> bool) {
    e.Ip? && !blocked(e.address)
  }

  /** What validation of one hop decides. */
  function Resolve(url: Url, reply: DnsReply, blocked: nat -> bool): Resolution {
    if url.Malformed? || !url.http || url.host.NoHost? || url.credentials then Blocked
    else match url.host
      case Literal(a) => if blocked(a) then Blocked else Pinned(Ip(a))
      case Name(loopbackAlias, _) =>
        if loopbackAlias then Blocked
        else match reply
          case LookupFailed => Unresolved
          case LookupTimedOut => ResolutionTimedOut
          case Answer(entries) =>
            if entries == [] then Unresolved
            else if forall e :: e in entries ==> Allowed(e, blocked) then Pinned(entries[0])
            else Blocked
  }

  method ResolveAndValidate(url: Url, reply: DnsReply, blocked: nat -> bool) returns (r: Resolution)
    ensures r == Resolve(url, reply, blocked)
  {
    if url.Malformed? || !url.http || url.host.NoHost? || url.credentials {
      return Blocked;
    }
    if url.host.Literal? {
      return if blocked(url.host.address) then Blocked else Pinned(Ip(url.host.address));
    }
    if url.host.loopbackAlias {
      return Blocked;
    }
    if reply.LookupFailed? {
      return Unresolved;
    }
    if reply.LookupTimedOut? {
      return ResolutionTimedOut;
    }
    var resolved: seq<Entry> := [];
    for i := 0 to |reply.entries|
      invariant resolved == [] <==> i == 0
      invariant resolved != [] ==> resolved[0] == reply.entries[0]
      invariant forall e :: e in resolved <==> e in reply.entries[..i]
    {
      if reply.entries[i] !in resolved {
        resolved := resolved + [reply.entries[i]];
      }
      assert reply.entries[..i + 1] == reply.entries[..i] + [reply.entries[i]];
    }
    assert reply.entries[..|reply.entries|] == reply.entries;
    if resolved == [] {
      return Unresolved;
    }
    for i := 0 to |resolved|
      invariant forall j :: 0 <= j < i ==> Allowed(resolved[j], blocked)
    {
      if resolved[i].Garbage? || blocked(resolved[i].address) {
        assert resolved[i] in reply.entries;
        return Blocked;
      }
    }
    r := Pinned(resolved[0]);
  }

  /** A URL that the engine may contact once its host is known. */
  predicate Admissible(url: Url) {
    url.Url? && url.http && !url.credentials && !url.host.NoHost? && !(url.host.Name? && url.host.loopbackAlias)
  }

  predicate Forbidden(e: Entry, blocked: nat -> bool) {
    e.Garbage? || blocked(e.address)
  }

  /** What comes of every URL and every answer: an allowed literal is contacted as it is, a name at the first address
      of an answer without a forbidden entry, and each way to fail is told apart from the others. */
  lemma ResolveExactly(url: Url, reply: DnsReply, blocked: nat -> bool)
    ensures !Admissible(url) ==> Resolve(url, reply, blocked) == Blocked
    ensures Admissible(url) && url.host.Literal? ==>
              Resolve(url, reply, blocked) == if blocked(url.host.address) then Blocked else Pinned(Ip(url.host.address))
    ensures Admissible(url) && url.host.Name? ==>
              && (reply.LookupFailed? ==> Resolve(url, reply, blocked) == Unresolved)
              && (reply.LookupTimedOut? ==> Resolve(url, reply, blocked) == ResolutionTimedOut)
              && (reply == Answer([]) ==> Resolve(url, reply, blocked) == Unresolved)
              && (reply.Answer? && (exists e :: e in reply.entries && Forbidden(e, blocked)) ==>
                    Resolve(url, reply, blocked) == Blocked)
              && (reply.Answer? && reply.entries != [] && (forall e :: e in reply.entries ==> !Forbidden(e, blocked)) ==>
                    Resolve(url, reply, blocked) == Pinned(reply.entries[0]))
  {
    if reply.Answer? {
      forall e | e in reply.entries
        ensures Allowed(e, blocked) <==> !Forbidden(e, blocked)
      {
      }
    }
  }

  // ----- Results -----

  function ErrorResult(error: ErrorDetail): Dto {
    Dto(OutcomeUnreachable, None, Some(error), None)
  }

  function Classify(code: int): Outcome {
    if 100 <= code < 400 then OutcomeUp
    else if 400 <= code < 500 then OutcomeDegraded
    else OutcomeDown
  }

  /** The exception table, most specific class first. */
  function DetailOf(e: TransportError): ErrorDetail {
    match e
    case ConnectTimedOut => ConnectTimeout
    case ReadTimedOut => ReadTimeout
    case WriteTimedOut => WriteTimeout
    case PoolTimedOut => PoolTimeout
    case TooManyRedirects => RedirectError
    case ConnectFailed(tls) => if tls then TlsError else ConnectError
    case OtherRequestError => RequestError
  }

  /** The only two shapes a probe result can have. */
  predicate TwoShapes(d: Dto) {
    || (d.statusCode.Some? && d.finalUrl.Some? && d.error.None? && d.outcome == Classify(d.statusCode.value))
    || (d.statusCode.None? && d.finalUrl.None? && d.error.Some? && d.outcome == OutcomeUnreachable)
  }

  // ----- Body -----

  function Sum(chunks: seq<nat>): nat {
    if chunks == [] then 0 else Sum(chunks[..|chunks| - 1]) + chunks[|chunks| - 1]
  }

  /** The first `n` chunks are what a bounded reader takes: it stops at the end, or with the chunk that overflows. */
  ghost predicate BoundedRead(chunks: seq<nat>, maxBytes: nat, n: nat) {
    && n <= |chunks|
    && (n > 0 ==> Sum(chunks[..n - 1]) <= maxBytes)
    && (n < |chunks| ==> Sum(chunks[..n]) > maxBytes)
  }

  method ReadBody(chunks: seq<nat>, maxBytes: nat) returns (n: nat, bytesRead: nat, overflowed: bool)
    ensures BoundedRead(chunks, maxBytes, n) && bytesRead == Sum(chunks[..n])
    ensures overflowed <==> Sum(chunks) > maxBytes
    ensures !overflowed ==> n == |chunks|
  {
    n, bytesRead := 0, 0;
    while n < |chunks|
      invariant n <= |chunks| && bytesRead == Sum(chunks[..n]) <= maxBytes
    {
      assert chunks[..n + 1][..n] == chunks[..n];
      n, bytesRead := n + 1, bytesRead + chunks[n];
      if bytesRead > maxBytes {
        PrefixSum(chunks, n);
        return n, bytesRead, true;
      }
    }
    assert chunks[..n] == chunks;
    overflowed := false;
  }

  /** The size of a body is the sum of its chunks, however it is cut. */
  lemma {:induction false} SumOfParts(a: seq<nat>, b: seq<nat>)
    ensures Sum(a + b) == Sum(a) + Sum(b)
    ensures forall size: nat :: Sum([size]) == size
  {
    if b != [] {
      SumOfParts(a, b[..|b| - 1]);
      assert (a + b)[..|a + b| - 1] == a + b[..|b| - 1];
    } else {
      assert a + b == a;
    }
    forall size: nat
      ensures Sum([size]) == size
    {
      assert [size][..0] == [];
    }
  }

  lemma {:induction false} PrefixSum(chunks: seq<nat>, n: nat)
    requires n <= |chunks|
    ensures Sum(chunks[..n]) <= Sum(chunks)
  {
    if n < |chunks| {
      PrefixSum(chunks[..|chunks| - 1], n);
      assert chunks[..|chunks| - 1][..n] == chunks[..n];
    } else {
      assert chunks[..n] == chunks;
    }
  }

  // ----- The probe -----

  datatype Settings = Settings(maxRedirects: nat, maxBytes: nat)

  datatype Trace = Trace(dto: Dto, sent: seq<Request>)

  predicate IsRedirect(code: int) {
    300 <= code <= 399
  }

  /** Reference semantics: what the hops from number `hop` on send and report. */
  function Walk(s: Settings, url: Url, hop: nat, dns: nat -> DnsReply, server: nat -> ServerReply,
                blocked: nat -> bool): Trace
    requires hop <= s.maxRedirects
    decreases s.maxRedirects - hop
  {
    match Resolve(url, dns(hop), blocked)
    case Blocked => Trace(ErrorResult(SsrfBlocked), [])
    case Unresolved => Trace(ErrorResult(DnsError), [])
    case ResolutionTimedOut => Trace(ErrorResult(TotalTimeout), [])
    case Pinned(address) =>
      var sent := [Request(url, address)];
      match server(hop)
      case SendFailed(e) => Trace(ErrorResult(DetailOf(e)), sent)
      case SendTimedOut => Trace(ErrorResult(TotalTimeout), sent)
      case Response(code, location, chunks, end) =>
        var answered := Dto(Classify(code), Some(code), None, Some(url));
        if !IsRedirect(code) then
          Trace(if Sum(chunks) > s.maxBytes || end.BodyComplete? then answered
                else if end.BodyTimedOut? then ErrorResult(TotalTimeout)
                else ErrorResult(DetailOf(end.error)), sent)
        else if hop == s.maxRedirects then Trace(ErrorResult(RedirectError), sent)
        else if location.None? then Trace(answered, sent)
        else if !location.value.http then Trace(ErrorResult(SsrfBlocked), sent)
        else
          var rest := Walk(s, location.value, hop + 1, dns, server, blocked);
          Trace(rest.dto, sent + rest.sent)
  }

  /** The trace of a walk that has sent `sent` before `rest`. */
  ghost function Onwards(sent: seq<Request>, rest: Trace): Trace {
    Trace(rest.dto, sent + rest.sent)
  }

  lemma FromTheStart(walk: Trace)
    ensures Onwards([], walk) == walk
  {
  }

  lemma NoMore(sent: seq<Request>)
    ensures forall dto :: Onwards(sent, Trace(dto, [])) == Trace(dto, sent)
  {
  }

  lemma OneMore(sent: seq<Request>, request: Request)
    ensures forall dto :: Onwards(sent, Trace(dto, [request])) == Trace(dto, sent + [request])
    ensures forall dto, more :: Onwards(sent, Trace(dto, [request] + more)) == Onwards(sent + [request], Trace(dto, more))
  {
    forall dto, more
      ensures Onwards(sent, Trace(dto, [request] + more)) == Onwards(sent + [request], Trace(dto, more))
    {
      assert sent + ([request] + more) == sent + [request] + more;
    }
  }

  /** The redirect loop. `lookups` counts target resolutions, `chunksRead` the body chunks taken. */
  method PerformHttpProbe(s: Settings, url: Url, dns: nat -> DnsReply, server: nat -> ServerReply, blocked: nat -> bool)
    returns (dto: Dto, sent: seq<Request>, lookups: nat, chunksRead: nat)
    ensures Trace(dto, sent) == Walk(s, url, 0, dns, server, blocked)
    ensures lookups <= s.maxRedirects + 1 && |sent| <= lookups <= |sent| + 1
    // A body is read, as far as the limit allows, exactly when the last reply is a response that is no redirect.
    ensures if |sent| > 0 && server(|sent| - 1).Response? && !Redirects(server(|sent| - 1))
            then BoundedRead(server(|sent| - 1).chunks, s.maxBytes, chunksRead) else chunksRead == 0
  {
    hide Resolve, Sum, BoundedRead, Classify, ErrorResult, Onwards;
    var currentUrl, redirectCount := url, 0;
    var statusCode: Option<int>, finalUrl: Option<Url> := None, None;
    sent, lookups, chunksRead := [], 0, 0;
    FromTheStart(Walk(s, url, 0, dns, server, blocked));
    while true
      invariant redirectCount <= s.maxRedirects
      invariant |sent| == lookups == redirectCount
      invariant statusCode == None && finalUrl == None && chunksRead == 0
      invariant redirectCount > 0 ==> Redirects(server(redirectCount - 1))
      invariant Walk(s, url, 0, dns, server, blocked) ==
                Onwards(sent, Walk(s, currentUrl, redirectCount, dns, server, blocked))
      decreases s.maxRedirects - redirectCount
    {
      NoMore(sent);
      var target := ResolveAndValidate(currentUrl, dns(redirectCount), blocked);
      lookups := lookups + 1;
      match target {
        case Blocked => return ErrorResult(SsrfBlocked), sent, lookups, 0;
        case Unresolved => return ErrorResult(DnsError), sent, lookups, 0;
        case ResolutionTimedOut => return ErrorResult(TotalTimeout), sent, lookups, 0;
        case Pinned(_) =>
      }
      OneMore(sent, Request(currentUrl, target.address));
      sent := sent + [Request(currentUrl, target.address)];
      var reply := server(redirectCount);
      match reply {
        case SendFailed(e) => return ErrorResult(DetailOf(e)), sent, lookups, 0;
        case SendTimedOut => return ErrorResult(TotalTimeout), sent, lookups, 0;
        case Response(_, _, _, _) =>
      }
      if IsRedirect(reply.code) {
        if redirectCount >= s.maxRedirects {
          return ErrorResult(DetailOf(TooManyRedirects)), sent, lookups, 0;
        }
        if reply.location.None? {
          statusCode, finalUrl := Some(reply.code), Some(currentUrl);
          break;
        }
        var next := reply.location.value;
        if !next.http {
          return ErrorResult(SsrfBlocked), sent, lookups, 0;
        }
        currentUrl, redirectCount := next, redirectCount + 1;
      } else {
        statusCode, finalUrl := Some(reply.code), Some(currentUrl);
        var overflowed, bytesRead;
        chunksRead, bytesRead, overflowed := ReadBody(reply.chunks, s.maxBytes);
        if !overflowed && reply.end.BodyFailed? {
          return ErrorResult(DetailOf(reply.end.error)), sent, lookups, chunksRead;
        }
        if !overflowed && reply.end.BodyTimedOut? {
          return ErrorResult(TotalTimeout), sent, lookups, chunksRead;
        }
        break;
      }
    }
    assert statusCode.Some?;   // leaving the loop by `break` always carries a status code
    var outcome;
    if statusCode.Some? {
      outcome := Classify(statusCode.value);
    } else {
      outcome := OutcomeDown;   // the fallback that no path reaches
    }
    dto := Dto(outcome, statusCode, None, finalUrl);
  }

  // ----- What every walk satisfies -----

  lemma {:induction false} ResultHasTwoShapes(s: Settings, url: Url, hop: nat, dns: nat -> DnsReply,
                                              server: nat -> ServerReply, blocked: nat -> bool)
    requires hop <= s.maxRedirects
    ensures TwoShapes(Walk(s, url, hop, dns, server, blocked).dto)
    decreases s.maxRedirects - hop
  {
    if server(hop).Response? && server(hop).location.Some? && hop < s.maxRedirects {
      ResultHasTwoShapes(s, server(hop).location.value, hop + 1, dns, server, blocked);
    }
  }

  /** Request number `j` of a walk: it is pinned to what that hop's own answer resolved to, it is for the URL
      the previous response redirected to, and there are never more than `maxRedirects + 1` of them. */
  lemma {:induction false} RequestIsPinned(s: Settings, url: Url, hop: nat, dns: nat -> DnsReply,
                                           server: nat -> ServerReply, blocked: nat -> bool, j: nat)
    requires hop <= s.maxRedirects
    requires j < |Walk(s, url, hop, dns, server, blocked).sent|
    ensures var sent := Walk(s, url, hop, dns, server, blocked).sent;
            && |sent| <= s.maxRedirects - hop + 1
            && Resolve(sent[j].url, dns(hop + j), blocked) == Pinned(sent[j].address)
            && (if j == 0 then sent[j].url == url
                else var previous := server(hop + j - 1);
                     previous.Response? && IsRedirect(previous.code) && previous.location == Some(sent[j].url))
    decreases s.maxRedirects - hop
  {
    var walk := Walk(s, url, hop, dns, server, blocked);
    if |walk.sent| > 1 {
      var next := server(hop).location.value;
      var rest := Walk(s, next, hop + 1, dns, server, blocked).sent;
      assert rest == walk.sent[1..];
      RequestIsPinned(s, next, hop + 1, dns, server, blocked, if j == 0 then 0 else j - 1);
    }
  }

  // ----- How a walk ends -----

  predicate Redirects(reply: ServerReply) {
    reply.Response? && 300 <= reply.code <= 399
  }

  predicate Answered(d: Dto, code: int, url: Url) {
    && d.statusCode == Some(code) && d.finalUrl == Some(url) && d.error == None
    && (100 <= code <= 399 ==> d.outcome == OutcomeUp)
    && (400 <= code <= 499 ==> d.outcome == OutcomeDegraded)
    && (code < 100 || 500 <= code ==> d.outcome == OutcomeDown)
  }

  predicate Failed(d: Dto, error: ErrorDetail) {
    d == Dto(OutcomeUnreachable, None, Some(error), None)
  }

  predicate FailedInTransport(d: Dto, e: TransportError) {
    && (e.ConnectTimedOut? ==> Failed(d, ConnectTimeout))
    && (e.ReadTimedOut? ==> Failed(d, ReadTimeout))
    && (e.WriteTimedOut? ==> Failed(d, WriteTimeout))
    && (e.PoolTimedOut? ==> Failed(d, PoolTimeout))
    && (e == ConnectFailed(true) ==> Failed(d, TlsError))
    && (e == ConnectFailed(false) ==> Failed(d, ConnectError))
    && (e.TooManyRedirects? ==> Failed(d, RedirectError))
    && (e.OtherRequestError? ==> Failed(d, RequestError))
  }

  /** A target that cannot be contacted, and what is reported of it. */
  predicate NotReached(d: Dto, target: Resolution) {
    && !target.Pinned?
    && (target.Blocked? ==> Failed(d, SsrfBlocked))
    && (target.Unresolved? ==> Failed(d, DnsError))
    && (target.ResolutionTimedOut? ==> Failed(d, TotalTimeout))
  }

  /** What is reported when the reply to the request for `url`, at hop `hop`, is the last one. */
  predicate EndsWith(s: Settings, url: Url, hop: nat, dns: nat -> DnsReply, reply: ServerReply, blocked: nat -> bool, d: Dto) {
    match reply
    case SendFailed(e) => FailedInTransport(d, e)
    case SendTimedOut => Failed(d, TotalTimeout)
    case Response(code, location, chunks, end) =>
      if !Redirects(reply) then
        if Sum(chunks) > s.maxBytes then Answered(d, code, url)
        else match end
          case BodyComplete => Answered(d, code, url)
          case BodyTimedOut => Failed(d, TotalTimeout)
          case BodyFailed(e) => FailedInTransport(d, e)
      else if hop == s.maxRedirects then Failed(d, RedirectError)
      else match location
        case None => Answered(d, code, url)
        case Some(next) => if next.http then NotReached(d, Resolve(next, dns(hop + 1), blocked)) else Failed(d, SsrfBlocked)
  }

  /** The last request of a walk, taken on its own. */
  lemma {:induction false} EndsAtItsLastHop(s: Settings, url: Url, hop: nat, dns: nat -> DnsReply,
                                            server: nat -> ServerReply, blocked: nat -> bool)
    requires hop <= s.maxRedirects && Walk(s, url, hop, dns, server, blocked).sent != []
    ensures var walk := Walk(s, url, hop, dns, server, blocked);
            var last := hop + |walk.sent| - 1;
            && last <= s.maxRedirects
            && Walk(s, walk.sent[|walk.sent| - 1].url, last, dns, server, blocked)
               == Trace(walk.dto, [walk.sent[|walk.sent| - 1]])
    decreases s.maxRedirects - hop
  {
    var walk := Walk(s, url, hop, dns, server, blocked);
    assert walk.sent[0].url == url;
    if |walk.sent| > 1 {
      var next := server(hop).location.value;
      EndsAtItsLastHop(s, next, hop + 1, dns, server, blocked);
      assert walk.sent[1..] == Walk(s, next, hop + 1, dns, server, blocked).sent;
    } else {
      assert walk.sent == [walk.sent[0]];
    }
  }

  lemma OneHop(s: Settings, url: Url, hop: nat, dns: nat -> DnsReply, server: nat -> ServerReply, blocked: nat -> bool)
    requires hop <= s.maxRedirects && |Walk(s, url, hop, dns, server, blocked).sent| == 1
    ensures EndsWith(s, url, hop, dns, server(hop), blocked, Walk(s, url, hop, dns, server, blocked).dto)
  {
    hide Resolve, Sum;
  }

  /** A walk goes on as long as it may, and reports why it stopped: nothing was sent because the URL itself could not
      be contacted, or the last reply ends it. */
  lemma WalkEnds(s: Settings, url: Url, hop: nat, dns: nat -> DnsReply, server: nat -> ServerReply, blocked: nat -> bool)
    requires hop <= s.maxRedirects
    ensures var walk := Walk(s, url, hop, dns, server, blocked);
            if walk.sent == [] then NotReached(walk.dto, Resolve(url, dns(hop), blocked))
            else var last := |walk.sent| - 1;
                 EndsWith(s, walk.sent[last].url, hop + last, dns, server(hop + last), blocked, walk.dto)
  {
    var walk := Walk(s, url, hop, dns, server, blocked);
    if walk.sent != [] {
      hide Walk, EndsWith;
      var last := |walk.sent| - 1;
      EndsAtItsLastHop(s, url, hop, dns, server, blocked);
      OneHop(s, walk.sent[last].url, hop + last, dns, server, blocked);
    }
  }

  /** A redirect to an http target that can be contacted is followed, unless it is one too many. */
  lemma StopsOnlyWhenItMust(s: Settings, url: Url, hop: nat, dns: nat -> DnsReply, server: nat -> ServerReply,
                            blocked: nat -> bool)
    requires hop <= s.maxRedirects && Walk(s, url, hop, dns, server, blocked).sent != []
    ensures var n := |Walk(s, url, hop, dns, server, blocked).sent|;
            var reply := server(hop + n - 1);
            Redirects(reply) && reply.location.Some? && reply.location.value.http ==>
              hop + n == s.maxRedirects + 1 || !Resolve(reply.location.value, dns(hop + n), blocked).Pinned?
  {
    WalkEnds(s, url, hop, dns, server, blocked);
  }

  /** The client library itself never complains of redirects: it is told not to follow any. */
  ghost predicate OwnRedirects(server: nat -> ServerReply) {
    forall i ::
      && (server(i).SendFailed? ==> !server(i).error.TooManyRedirects?)
      && (server(i).Response? && server(i).end.BodyFailed? ==> !server(i).end.error.TooManyRedirects?)
  }

  /** Too many redirects are reported exactly when `maxRedirects + 1` requests were all answered by a redirect. */
  lemma TooManyRedirectsExactly(s: Settings, url: Url, dns: nat -> DnsReply, server: nat -> ServerReply, blocked: nat -> bool)
    requires OwnRedirects(server)
    ensures var walk := Walk(s, url, 0, dns, server, blocked);
            walk.dto.error == Some(RedirectError) <==>
              |walk.sent| == s.maxRedirects + 1 && forall j :: 0 <= j < |walk.sent| ==> Redirects(server(j))
  {
    var walk := Walk(s, url, 0, dns, server, blocked);
    WalkEnds(s, url, 0, dns, server, blocked);
    hide Walk, Resolve;
    forall j | 0 <= j < |walk.sent| - 1
      ensures Redirects(server(j))
    {
      RequestIsPinned(s, url, 0, dns, server, blocked, j + 1);
      assert server(0 + (j + 1) - 1) == server(j);
    }
  }

  /** A URL with a plain host name whose answer has no forbidden entry is contacted, at the first address. */
  lemma AllowedNameIsContacted(s: Settings, url: Url, dns: nat -> DnsReply, server: nat -> ServerReply, blocked: nat -> bool)
    requires Admissible(url) && url.host.Name? && dns(0).Answer? && dns(0).entries != []
    requires forall e :: e in dns(0).entries ==> !Forbidden(e, blocked)
    ensures var sent := Walk(s, url, 0, dns, server, blocked).sent;
            sent != [] && sent[0] == Request(url, dns(0).entries[0])
  {
    ResolveExactly(url, dns(0), blocked);
  }

  /** A status code in the result is the last response's own, and the final URL is the one it was sent for;
      no earlier response of the walk is ever reported. */
  lemma {:induction false} StatusIsLastResponse(s: Settings, url: Url, hop: nat, dns: nat -> DnsReply,
                                                server: nat -> ServerReply, blocked: nat -> bool)
    requires hop <= s.maxRedirects
    ensures var walk := Walk(s, url, hop, dns, server, blocked);
            walk.dto.statusCode.Some? ==>
              && walk.sent != []
              && var last := server(hop + |walk.sent| - 1);
              && last.Response? && walk.dto.statusCode == Some(last.code)
              && walk.dto.finalUrl == Some(walk.sent[|walk.sent| - 1].url)
    decreases s.maxRedirects - hop
  {
    var walk := Walk(s, url, hop, dns, server, blocked);
    if server(hop).Response? && server(hop).location.Some? && hop < s.maxRedirects {
      var next := server(hop).location.value;
      StatusIsLastResponse(s, next, hop + 1, dns, server, blocked);
    }
  }

  /** No request leaves for a forbidden address, whatever the resolver answers at any hop: a named host is
      contacted at the first address of that hop's answer, and every address of that answer was allowed. */
  lemma NoForbiddenAddress(s: Settings, url: Url, dns: nat -> DnsReply, server: nat -> ServerReply,
                           blocked: nat -> bool, j: nat)
    requires j < |Walk(s, url, 0, dns, server, blocked).sent|
    ensures var request := Walk(s, url, 0, dns, server, blocked).sent[j];
            && Allowed(request.address, blocked)
            && request.url.Url? && request.url.http
            && (request.url.host.Name? ==>
                  && dns(j).Answer? && dns(j).entries != [] && request.address == dns(j).entries[0]
                  && forall e :: e in dns(j).entries ==> Allowed(e, blocked))
  {
    RequestIsPinned(s, url, 0, dns, server, blocked, j);
    hide Walk;
    assert dns(0 + j) == dns(j);
  }
}
