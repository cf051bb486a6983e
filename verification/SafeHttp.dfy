/**
 The redirect loop of shared/safe_http.py (`request`): redirects are followed by hand, every hop is
 validated again, credentials are dropped on a cross-origin hop, and the method and body follow
 section 15.4 of RFC 9110.

 The server's answers, the URL checks (`validate`), the resolution of a Location against the current
 URL (`join`) and the caller's query parameters (`withQuery`) are parameters: the properties hold
 whatever they are.
 */
module SafeHttp {
  import opened Common

  datatype Url = Url(scheme: string, host: string, port: int, rest: string)
  datatype Origin = Origin(scheme: string, host: string, port: int)
  datatype Header = Header(name: string, value: string)
  datatype Answer = Answer(status: int, location: Option<string>)

  const REDIRECT_STATUSES: set<int> := {301, 302, 303, 307, 308}
  const CREDENTIAL_HEADERS: set<string> := {"authorization", "cookie", "proxy-authorization"}

  /** One request on the wire. */
  datatype Sent = Sent(verb: string, url: Url, headers: seq<Header>, auth: Option<string>, body: Option<string>)

  /** `BadHeaders` is the KeyError of deleting a credential header twice. */
  datatype Outcome = Response(answer: Answer) | UnsafeUrl | TooManyRedirects | BadHeaders

  function OriginOf(u: Url): Origin {
    Origin(u.scheme, Lower(u.host), u.port)
  }

  function Key(h: Header): string {
    Lower(h.name)
  }

  predicate Redirects(a: Answer) {
    a.status in REDIRECT_STATUSES && Present(a.location)
  }

  /** The hop turns the request into one without a body. */
  predicate DropsBody(status: int, verb: string) {
    status == 303 || (status in {301, 302} && verb == "POST")
  }

  /** The method of a request without its body. */
  function GetOrHead(verb: string): string {
    if verb == "HEAD" then "HEAD" else "GET"
  }

  // ----- dropping the credentials

  /** The headers whose lower-cased name is not in `names`. */
  function Without(headers: seq<Header>, names: set<string>): seq<Header> {
    if headers == [] then []
    else (if Key(headers[0]) in names then [] else [headers[0]]) + Without(headers[1..], names)
  }

  function Stripped(headers: seq<Header>): seq<Header> {
    Without(headers, CREDENTIAL_HEADERS)
  }

  /** Two headers with the same name up to case, one of `names`. */
  predicate Clash(headers: seq<Header>, names: set<string>) {
    exists i, j :: 0 <= i < j < |headers| && Key(headers[i]) in names && Key(headers[i]) == Key(headers[j])
  }

  predicate ClashBefore(headers: seq<Header>, names: set<string>, n: nat)
    requires n <= |headers|
  {
    exists i, j :: 0 <= i < j < n && Key(headers[i]) in names && Key(headers[i]) == Key(headers[j])
  }

  /** `seen` holds the names met in the first `n` headers. */
  predicate SeenOf(headers: seq<Header>, names: set<string>, n: nat, seen: set<string>)
    requires n <= |headers|
  {
    && (forall k :: 0 <= k < n && Key(headers[k]) in names ==> Key(headers[k]) in seen)
    && (forall name :: name in seen ==> name in names && exists k :: 0 <= k < n && Key(headers[k]) == name)
  }

  lemma {:induction false} WithoutMember(headers: seq<Header>, names: set<string>, h: Header)
    ensures h in Without(headers, names) <==> h in headers && Key(h) !in names
  {
    if headers != [] {
      WithoutMember(headers[1..], names, h);
    }
  }

  lemma {:induction false} WithoutTwice(headers: seq<Header>, names: set<string>, more: set<string>)
    ensures Without(Without(headers, names), more) == Without(headers, names + more)
  {
    if headers != [] {
      WithoutTwice(headers[1..], names, more);
      var rest := Without(headers[1..], names);
      if Key(headers[0]) !in names {
        assert ([headers[0]] + rest)[1..] == rest;
      } else {
        assert [] + rest == rest;
      }
    }
  }

  lemma {:induction false} WithoutAgrees(headers: seq<Header>, names: set<string>, more: set<string>)
    requires forall h :: h in headers ==> (Key(h) in names <==> Key(h) in more)
    ensures Without(headers, names) == Without(headers, more)
  {
    if headers != [] {
      WithoutAgrees(headers[1..], names, more);
    }
  }

  lemma StrippedTwice(headers: seq<Header>, names: set<string>)
    ensures !Clash(Without(headers, names), names)
    ensures Without(Without(headers, names), names) == Without(headers, names)
  {
    WithoutTwice(headers, names, names);
    assert names + names == names;
    var rest := Without(headers, names);
    forall i | 0 <= i < |rest| ensures Key(rest[i]) !in names {
      WithoutMember(headers, names, rest[i]);
    }
  }

  /** After the names in `seen` are gone, a header called like number `i` is left unless its name was seen. */
  lemma StillThere(headers: seq<Header>, seen: set<string>, i: nat)
    requires i < |headers|
    ensures (exists h :: h in Without(headers, seen) && Key(h) == Key(headers[i])) <==> Key(headers[i]) !in seen
  {
    WithoutMember(headers, seen, headers[i]);
    forall h | h in Without(headers, seen) ensures Key(h) !in seen {
      WithoutMember(headers, seen, h);
    }
  }

  lemma {:induction false} NothingDropped(headers: seq<Header>)
    ensures Without(headers, {}) == headers
  {
    if headers != [] {
      NothingDropped(headers[1..]);
    }
  }

  lemma NextHeader(headers: seq<Header>, names: set<string>, i: nat, seen: set<string>)
    requires i < |headers| && SeenOf(headers, names, i, seen) && !ClashBefore(headers, names, i)
    ensures Key(headers[i]) in names && Key(headers[i]) in seen ==> Clash(headers, names)
    ensures Key(headers[i]) !in seen ==> !ClashBefore(headers, names, i + 1)
    ensures SeenOf(headers, names, i + 1, if Key(headers[i]) in names then seen + {Key(headers[i])} else seen)
  {
    var name := Key(headers[i]);
    if name in names && name in seen {
      var k :| 0 <= k < i && Key(headers[k]) == name;
      assert Key(headers[k]) in names && Key(headers[k]) == Key(headers[i]);
    }
  }

  /** Deletes the headers called `names`, one by one, from a case-insensitive multi-dict. */
  method StripNames(headers: seq<Header>, names: set<string>) returns (r: Option<seq<Header>>)
    ensures r.None? <==> Clash(headers, names)
    ensures r.Some? ==> r.value == Without(headers, names)
  {
    var left := headers;
    ghost var seen: set<string> := {};
    NothingDropped(headers);
    for i := 0 to |headers|
      invariant left == Without(headers, seen)
      invariant SeenOf(headers, names, i, seen)
      invariant !ClashBefore(headers, names, i)
    {
      var name := Key(headers[i]);
      NextHeader(headers, names, i, seen);
      if name in names {
        StillThere(headers, seen, i);
        if forall h :: h in left ==> Key(h) != name {
          return None;
        }
        WithoutTwice(headers, seen, {name});
        left := Without(left, {name});
        seen := seen + {name};
      }
    }
    WithoutAgrees(headers, seen, names);
    return Some(left);
  }

  // ----- what the exchange looks like from outside

  /** All requests up to `k` go to the origin of the first. */
  predicate SameOriginUpTo(trace: seq<Sent>, k: nat)
    requires k < |trace|
  {
    forall j :: 0 <= j <= k ==> OriginOf(trace[j].url) == OriginOf(trace[0].url)
  }

  predicate BodyDroppedBefore(trace: seq<Sent>, history: seq<int>, k: nat)
    requires k <= |history| && k < |trace|
  {
    exists j :: 0 <= j < k && DropsBody(history[j], trace[j].verb)
  }

  /** Headers and login of request `k`, from those of the caller. */
  predicate CarriesCredentials(trace: seq<Sent>, first: Sent, k: nat)
    requires k < |trace|
  {
    && trace[k].headers == (if SameOriginUpTo(trace, k) then first.headers else Stripped(first.headers))
    && trace[k].auth == (if SameOriginUpTo(trace, k) then first.auth else None)
  }

  /** Method and body of request `k`, from those of the caller. */
  predicate CarriesBody(trace: seq<Sent>, history: seq<int>, first: Sent, k: nat)
    requires k <= |history| && k < |trace|
  {
    && trace[k].body == (if BodyDroppedBefore(trace, history, k) then None else first.body)
    && trace[k].verb ==
       (if !BodyDroppedBefore(trace, history, k) then first.verb else GetOrHead(first.verb))
  }

  /** Request `k + 1` goes where the server's answer to request `k` points, after the URL checks. */
  predicate Follows(trace: seq<Sent>, validate: string -> Option<Url>, join: (Url, string) -> string,
                    server: nat -> Answer, k: nat)
    requires k < |trace| - 1
  {
    Redirects(server(k)) && validate(join(trace[k].url, server(k).location.value)) == Some(trace[k + 1].url)
  }

  lemma SameOriginStep(trace: seq<Sent>, n: nat)
    requires 0 < n < |trace|
    ensures SameOriginUpTo(trace, n) <==>
            SameOriginUpTo(trace, n - 1) && OriginOf(trace[n].url) == OriginOf(trace[n - 1].url)
  {
    if SameOriginUpTo(trace, n - 1) {
      assert OriginOf(trace[n - 1].url) == OriginOf(trace[0].url);
    }
  }

  lemma SameOriginPrefix(trace: seq<Sent>, next: Sent, k: nat)
    requires k < |trace|
    ensures SameOriginUpTo(trace + [next], k) == SameOriginUpTo(trace, k)
  {
    var more := trace + [next];
    assert forall j :: 0 <= j <= k ==> more[j] == trace[j];
    if SameOriginUpTo(more, k) {
      forall j | 0 <= j <= k ensures OriginOf(trace[j].url) == OriginOf(trace[0].url) {
        assert OriginOf(more[j].url) == OriginOf(more[0].url);
      }
    }
  }

  lemma CredentialsExtend(trace: seq<Sent>, next: Sent, first: Sent)
    requires trace != [] && forall k :: 0 <= k < |trace| ==> CarriesCredentials(trace, first, k)
    requires var last := trace[|trace| - 1];
             if OriginOf(next.url) == OriginOf(last.url) then next.headers == last.headers && next.auth == last.auth
             else next.headers == Stripped(last.headers) && next.auth.None?
    ensures forall k :: 0 <= k <= |trace| ==> CarriesCredentials(trace + [next], first, k)
  {
    var more, n := trace + [next], |trace|;
    forall k | 0 <= k < n ensures CarriesCredentials(more, first, k) {
      assert CarriesCredentials(trace, first, k);
      SameOriginPrefix(trace, next, k);
    }
    assert CarriesCredentials(more, first, n - 1);
    SameOriginStep(more, n);
    StrippedTwice(first.headers, CREDENTIAL_HEADERS);
    assert CarriesCredentials(more, first, n);
  }

  /** What is known of the requests sent does not depend on what is sent or answered later. */
  lemma BodyPrefix(trace: seq<Sent>, history: seq<int>, more: seq<Sent>, hist: seq<int>, first: Sent, k: nat)
    requires k <= |history| && k < |trace| && trace <= more && history <= hist && CarriesBody(trace, history, first, k)
    ensures CarriesBody(more, hist, first, k)
  {
    assert forall j :: 0 <= j <= k ==> more[j] == trace[j];
    assert forall j :: 0 <= j < k ==> hist[j] == history[j];
    if BodyDroppedBefore(trace, history, k) {
      var j :| 0 <= j < k && DropsBody(history[j], trace[j].verb);
      assert DropsBody(hist[j], more[j].verb);
    }
  }

  lemma BodyExtends(trace: seq<Sent>, history: seq<int>, next: Sent, first: Sent)
    requires |history| == |trace| > 0 && forall k :: 0 <= k < |trace| ==> CarriesBody(trace, history, first, k)
    requires var last := trace[|trace| - 1];
             if DropsBody(history[|trace| - 1], last.verb) then next.body.None? && next.verb == GetOrHead(last.verb)
             else next.body == last.body && next.verb == last.verb
    ensures forall k :: 0 <= k <= |trace| ==> CarriesBody(trace + [next], history, first, k)
  {
    var more, n := trace + [next], |trace|;
    forall k | 0 <= k < n ensures CarriesBody(more, history, first, k) {
      BodyPrefix(trace, history, more, history, first, k);
    }
    assert CarriesBody(more, history, first, n - 1);
    assert BodyDroppedBefore(more, history, n) <==>
           BodyDroppedBefore(more, history, n - 1) || DropsBody(history[n - 1], more[n - 1].verb);
  }

  lemma FollowsExtends(trace: seq<Sent>, next: Sent, validate: string -> Option<Url>, join: (Url, string) -> string,
                       server: nat -> Answer)
    requires trace != [] && forall k :: 0 <= k < |trace| - 1 ==> Follows(trace, validate, join, server, k)
    requires Redirects(server(|trace| - 1))
    requires validate(join(trace[|trace| - 1].url, server(|trace| - 1).location.value)) == Some(next.url)
    ensures forall k :: 0 <= k < |trace| ==> Follows(trace + [next], validate, join, server, k)
  {
    forall k | 0 <= k < |trace| - 1 ensures Follows(trace + [next], validate, join, server, k) {
      assert Follows(trace, validate, join, server, k);
    }
  }

  /** The requests sent and the statuses received so far, as the caller's `first` request determines them. */
  predicate Exchange(trace: seq<Sent>, history: seq<int>, first: Sent, validate: string -> Option<Url>,
                     join: (Url, string) -> string, server: nat -> Answer)
  {
    && 0 <= |trace| - 1 <= |history| <= |trace| && trace[0].url == first.url
    && (forall k :: 0 <= k < |history| ==> history[k] == server(k).status)
    && (forall k :: 0 <= k < |trace| - 1 ==> Follows(trace, validate, join, server, k))
    && (forall k :: 0 <= k < |trace| ==> CarriesCredentials(trace, first, k))
    && (forall k :: 0 <= k < |trace| ==> CarriesBody(trace, history, first, k))
    && (Clash(first.headers, CREDENTIAL_HEADERS) ==> SameOriginUpTo(trace, |trace| - 1))
  }

  lemma Answered(trace: seq<Sent>, history: seq<int>, first: Sent, validate: string -> Option<Url>,
                 join: (Url, string) -> string, server: nat -> Answer)
    requires Exchange(trace, history, first, validate, join, server) && |history| == |trace| - 1
    ensures Exchange(trace, history + [server(|history|).status], first, validate, join, server)
  {
    var hist := history + [server(|history|).status];
    forall k | 0 <= k < |trace| ensures CarriesBody(trace, hist, first, k) {
      BodyPrefix(trace, history, trace, hist, first, k);
    }
  }

  /** The next request, as the loop forms it from the last one and the status of its answer. */
  predicate Hop(last: Sent, status: int, next: Sent) {
    && (if OriginOf(next.url) == OriginOf(last.url) then next.headers == last.headers && next.auth == last.auth
        else !Clash(last.headers, CREDENTIAL_HEADERS) && next.headers == Stripped(last.headers) && next.auth.None?)
    && (if DropsBody(status, last.verb) then next.body.None? && next.verb == GetOrHead(last.verb)
        else next.body == last.body && next.verb == last.verb)
  }

  lemma Hopped(trace: seq<Sent>, history: seq<int>, next: Sent, first: Sent, validate: string -> Option<Url>,
               join: (Url, string) -> string, server: nat -> Answer)
    requires Exchange(trace, history, first, validate, join, server) && |history| == |trace|
    requires var n := |trace| - 1;
             && Redirects(server(n)) && validate(join(trace[n].url, server(n).location.value)) == Some(next.url)
             && Hop(trace[n], history[n], next)
    ensures Exchange(trace + [next], history, first, validate, join, server)
  {
    CredentialsExtend(trace, next, first);
    BodyExtends(trace, history, next, first);
    FollowsExtends(trace, next, validate, join, server);
    SameOriginPrefix(trace, next, |trace| - 1);
    SameOriginStep(trace + [next], |trace|);
    assert CarriesCredentials(trace, first, |trace| - 1);
  }

  /** The loop strips either the caller's headers or what is left of them. */
  lemma StripsCallersHeaders(trace: seq<Sent>, first: Sent, n: nat)
    requires n < |trace| && CarriesCredentials(trace, first, n) && Clash(trace[n].headers, CREDENTIAL_HEADERS)
    ensures Clash(first.headers, CREDENTIAL_HEADERS)
  {
    StrippedTwice(first.headers, CREDENTIAL_HEADERS);
  }

  /** The redirect loop. `server(n)` answers the n-th request. */
  method Request(verb0: string, url: string, headers: seq<Header>, auth0: Option<string>, body0: Option<string>,
                 maxRedirects: int, validate: string -> Option<Url>, withQuery: string -> string,
                 join: (Url, string) -> string, server: nat -> Answer)
      returns (outcome: Outcome, history: seq<int>, trace: seq<Sent>)
    ensures validate(url).None? ==> outcome == UnsafeUrl && trace == []
    ensures validate(url).Some? ==>
              var u := validate(url).value; trace != [] && trace[0].url == u.(rest := withQuery(u.rest))
    ensures |trace| <= 1 + (if maxRedirects > 0 then maxRedirects else 0)
    ensures trace != [] ==>
              Exchange(trace, history, Sent(Upper(verb0), trace[0].url, headers, auth0, body0), validate, join, server)
    ensures trace != [] ==>
              var n := |trace| - 1;
              match outcome
              case Response(answer) => !Redirects(server(n)) && answer == server(n) && |history| == n
              case TooManyRedirects => Redirects(server(n)) && n >= maxRedirects && |history| == n + 1
              case UnsafeUrl => Redirects(server(n)) && n < maxRedirects && |history| == n + 1 &&
                                validate(join(trace[n].url, server(n).location.value)).None?
              case BadHeaders => Redirects(server(n)) && n < maxRedirects && |history| == n + 1 &&
                                 Clash(headers, CREDENTIAL_HEADERS) && SameOriginUpTo(trace, n)
  {
    var verb, auth, body := Upper(verb0), auth0, body0;
    history, trace := [], [];
    var start := validate(url);
    if start.None? {
      return UnsafeUrl, history, trace;
    }
    var current, reqHeaders := start.value.(rest := withQuery(start.value.rest)), headers;
    ghost var first := Sent(verb, current, headers, auth0, body0);
    trace := [Sent(verb, current, reqHeaders, auth, body)];
    while true
      invariant |history| == |trace| - 1 <= if maxRedirects > 0 then maxRedirects else 0
      invariant trace[|history|] == Sent(verb, current, reqHeaders, auth, body)
      invariant trace[0].url == first.url && Exchange(trace, history, first, validate, join, server)
      decreases maxRedirects - |history|
    {
      var resp := server(|history|);
      if !Redirects(resp) {
        return Response(resp), history, trace;
      }
      var status := resp.status;
      Answered(trace, history, first, validate, join, server);
      history := history + [status];
      if |history| > maxRedirects {
        return TooManyRedirects, history, trace;
      }
      var nxt := validate(join(current, resp.location.value));
      if nxt.None? {
        return UnsafeUrl, history, trace;
      }
      if OriginOf(nxt.value) != OriginOf(current) {
        var left := StripNames(reqHeaders, CREDENTIAL_HEADERS);
        if left.None? {
          StripsCallersHeaders(trace, first, |trace| - 1);
          return BadHeaders, history, trace;
        }
        reqHeaders, auth := left.value, None;
      }
      if DropsBody(status, verb) {
        if verb != "HEAD" {
          verb := "GET";
        }
        body := None;
      }
      current := nxt.value;
      Hopped(trace, history, Sent(verb, current, reqHeaders, auth, body), first, validate, join, server);
      trace := trace + [Sent(verb, current, reqHeaders, auth, body)];
    }
  }

  // ----- consequences of a whole exchange

  /**
   Once a hop has dropped the body, every later request has none and is a GET or a HEAD; and a request
   carries the caller's login only if every URL up to it has the first origin.
   */
  lemma SafeExchange(trace: seq<Sent>, history: seq<int>, first: Sent, validate: string -> Option<Url>,
                     join: (Url, string) -> string, server: nat -> Answer, j: nat, k: nat)
    requires Exchange(trace, history, first, validate, join, server) && j < k < |trace|
    ensures DropsBody(history[j], trace[j].verb) ==> trace[k].body.None? && trace[k].verb in {"GET", "HEAD"}
    ensures trace[k].auth.Some? || (exists h :: h in trace[k].headers && Key(h) in CREDENTIAL_HEADERS) ==>
              SameOriginUpTo(trace, k)
    ensures OriginOf(trace[j].url) != OriginOf(trace[0].url) ==>
              trace[k].auth.None? && trace[k].headers == Stripped(first.headers)
    ensures exists s :: validate(s) == Some(trace[k].url)
  {
    assert CarriesBody(trace, history, first, k) && CarriesCredentials(trace, first, k);
    assert Follows(trace, validate, join, server, k - 1);
    forall h | h in trace[k].headers && Key(h) in CREDENTIAL_HEADERS ensures SameOriginUpTo(trace, k) {
      WithoutMember(first.headers, CREDENTIAL_HEADERS, h);
    }
  }
}
