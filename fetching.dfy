/** The adapter's two ways of building its snapshot: one `get_parameter`
    call per declared variable (flat mode), or a paginated
    `get_parameters_by_path` listing under the root path (tree mode), with
    the error classification both share. */
module Fetching {
  import opened Wrappers
  import opened Values
  import opened Matching

  /** The exception classes of the SSM client the adapter distinguishes;
      any other class is `OtherException`. Messages are not modelled. */
  datatype AwsError =
    | AccessDeniedException
    | UnrecognizedClientException
    | ParameterNotFound
    | OtherException(className: string)

  /** What leaves a fetch: `Knowledge::SsmError` wrapping the client's
      error, or the client's error propagating unchanged. */
  datatype Failure = SsmError(cause: AwsError) | Unhandled(cause: AwsError)

  /** The reply to `get_parameter(name:, with_decryption: true)`. */
  datatype ParamReply = Found(parameter: Parameter) | Raised(error: AwsError)

  /** The reply to `get_parameters_by_path(next_token:, path:, ...)`. */
  datatype PageReply =
    | Page(parameters: seq<Parameter>, nextToken: Option<string>)
    | Refused(error: AwsError)

  /** The SSM client, as the two calls the adapter makes on it. The whole
      declared value of a variable is what `get_parameter` receives. */
  datatype Client = Client(
    getParameter: Declared -> ParamReply,
    getParametersByPath: (string, Option<string>) -> PageReply)

  /** The `rescue` of both fetches: access-denied and unrecognized-client
      errors become `SsmError`; every other error passes through. */
  function Rescue(e: AwsError): (f: Failure)
    ensures f.cause == e
    ensures f.SsmError? <==> e.AccessDeniedException? || e.UnrecognizedClientException?
  {
    match e
    case AccessDeniedException => SsmError(e)
    case UnrecognizedClientException => SsmError(e)
    case _ => Unhandled(e)
  }

  /** `fetch_parameter`: the parameter, `nil` for a swallowed not-found, or
      the classified error. */
  function FetchParameter(client: Client, raiseNotFound: bool, path: Declared): (r: Result<Option<Parameter>, Failure>)
    ensures client.getParameter(path).Found? ==> r == Success(Some(client.getParameter(path).parameter))
    ensures client.getParameter(path).Raised? ==> r.Success? ==> r.value.None?
    // only a found parameter, or a not-found with raise_not_found off, succeeds
    ensures r.Success? <==> client.getParameter(path).Found?
                            || (client.getParameter(path) == Raised(ParameterNotFound) && !raiseNotFound)
    // a not-found is swallowed exactly when raise_not_found is off
    ensures client.getParameter(path) == Raised(ParameterNotFound) ==>
              (r.Success? <==> !raiseNotFound)
    ensures r.Failure? ==> client.getParameter(path).Raised? && r.error.cause == client.getParameter(path).error
    ensures r.Failure? ==> (r.error.SsmError? <==>
              r.error.cause.AccessDeniedException? || r.error.cause.UnrecognizedClientException?
              || (r.error.cause.ParameterNotFound? && raiseNotFound))
  {
    match client.getParameter(path)
    case Found(p) => Success(Some(p))
    case Raised(e) =>
      if e.AccessDeniedException? || e.UnrecognizedClientException? then Failure(SsmError(e))
      else if e.ParameterNotFound? then
        if raiseNotFound then Failure(SsmError(e)) else Success(None)
      else Failure(Unhandled(e))
  }

  /** `variables.map { |_name, path| fetch_parameter(path: path) }`: the
      calls run in declaration order and the first error aborts. */
  function FetchEach(client: Client, raiseNotFound: bool, variables: seq<(string, Declared)>)
    : (r: Result<seq<Option<Parameter>>, Failure>)
    ensures r.Success? <==> forall i :: 0 <= i < |variables| ==> FetchParameter(client, raiseNotFound, variables[i].1).Success?
    ensures r.Success? ==>
              |r.value| == |variables| &&
              forall i :: 0 <= i < |variables| ==> r.value[i] == FetchParameter(client, raiseNotFound, variables[i].1).value
    // the first failing call decides the error
    ensures r.Failure? ==>
              exists i :: 0 <= i < |variables| &&
                FetchParameter(client, raiseNotFound, variables[i].1) == Failure(r.error) &&
                forall j :: 0 <= j < i ==> FetchParameter(client, raiseNotFound, variables[j].1).Success?
  {
    if |variables| == 0 then Success([])
    else
      match FetchParameter(client, raiseNotFound, variables[0].1)
      case Failure(e) => Failure(e)
      case Success(first) =>
        match FetchEach(client, raiseNotFound, variables[1..])
        case Failure(e) =>
          assert exists i :: 0 <= i < |variables| && FetchParameter(client, raiseNotFound, variables[i].1) == Failure(e)
                             && forall j :: 0 <= j < i ==> FetchParameter(client, raiseNotFound, variables[j].1).Success? by {
            var k :| 0 <= k < |variables[1..]| && FetchParameter(client, raiseNotFound, variables[1..][k].1) == Failure(e)
                     && forall j :: 0 <= j < k ==> FetchParameter(client, raiseNotFound, variables[1..][j].1).Success?;
            assert variables[k + 1] == variables[1..][k];
            forall j | 0 <= j < k + 1 ensures FetchParameter(client, raiseNotFound, variables[j].1).Success? {
              if j > 0 { assert variables[j] == variables[1..][j - 1]; }
            }
          }
          Failure(e)
        case Success(rest) =>
          assert forall i :: 1 <= i < |variables| ==> variables[i] == variables[1..][i - 1];
          Success([first] + rest)
  }

  /** `compact`: the found parameters, in order, with every `nil` dropped. */
  function Compact(xs: seq<Option<Parameter>>): (r: seq<Parameter>)
    ensures |r| <= |xs|
    ensures forall p :: p in r <==> Some(p) in xs
    ensures (forall i :: 0 <= i < |xs| ==> xs[i].Some?) ==>
              |r| == |xs| && forall i :: 0 <= i < |xs| ==> r[i] == xs[i].value
    ensures xs == [None] ==> r == []
    ensures |xs| == 1 && xs[0].Some? ==> r == [xs[0].value]
  {
    if |xs| == 0 then []
    else
      var rest := Compact(xs[1..]);
      assert forall p :: Some(p) in xs <==> Some(p) == xs[0] || Some(p) in xs[1..];
      assert forall i :: 1 <= i < |xs| ==> xs[i] == xs[1..][i - 1];
      match xs[0]
      case Some(p) => [p] + rest
      case None => rest
  }

  /** `compact` keeps order across a split: together with its results on
      one-element inputs this determines it. */
  lemma {:induction false} CompactAppend(xs: seq<Option<Parameter>>, ys: seq<Option<Parameter>>)
    ensures Compact(xs + ys) == Compact(xs) + Compact(ys)
  {
    if |xs| == 0 {
      assert xs + ys == ys;
    } else {
      assert (xs + ys)[1..] == xs[1..] + ys;
      CompactAppend(xs[1..], ys);
      assert (xs + ys)[0] == xs[0];
    }
  }

  /** `fetch_parameters`: the flat snapshot. */
  function FetchParameters(client: Client, raiseNotFound: bool, variables: seq<(string, Declared)>)
    : (r: Result<seq<Parameter>, Failure>)
    ensures r.Success? <==> forall i :: 0 <= i < |variables| ==> FetchParameter(client, raiseNotFound, variables[i].1).Success?
    ensures r.Success? ==> |r.value| <= |variables|
    // every parameter of the snapshot was found by the call for some variable
    ensures r.Success? ==> forall p :: p in r.value ==>
              exists i :: 0 <= i < |variables| && client.getParameter(variables[i].1) == Found(p)
    ensures r.Failure? ==> FetchEach(client, raiseNotFound, variables) == Failure(r.error)
  {
    assert FetchEach(client, raiseNotFound, variables).Success? ==>
             forall p :: p in Compact(FetchEach(client, raiseNotFound, variables).value) ==>
               exists i :: 0 <= i < |variables| && client.getParameter(variables[i].1) == Found(p) by {
      if FetchEach(client, raiseNotFound, variables).Success? {
        var found := FetchEach(client, raiseNotFound, variables).value;
        forall p | p in Compact(found)
          ensures exists i :: 0 <= i < |variables| && client.getParameter(variables[i].1) == Found(p) {
          var i :| 0 <= i < |found| && found[i] == Some(p);
          assert client.getParameter(variables[i].1) == Found(p);
        }
      }
    }
    match FetchEach(client, raiseNotFound, variables)
    case Success(found) => Success(Compact(found))
    case Failure(e) => Failure(e)
  }

  lemma {:induction false} FetchEachSnoc(client: Client, raiseNotFound: bool,
                                         variables: seq<(string, Declared)>, v: (string, Declared))
    ensures FetchEach(client, raiseNotFound, variables + [v]) ==
              match FetchEach(client, raiseNotFound, variables)
              case Failure(e) => Failure(e)
              case Success(xs) =>
                match FetchParameter(client, raiseNotFound, v.1)
                case Failure(e) => Failure(e)
                case Success(x) => Success(xs + [x])
  {
    if |variables| == 0 {
      assert variables + [v] == [v];
      assert [v][1..] == [];
      assert FetchEach(client, raiseNotFound, []) == Success([]);
      match FetchParameter(client, raiseNotFound, v.1)
      case Failure(e) =>
      case Success(x) =>
        assert [x] + [] == [] + [x];
    } else {
      assert (variables + [v])[0] == variables[0];
      assert (variables + [v])[1..] == variables[1..] + [v];
      FetchEachSnoc(client, raiseNotFound, variables[1..], v);
      match FetchParameter(client, raiseNotFound, variables[0].1)
      case Failure(e) =>
      case Success(first) =>
        match FetchEach(client, raiseNotFound, variables[1..])
        case Failure(e) =>
        case Success(rest) =>
          match FetchParameter(client, raiseNotFound, v.1)
          case Failure(e) =>
          case Success(x) =>
            assert [first] + (rest + [x]) == [first] + rest + [x];
    }
  }

  /** The flat snapshot grows one declared variable at a time, in
      declaration order: the snapshot for `variables + [v]` is the one for
      `variables`, followed by `v`'s parameter when it was found, unless a
      call failed. */
  lemma FlatFetchSnoc(client: Client, raiseNotFound: bool, variables: seq<(string, Declared)>, v: (string, Declared))
    ensures FetchParameters(client, raiseNotFound, variables + [v]) ==
              match FetchParameters(client, raiseNotFound, variables)
              case Failure(e) => Failure(e)
              case Success(before) =>
                match FetchParameter(client, raiseNotFound, v.1)
                case Failure(e) => Failure(e)
                case Success(found) => Success(before + (if found.Some? then [found.value] else []))
  {
    FetchEachSnoc(client, raiseNotFound, variables, v);
    match FetchEach(client, raiseNotFound, variables)
    case Failure(e) =>
    case Success(xs) =>
      match FetchParameter(client, raiseNotFound, v.1)
      case Failure(e) =>
      case Success(x) =>
        CompactAppend(xs, [x]);
  }

  /** With `raise_not_found` off, parameters that are missing are left out of
      the flat snapshot instead of failing it: the snapshot holds exactly
      the parameters the client found. */
  lemma FlatFetchOmitsMissing(client: Client, variables: seq<(string, Declared)>)
    requires forall i :: 0 <= i < |variables| ==>
               client.getParameter(variables[i].1).Found? || client.getParameter(variables[i].1) == Raised(ParameterNotFound)
    ensures FetchParameters(client, false, variables).Success?
    ensures forall p :: p in FetchParameters(client, false, variables).value <==>
              exists i :: 0 <= i < |variables| && client.getParameter(variables[i].1) == Found(p)
  {
    var found := FetchEach(client, false, variables);
    assert found.Success?;
    forall p ensures p in Compact(found.value) <==>
                     exists i :: 0 <= i < |variables| && client.getParameter(variables[i].1) == Found(p) {
      if p in Compact(found.value) {
        var i :| 0 <= i < |found.value| && found.value[i] == Some(p);
        assert client.getParameter(variables[i].1) == Found(p);
      }
      if exists i :: 0 <= i < |variables| && client.getParameter(variables[i].1) == Found(p) {
        var i :| 0 <= i < |variables| && client.getParameter(variables[i].1) == Found(p);
        assert found.value[i] == Some(p);
      }
    }
  }

  /** With `raise_not_found` on, a missing parameter whose predecessors were
      all found fails the flat fetch with an `SsmError`. */
  lemma FlatFetchRaisesMissing(client: Client, variables: seq<(string, Declared)>, k: nat)
    requires k < |variables|
    requires client.getParameter(variables[k].1) == Raised(ParameterNotFound)
    requires forall j :: 0 <= j < k ==> client.getParameter(variables[j].1).Found?
    ensures FetchParameters(client, true, variables) == Failure(SsmError(ParameterNotFound))
  {
    var r := FetchEach(client, true, variables);
    assert !FetchParameter(client, true, variables[k].1).Success?;
    var i :| 0 <= i < |variables| && FetchParameter(client, true, variables[i].1) == Failure(r.error)
             && forall j :: 0 <= j < i ==> FetchParameter(client, true, variables[j].1).Success?;
    assert i == k;
  }

  /** The outcome of a paginated listing, with the continuation token each
      request carried, in order. */
  datatype Listing = Listing(outcome: Result<seq<Parameter>, Failure>, requests: seq<Option<string>>)

  /** Puts pages already fetched, and the requests that fetched them, in
      front of the rest of a listing; an error discards the pages. */
  function Prefix(pages: seq<Parameter>, requests: seq<Option<string>>, rest: Option<Listing>): (r: Option<Listing>) {
    match rest
    case None => None
    case Some(Listing(outcome, more)) =>
      Some(Listing(if outcome.Success? then Success(pages + outcome.value) else outcome, requests + more))
  }

  /** The listing that starts with a request carrying `token`: each page
      whose token is not nil is followed by a request carrying that token.
      `None` when the store has not ended the listing within `fuel`
      requests. */
  ghost function Walk(getPage: (string, Option<string>) -> PageReply, rootPath: string, token: Option<string>, fuel: nat)
    : (r: Option<Listing>)
    // a listing that ends takes at least one and at most `fuel` requests, the first carrying `token`
    ensures r.Some? ==> 1 <= |r.value.requests| <= fuel && r.value.requests[0] == token
    decreases fuel
  {
    if fuel == 0 then None
    else
      match getPage(rootPath, token)
      case Refused(e) => Some(Listing(Failure(Rescue(e)), [token]))
      case Page(page, next) =>
        if next.None? then Some(Listing(Success(page), [token]))
        else Prefix(page, [token], Walk(getPage, rootPath, next, fuel - 1))
  }

  /** The pages the requests returned, concatenated in order. */
  function Gathered(getPage: (string, Option<string>) -> PageReply, rootPath: string, requests: seq<Option<string>>)
    : (r: seq<Parameter>)
  {
    if |requests| == 0 then []
    else
      var reply := getPage(rootPath, requests[0]);
      (if reply.Page? then reply.parameters else []) + Gathered(getPage, rootPath, requests[1..])
  }

  lemma PrefixNothing(rest: Option<Listing>)
    ensures Prefix([], [], rest) == rest
  {
    match rest
    case None =>
    case Some(Listing(outcome, more)) =>
      assert [] + more == more;
      if outcome.Success? {
        assert [] + outcome.value == outcome.value;
      }
  }

  lemma PrefixTwice(a: seq<Parameter>, ra: seq<Option<string>>, b: seq<Parameter>, rb: seq<Option<string>>, rest: Option<Listing>)
    ensures Prefix(a, ra, Prefix(b, rb, rest)) == Prefix(a + b, ra + rb, rest)
  {
    match rest
    case None =>
    case Some(Listing(outcome, more)) =>
      assert ra + (rb + more) == ra + rb + more;
      if outcome.Success? {
        assert a + (b + outcome.value) == a + b + outcome.value;
      }
  }

  /** The request protocol of `fetch_recursive_parameters`: the first
      request carries the starting token, every later one carries the
      token of the page before it, the listing goes on exactly while that
      token is not nil (an empty string goes on), the result is all pages
      in order, one page per request, and an error is classified by
      `Rescue`. */
  lemma {:induction false} WalkProtocol(getPage: (string, Option<string>) -> PageReply, rootPath: string,
                                        token: Option<string>, fuel: nat, listing: Listing)
    requires Walk(getPage, rootPath, token, fuel) == Some(listing)
    ensures 1 <= |listing.requests| <= fuel
    ensures listing.requests[0] == token
    ensures forall i :: 0 <= i < |listing.requests| - 1 ==>
              getPage(rootPath, listing.requests[i]).Page? &&
              getPage(rootPath, listing.requests[i]).nextToken.Some? &&
              getPage(rootPath, listing.requests[i]).nextToken == listing.requests[i + 1]
    ensures var last := getPage(rootPath, listing.requests[|listing.requests| - 1]);
            match listing.outcome
            case Success(parameters) =>
              last.Page? && last.nextToken.None? && parameters == Gathered(getPage, rootPath, listing.requests)
            case Failure(f) =>
              last.Refused? && f == Rescue(last.error)
    decreases fuel
  {
    match getPage(rootPath, token)
    case Refused(e) =>
    case Page(page, next) =>
      if next.Some? {
        var tail :| Walk(getPage, rootPath, next, fuel - 1) == Some(tail);
        WalkProtocol(getPage, rootPath, next, fuel - 1, tail);
        assert listing.requests == [token] + tail.requests;
        assert forall i :: 1 <= i < |listing.requests| ==> listing.requests[i] == tail.requests[i - 1];
        assert listing.requests[1..] == tail.requests;
      } else {
        assert Gathered(getPage, rootPath, listing.requests[1..]) == [];
        assert page + [] == page;
      }
  }

  /** More fuel does not change a listing that has ended: the bound only
      rules out stores that never end it. */
  lemma {:induction false} WalkFuelMonotone(getPage: (string, Option<string>) -> PageReply, rootPath: string,
                                            token: Option<string>, fuel: nat, more: nat)
    requires Walk(getPage, rootPath, token, fuel).Some?
    requires fuel <= more
    ensures Walk(getPage, rootPath, token, more) == Walk(getPage, rootPath, token, fuel)
    decreases fuel
  {
    match getPage(rootPath, token)
    case Refused(e) =>
    case Page(page, next) =>
      if next.Some? {
        WalkFuelMonotone(getPage, rootPath, next, fuel - 1, more - 1);
      }
  }

  /** The state of the `while` loop: what a listing still to be continued
      from `token` amounts to, given what was fetched so far. */
  ghost function Resume(getPage: (string, Option<string>) -> PageReply, rootPath: string,
                        parameters: seq<Parameter>, requests: seq<Option<string>>,
                        token: Option<string>, done: bool, fuel: nat): (r: Option<Listing>)
  {
    if done then Some(Listing(Success(parameters), requests))
    else Prefix(parameters, requests, Walk(getPage, rootPath, token, fuel))
  }

  /** `fetch_recursive_parameters`: requests pages with the continuation
      token until a page returns a nil token, accumulating them; the
      returned `requests` are the tokens sent, in order. `bound` is any
      number of requests within which the store ends the listing. */
  method FetchRecursiveParameters(client: Client, rootPath: string, ghost bound: nat)
    returns (r: Result<seq<Parameter>, Failure>, requests: seq<Option<string>>)
    requires Walk(client.getParametersByPath, rootPath, None, bound).Some?
    ensures Walk(client.getParametersByPath, rootPath, None, bound) == Some(Listing(r, requests))
  {
    ghost var getPage := client.getParametersByPath;
    var parameters: seq<Parameter> := [];
    var nextToken: Option<string> := None;
    var firstPage := true;
    requests := [];
    PrefixNothing(Walk(getPage, rootPath, None, bound));
    while nextToken.Some? || firstPage
      invariant |requests| <= bound
      invariant firstPage ==> parameters == [] && requests == [] && nextToken.None?
      invariant Walk(getPage, rootPath, None, bound)
                == Resume(getPage, rootPath, parameters, requests, nextToken, !firstPage && nextToken.None?, bound - |requests|)
      decreases bound - |requests|
    {
      ghost var fuel := bound - |requests|;
      firstPage := false;
      var result := client.getParametersByPath(rootPath, nextToken);
      requests := requests + [nextToken];
      match result
      case Refused(e) =>
        r := Failure(Rescue(e));
        return;
      case Page(page, next) =>
        if next.Some? {
          PrefixTwice(parameters, requests[..|requests| - 1], page, [nextToken], Walk(getPage, rootPath, next, fuel - 1));
          assert requests[..|requests| - 1] + [nextToken] == requests;
        }
        parameters := parameters + page;
        nextToken := next;
    }
    r := Success(parameters);
  }

  /** Line 59 of the adapter: the tree listing when a root path is set (an
      empty one included), the flat fetch otherwise. */
  method FetchSnapshot(client: Client, raiseNotFound: bool, rootPath: Option<string>,
                       variables: seq<(string, Declared)>, ghost bound: nat)
    returns (r: Result<seq<Parameter>, Failure>)
    requires rootPath.Some? ==> Walk(client.getParametersByPath, rootPath.value, None, bound).Some?
    ensures rootPath.Some? ==> r == Walk(client.getParametersByPath, rootPath.value, None, bound).value.outcome
    ensures rootPath.None? ==> r == FetchParameters(client, raiseNotFound, variables)
  {
    if rootPath.Some? {
      var requests;
      r, requests := FetchRecursiveParameters(client, rootPath.value, bound);
    } else {
      r := FetchParameters(client, raiseNotFound, variables);
    }
  }

  /** A store whose first page has a nil token is asked once. */
  lemma SinglePageListing(getPage: (string, Option<string>) -> PageReply, rootPath: string, page: seq<Parameter>)
    requires getPage(rootPath, None) == Page(page, None)
    ensures Walk(getPage, rootPath, None, 1) == Some(Listing(Success(page), [None]))
  {
  }

  /** An empty-string token is not nil: it is sent back for a second page. */
  lemma EmptyTokenContinues(getPage: (string, Option<string>) -> PageReply, rootPath: string, a: Parameter, b: Parameter)
    requires getPage(rootPath, None) == Page([a], Some(""))
    requires getPage(rootPath, Some("")) == Page([b], None)
    ensures Walk(getPage, rootPath, None, 2) == Some(Listing(Success([a, b]), [None, Some("")]))
  {
    assert Walk(getPage, rootPath, Some(""), 1) == Some(Listing(Success([b]), [Some("")]));
    assert Walk(getPage, rootPath, None, 2) == Prefix([a], [None], Walk(getPage, rootPath, Some(""), 1));
    assert [a] + [b] == [a, b] && [None] + [Some("")] == [None, Some("")];
  }

  /** Access denied on a later page becomes `SsmError`, and the pages
      fetched before it are discarded. */
  lemma DeniedListingFails(getPage: (string, Option<string>) -> PageReply, rootPath: string, a: Parameter, t: string)
    requires getPage(rootPath, None) == Page([a], Some(t))
    requires getPage(rootPath, Some(t)) == Refused(AccessDeniedException)
    ensures Walk(getPage, rootPath, None, 2) == Some(Listing(Failure(SsmError(AccessDeniedException)), [None, Some(t)]))
  {
    assert Walk(getPage, rootPath, Some(t), 1) == Some(Listing(Failure(SsmError(AccessDeniedException)), [Some(t)]));
    assert Walk(getPage, rootPath, None, 2) == Prefix([a], [None], Walk(getPage, rootPath, Some(t), 1));
    assert [None] + [Some(t)] == [None, Some(t)];
  }
}
