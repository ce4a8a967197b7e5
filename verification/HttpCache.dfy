/**
 * contrib/sources/http/http.go: the conditional cache against an uncached source, for a
 * server that keeps the contract of sections 13.1.2, 13.1.3 and 15.4.5 of RFC 9110.
 */
module HttpCache {
  import opened Basics
  import opened Trees

  type Body = string

  /** The validators a request can carry; empty ones are not sent. */
  datatype Validators = Validators(etag: string, modified: string)

  const NO_VALIDATORS := Validators("", "")

  /** A representation the server has sent with status 200. */
  datatype Issue = Issue(validators: Validators, body: Body)

  /** What comes back: no response, or a status with headers and, if it can be read, a body. */
  datatype Response = NoResponse | Response(status: nat, validators: Validators, body: Option<Body>)

  datatype ReadError = NotFound | RequestFailed | UnexpectedStatus | NothingCached | BadDocument

  /** The server's side: what it serves now, and all it has ever sent with status 200. */
  datatype Server = Server(current: Option<Body>, issued: set<Issue>)

  /**
   * A 200 carries the current body and is remembered; a 404 means there is none; a 304 comes
   * only for a conditional request whose validators stand for the current body alone.
   */
  ghost predicate Honest(server: Server, sent: Validators, r: Response) {
    match r
    case NoResponse => true
    case Response(status, validators, body) =>
      if status == 200 then
        body.Some? ==> server.current == body && Issue(validators, body.value) in server.issued
      else if status == 404 then server.current.None?
      else if status == 304 then
        sent != NO_VALIDATORS && server.current.Some? &&
        forall issue | issue in server.issued && issue.validators == sent :: issue.body == server.current.value
      else true
  }

  /** What a source without a cache reads from the server's current body. */
  function Uncached(decode: Body -> Option<Fields>, current: Option<Body>): Result<Fields, ReadError> {
    match current
    case None => Err(NotFound)
    case Some(body) => match decode(body) case Some(v) => Ok(v) case None => Err(BadDocument)
  }

  /** What a source keeps between reads. */
  datatype Cache = Cache(body: Option<Body>, validators: Validators)

  const EMPTY := Cache(None, NO_VALIDATORS)

  /** The conditional headers of the next request. */
  function Sent(cache: Cache): Validators {
    if cache.body.Some? then cache.validators else NO_VALIDATORS
  }

  /** The cache holds one successfully decoded response: its body with its own validators. */
  ghost predicate Sound(decode: Body -> Option<Fields>, cache: Cache, issued: set<Issue>) {
    cache.body.Some? ==> decode(cache.body.value).Some? && Issue(cache.validators, cache.body.value) in issued
  }

  class Source {
    const decode: Body -> Option<Fields>
    var cached: Option<Body>
    var etag: string
    var modified: string

    function State(): Cache
      reads this
    {
      Cache(cached, Validators(etag, modified))
    }

    constructor (decode: Body -> Option<Fields>)
      ensures this.decode == decode && State() == EMPTY
    {
      this.decode, cached, etag, modified := decode, None, "", "";
    }

    /** Read under the gate; the response is the server's answer to this source's request. */
    method Read(r: Response) returns (result: Result<Fields, ReadError>)
      modifies this
      ensures result == Answer(decode, old(State()), r)
      ensures State() == After(decode, old(State()), r)
    {
      if r.NoResponse? { return Err(RequestFailed); }
      if r.status == 304 {
        if cached.None? { return Err(NothingCached); }
        var again := decode(cached.value);
        return if again.Some? then Ok(again.value) else Err(BadDocument);
      }
      if r.status == 404 {
        cached, etag, modified := None, "", "";
        return Err(NotFound);
      }
      if r.status != 200 { return Err(UnexpectedStatus); }
      if r.body.None? { return Err(RequestFailed); }
      var values := decode(r.body.value);
      if values.None? { return Err(BadDocument); }
      cached, etag, modified := r.body, r.validators.etag, r.validators.modified;
      result := Ok(values.value);
    }
  }

  /** A read's result, as a function of the cache and the response. */
  function Answer(decode: Body -> Option<Fields>, cache: Cache, r: Response): Result<Fields, ReadError> {
    match r
    case NoResponse => Err(RequestFailed)
    case Response(304, _, _) => if cache.body.Some? then Decoded(decode, cache.body.value) else Err(NothingCached)
    case Response(404, _, _) => Err(NotFound)
    case Response(200, _, Some(body)) => Decoded(decode, body)
    case Response(200, _, None) => Err(RequestFailed)
    case _ => Err(UnexpectedStatus)
  }

  function Decoded(decode: Body -> Option<Fields>, body: Body): Result<Fields, ReadError> {
    match decode(body) case Some(v) => Ok(v) case None => Err(BadDocument)
  }

  /** The cache after a read: replaced by a decoded 200, cleared by a 404, otherwise kept. */
  function After(decode: Body -> Option<Fields>, cache: Cache, r: Response): Cache {
    if r.Response? && r.status == 404 then EMPTY
    else if r.Response? && r.status == 200 && r.body.Some? && decode(r.body.value).Some? then Cache(r.body, r.validators)
    else cache
  }

  /** Statuses that say what the server holds; any other answer is a failed read. */
  predicate Conclusive(r: Response) {
    r.Response? && (r.status == 304 || r.status == 404 || (r.status == 200 && r.body.Some?))
  }

  /** One exchange with the server, as the server stood when it answered. */
  datatype Exchange = Exchange(server: Server, response: Response)

  /** The cache before each read of a run, and after the last. */
  function CacheAt(decode: Body -> Option<Fields>, run: seq<Exchange>, n: nat): Cache
    requires n <= |run|
  {
    if n == 0 then EMPTY else After(decode, CacheAt(decode, run, n - 1), run[n - 1].response)
  }

  /** Every answer is honest about what this cache sent, and the server forgets no issue. */
  ghost predicate HonestRun(decode: Body -> Option<Fields>, run: seq<Exchange>) {
    (forall i | 0 <= i < |run| :: Honest(run[i].server, Sent(CacheAt(decode, run, i)), run[i].response)) &&
    (forall i | 0 < i < |run| :: run[i - 1].server.issued <= run[i].server.issued)
  }

  lemma {:induction false} CacheStaysSound(decode: Body -> Option<Fields>, run: seq<Exchange>, n: nat)
    requires HonestRun(decode, run) && n <= |run|
    ensures Sound(decode, CacheAt(decode, run, n), if n == 0 then {} else run[n - 1].server.issued)
  {
    if n > 0 {
      CacheStaysSound(decode, run, n - 1);
      assert Honest(run[n - 1].server, Sent(CacheAt(decode, run, n - 1)), run[n - 1].response);
      assert n > 1 ==> run[n - 2].server.issued <= run[n - 1].server.issued;
    }
  }

  /**
   * Over any honest run, through malformed bodies, failures, clears and missing validators,
   * a conclusive answer reads exactly what an uncached source reads from the body current at
   * that moment, and every success comes from a conclusive answer.
   */
  lemma CacheRefinesUncached(decode: Body -> Option<Fields>, run: seq<Exchange>, n: nat)
    requires HonestRun(decode, run) && n < |run|
    ensures var answer := Answer(decode, CacheAt(decode, run, n), run[n].response);
            (Conclusive(run[n].response) ==> answer == Uncached(decode, run[n].server.current)) &&
            (answer.Ok? ==> Conclusive(run[n].response)) && answer != Err(NothingCached)
  {
    CacheStaysSound(decode, run, n);
    var cache := CacheAt(decode, run, n);
    assert Honest(run[n].server, Sent(cache), run[n].response);
    if cache.body.Some? {
      assert n > 0 && Issue(cache.validators, cache.body.value) in run[n].server.issued by {
        assert run[n - 1].server.issued <= run[n].server.issued;
      }
    }
  }

  /** A missing document is reported for a 404 alone, and only a 404 clears the cache. */
  lemma OnlyNotFoundClears(decode: Body -> Option<Fields>, cache: Cache, r: Response)
    ensures Answer(decode, cache, r) == Err(NotFound) <==> r.Response? && r.status == 404
    ensures r.Response? && r.status == 404 ==> After(decode, cache, r) == Cache(None, NO_VALIDATORS)
    ensures !(r.Response? && r.status == 404) && cache.body.Some? ==> After(decode, cache, r).body.Some?
    ensures !(r.Response? && r.status == 404) && Answer(decode, cache, r).Err? ==> After(decode, cache, r) == cache
  {
  }

  /** Every other failure has its own error. */
  lemma FailuresByStatus(decode: Body -> Option<Fields>, cache: Cache, r: Response)
    ensures r.NoResponse? ==> Answer(decode, cache, r) == Err(RequestFailed)
    ensures r.Response? && r.status == 304 && cache.body.None? ==> Answer(decode, cache, r) == Err(NothingCached)
    ensures r.Response? && r.status != 200 && r.status != 304 && r.status != 404 ==> Answer(decode, cache, r) == Err(UnexpectedStatus)
    ensures r.Response? && r.status == 200 && r.body.None? ==> Answer(decode, cache, r) == Err(RequestFailed)
    ensures r.Response? && r.status == 200 && r.body.Some? && decode(r.body.value).None? ==> Answer(decode, cache, r) == Err(BadDocument)
  {
  }

  /** After a document was decoded the next request carries that response's validators; with nothing cached it carries none. */
  lemma NextRequest(decode: Body -> Option<Fields>, cache: Cache, r: Response)
    ensures r.Response? && r.status == 200 && Answer(decode, cache, r).Ok? ==> Sent(After(decode, cache, r)) == r.validators
    ensures After(decode, cache, r).body.None? ==> Sent(After(decode, cache, r)) == NO_VALIDATORS
    ensures r.Response? && r.status == 304 ==> Sent(After(decode, cache, r)) == Sent(cache)
  {
  }
}
