/**
 * The raw BPS payload script (scraper.py): check the configuration, gate on
 * the HTTP status, pull `json['data'][1]['data']` out of the response and
 * append it, with a timestamp, as one new document.
 */
module Scraper {
  import opened Wrappers
  import opened PyJson
  import opened Mongo

  /** The two environment variables; None when unset. */
  datatype Config = Config(apiKey: Option<string>, mongoUri: Option<string>)

  /**
   * What `requests.get(url)` gives: it raises (no connection, a timeout), or a
   * response with its status code and its body decoded as JSON, None when
   * `response.json()` raises.
   */
  datatype Response = NoConnection | Response(status: int, json: Option<Value>)

  /** The stored document `{"timestamp": ..., "data": ...}`. */
  datatype BpsDoc = BpsDoc(timestamp: int, data: Value)

  /** How one run of the script ends. */
  datatype Outcome =
    | MissingConfig                   // exit before any request
    | RequestRaised                   // `requests.get` raised; not caught
    | HttpFailed(status: int)         // exit after a status other than 200
    | NotJson                         // `response.json()` raised; not caught
    | StructureMismatch(error: PyError) // KeyError or IndexError, caught, exit
    | Crashed(error: PyError)         // any other exception on the path; not caught
    | Stored(data: Value)             // one document appended

  /** `not BPS_API_KEY or not MONGO_URI` is false: both set and non-empty. */
  predicate Configured(cfg: Config) {
    cfg.apiKey.Some? && |cfg.apiKey.value| > 0 && cfg.mongoUri.Some? && |cfg.mongoUri.value| > 0
  }

  /** `json_data['data'][1]['data']`, evaluated left to right. */
  function Extract(j: Value): (r: Result<Value, PyError>)
    // The value is reached exactly when every node on the path has the right shape ...
    ensures r.Ok? <==>
      && j.Dict? && "data" in j.fields
      && j.fields["data"].List? && |j.fields["data"].items| >= 2
      && j.fields["data"].items[1].Dict? && "data" in j.fields["data"].items[1].fields
    ensures r.Ok? ==> r.value == j.fields["data"].items[1].fields["data"]
    // ... a missing key, at either level, or a dict where the list is expected, is a KeyError ...
    ensures r == Err(KeyError) <==>
      && j.Dict?
      && ("data" !in j.fields
          || j.fields["data"].Dict?
          || (&& j.fields["data"].List? && |j.fields["data"].items| >= 2
              && j.fields["data"].items[1].Dict? && "data" !in j.fields["data"].items[1].fields))
    // ... a list or string with fewer than two elements is an IndexError ...
    ensures r == Err(IndexError) <==>
      && j.Dict? && "data" in j.fields
      && ((j.fields["data"].List? && |j.fields["data"].items| < 2)
          || (j.fields["data"].Str? && |j.fields["data"].s| < 2))
    // ... and every other failure is a TypeError.
    ensures r.Err? ==> r.error in {KeyError, IndexError, TypeError}
  {
    match Subscript(j, Name("data"))
    case Err(e) => Err(e)
    case Ok(top) =>
      match Subscript(top, Index(1))
      case Err(e) => Err(e)
      case Ok(second) => Subscript(second, Name("data"))
  }

  /** The outcome of one run, given the configuration and the server's response. */
  function RunOutcome(cfg: Config, resp: Response): Outcome {
    if !Configured(cfg) then MissingConfig
    else if resp.NoConnection? then RequestRaised
    else if resp.status != 200 then HttpFailed(resp.status)
    else if resp.json.None? then NotJson
    else
      match Extract(resp.json.value)
      case Ok(d) => Stored(d)
      case Err(e) => if e == KeyError || e == IndexError then StructureMismatch(e) else Crashed(e)
  }

  /**
   * One run of the script against `coll`; `now` stands for `datetime.now()`.
   * Exactly one document is appended when the run stores, none otherwise.
   */
  method Run(coll: Collection<BpsDoc>, cfg: Config, resp: Response, now: int) returns (outcome: Outcome)
    modifies coll
    ensures outcome == RunOutcome(cfg, resp)
    ensures coll.docs == old(coll.docs) + (if outcome.Stored? then [BpsDoc(now, outcome.data)] else [])
  {
    if !Configured(cfg) {
      return MissingConfig;
    }
    if resp.NoConnection? {
      return RequestRaised;
    }
    if resp.status != 200 {
      return HttpFailed(resp.status);
    }
    if resp.json.None? {
      return NotJson;
    }
    var provinsiData := Extract(resp.json.value);
    if provinsiData.Err? {
      if provinsiData.error == KeyError || provinsiData.error == IndexError {
        return StructureMismatch(provinsiData.error);
      }
      return Crashed(provinsiData.error);
    }
    coll.InsertOne(BpsDoc(now, provinsiData.value));
    outcome := Stored(provinsiData.value);
  }

  // ---------------------------------------------------------------- properties

  /** Without both settings the script stops whatever the server would answer. */
  lemma ConfigCheckedFirst(cfg: Config, resp: Response)
    requires !Configured(cfg)
    ensures RunOutcome(cfg, resp) == MissingConfig
  { }

  /**
   * The request is not guarded by a `try`: once configured, a failed connection
   * ends the run with the exception, whatever else holds.
   */
  lemma ConnectionErrorCrashes(cfg: Config)
    requires Configured(cfg)
    ensures RunOutcome(cfg, NoConnection) == RequestRaised
  { }

  /** A document is stored only after a status of exactly 200. */
  lemma StatusGate(cfg: Config, resp: Response)
    ensures RunOutcome(cfg, resp).Stored? ==> Configured(cfg) && resp.Response? && resp.status == 200
    ensures Configured(cfg) && resp.Response? && resp.status != 200 ==> RunOutcome(cfg, resp) == HttpFailed(resp.status)
  { }

  /** What is stored is exactly the node at `['data'][1]['data']`. */
  lemma StoredIsPath(cfg: Config, resp: Response, d: Value)
    requires Configured(cfg) && resp.Response? && resp.status == 200 && resp.json.Some?
    ensures RunOutcome(cfg, resp) == Stored(d) <==> Extract(resp.json.value) == Ok(d)
  { }

  /** A top-level object without `data` is reported as a structure mismatch. */
  lemma MissingTopKey(cfg: Config, resp: Response, m: map<string, Value>)
    requires Configured(cfg) && resp.Response? && resp.status == 200 && resp.json == Some(Dict(m))
    requires "data" !in m
    ensures RunOutcome(cfg, resp) == StructureMismatch(KeyError)
  { }

  /** A `data` list with fewer than two entries is reported as a structure mismatch. */
  lemma ShortDataList(cfg: Config, resp: Response, m: map<string, Value>)
    requires Configured(cfg) && resp.Response? && resp.status == 200 && resp.json == Some(Dict(m))
    requires "data" in m && m["data"].List? && |m["data"].items| < 2
    ensures RunOutcome(cfg, resp) == StructureMismatch(IndexError)
  { }

  /** A second entry without `data` is reported as a structure mismatch. */
  lemma MissingInnerKey(cfg: Config, resp: Response, m: map<string, Value>, inner: map<string, Value>)
    requires Configured(cfg) && resp.Response? && resp.status == 200 && resp.json == Some(Dict(m))
    requires "data" in m && m["data"].List? && |m["data"].items| >= 2
    requires m["data"].items[1] == Dict(inner) && "data" !in inner
    ensures RunOutcome(cfg, resp) == StructureMismatch(KeyError)
  { }

  /**
   * A list where the top-level object is expected raises a TypeError, which the
   * script does not catch.
   */
  lemma TopLevelListCrashes(cfg: Config, resp: Response, xs: seq<Value>)
    requires Configured(cfg) && resp.Response? && resp.status == 200 && resp.json == Some(List(xs))
    ensures RunOutcome(cfg, resp) == Crashed(TypeError)
  { }

  /** A second entry that is not an object raises an uncaught TypeError. */
  lemma ScalarSecondEntryCrashes(cfg: Config, resp: Response, m: map<string, Value>)
    requires Configured(cfg) && resp.Response? && resp.status == 200 && resp.json == Some(Dict(m))
    requires "data" in m && m["data"].List? && |m["data"].items| >= 2
    requires !m["data"].items[1].Dict?
    ensures RunOutcome(cfg, resp) == Crashed(TypeError)
  { }

  /** A caught mismatch is always a KeyError or an IndexError; a crash never is. */
  lemma HandledErrors(cfg: Config, resp: Response)
    ensures RunOutcome(cfg, resp).StructureMismatch? ==> RunOutcome(cfg, resp).error in {KeyError, IndexError}
    ensures RunOutcome(cfg, resp).Crashed? ==> RunOutcome(cfg, resp).error == TypeError
  { }
}
