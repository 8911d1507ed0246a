/** The local OpenSearch vocabulary proxy: its configuration check, the base URL it talks to,
    the probe that reports a vocabulary's status, and the autocomplete pipeline that ties the
    payload and result phases together. The HTTP client is a parameter: a function from the
    URL and the JSON body to the response. */
module LocalOpenSearch {
  import opened Wrappers
  import opened Text
  import opened Json
  import opened Seqs
  import opened Concepts
  import opened Vocabs
  import OsPayload
  import OsResults

  // ---------------------------------------------------------------------------
  // Configuration (`_validate_cfg`)
  // ---------------------------------------------------------------------------

  /** Why a proxy could not be built: the two `ValueError`s `_validate_cfg` raises on purpose,
      or a Python exception it lets through. */
  datatype ProxyError = HostInvalid | PortInvalid | Raised(error: PyError)

  /** `config.host` is a non-empty string. */
  predicate HostOk(host: Option<Json>) {
    host.Some? && host.value.JStr? && host.value.s != ""
  }

  /** A configuration the proxy can use: a dict with a non-empty string host and an integer
      port (a Python bool counts as one). */
  predicate ValidCfg(cfg: Json) {
    && cfg.JObj?
    && HostOk(Get(cfg.fields, "host"))
    && IsInt(GetOr(cfg.fields, "port", JNull))
  }

  /** The configurations `_validate_cfg` accepts: a dict with a non-empty string host whose
      port `int()` can convert. */
  predicate CfgAccepted(cfg: Json) {
    cfg.JObj? && HostOk(Get(cfg.fields, "host")) && PyInt(GetOr(cfg.fields, "port", JNull)).Success?
  }

  /** What `_validate_cfg` does to `self.cfg`: the new members, or the exception it raises.
      A port that is not an integer is replaced by `int(port)`; `int()` failing with
      `TypeError` or `ValueError` becomes the port error, while `OverflowError` (an infinite
      float) is not caught. A config that is not a dict has no `get`. */
  function CheckedCfg(cfg: Json): (r: Result<Fields, ProxyError>)
    ensures !cfg.JObj? ==> r == Failure(Raised(AttributeError))
    ensures cfg.JObj? && !HostOk(Get(cfg.fields, "host")) ==> r == Failure(HostInvalid)
    ensures r.Success? <==> CfgAccepted(cfg)
    ensures r.Failure? && r.error.Raised? ==> r.error.error in {AttributeError, OverflowError}
    ensures r.Success? ==> ValidCfg(JObj(r.value))
  {
    if !cfg.JObj? then Failure(Raised(AttributeError))
    else
      var fields := cfg.fields;
      var port := GetOr(fields, "port", JNull);
      if !HostOk(Get(fields, "host")) then Failure(HostInvalid)
      else if IsInt(port) then Success(fields)
      else match PyInt(port)
        case Success(n) => Success(Set(fields, "port", JNum(Int(n))))
        case Failure(OverflowError) => Failure(Raised(OverflowError))
        case Failure(_) => Failure(PortInvalid)
  }

  /** A config that passes keeps its members and their order; only the port may change, and
      only to the integer `int()` makes of it. */
  lemma CheckedCfgRewritesOnlyPort(cfg: Json)
    requires CheckedCfg(cfg).Success?
    ensures var r := CheckedCfg(cfg).value;
      && Keys(r) == Keys(cfg.fields)
      && (forall k :: k != "port" ==> Get(r, k) == Get(cfg.fields, k))
      && PyInt(GetOr(r, "port", JNull)) == PyInt(GetOr(cfg.fields, "port", JNull))
  {
  }

  /** Validating a configuration that already passed changes nothing, so a config can be
      checked again (by a second proxy built on it) with the same outcome. */
  lemma CheckedCfgIdempotent(cfg: Json)
    requires ValidCfg(cfg)
    ensures CheckedCfg(cfg) == Success(cfg.fields)
  {
  }

  /** A valid configuration is used as it is, and checking it again changes nothing. */
  lemma ValidCfgKept(cfg: Json)
    requires ValidCfg(cfg)
    ensures Or(cfg, JObj([])) == cfg
    ensures CheckedCfg(cfg) == Success(cfg.fields)
  {
    assert Get(cfg.fields, "host").Some?;
    CheckedCfgIdempotent(cfg);
  }

  lemma PyIntOfDecimal(n: int)
    ensures PyInt(JStr(IntToDecimal(n))) == Success(n)
  {
    ParseIntOfDecimal(n);
  }

  /** A port given as a decimal string is accepted and stored as that integer. */
  lemma PortStringAccepted(fields: Fields, host: string, n: int)
    requires host != ""
    requires Get(fields, "host") == Some(JStr(host))
    requires Get(fields, "port") == Some(JStr(IntToDecimal(n)))
    ensures CheckedCfg(JObj(fields)).Success?
    ensures Get(CheckedCfg(JObj(fields)).value, "port") == Some(JNum(Int(n)))
  {
    var port := JStr(IntToDecimal(n));
    PyIntOfDecimal(n);
    assert GetOr(fields, "port", JNull) == port;
    assert CheckedCfg(JObj(fields)) == Success(Set(fields, "port", JNum(Int(n))));
  }

  /** A missing port is rejected as a port error, not as a crash. */
  lemma MissingPortRejected(fields: Fields)
    requires HostOk(Get(fields, "host"))
    requires !HasKey(fields, "port")
    ensures CheckedCfg(JObj(fields)) == Failure(PortInvalid)
  {
  }

  // ---------------------------------------------------------------------------
  // Backend responses
  // ---------------------------------------------------------------------------

  /** What `client.post(...)`, `raise_for_status()` and `resp.json()` produce: a decoded body,
      or the request error, HTTP status error or JSON decoding error they raise. */
  datatype Response = Received(body: Json) | RequestFailed | HttpStatusFailed | InvalidJson

  /** `_send_os_query`: the decoded body, or `None` (here `JNull`) on any of the caught errors. */
  function QueryData(resp: Response): (data: Json)
    ensures resp.Received? ==> data == resp.body
    ensures !resp.Received? ==> data.JNull?
  {
    if resp.Received? then resp.body else JNull
  }

  /** The body of the probe request: no hits, an exact total, and a terms aggregation on
      `lang_set`. */
  const ProbeBody: Json := JObj([
    ("size", JNum(Int(0))),
    ("track_total_hits", JBool(true)),
    ("aggs", JObj([("langs", JObj([("terms", JObj([("field", JStr("lang_set"))]))]))]))])

  // ---------------------------------------------------------------------------
  // Probe
  // ---------------------------------------------------------------------------

  /** `data.get("aggregations", {}).get("langs", {}).get("buckets", []) or []`, iterated. */
  function BucketsOf(data: Json): Result<seq<Json>, PyError> {
    var aggs :- DictGet(data, "aggregations", JObj([]));
    var langs :- DictGet(aggs, "langs", JObj([]));
    var buckets :- DictGet(langs, "buckets", JArr([]));
    Iterate(Or(buckets, JArr([])))
  }

  /** A bucket the comprehension keeps: a dict with a `key`. */
  predicate KeyedBucket(b: Json) {
    b.JObj? && HasKey(b.fields, "key")
  }

  /** The key a bucket contributes to the comprehension, if any. */
  function KeyOf(b: Json): seq<Json> {
    if KeyedBucket(b) then [Get(b.fields, "key").value] else []
  }

  /** `[b.get("key") for b in buckets if isinstance(b, dict) and "key" in b]` */
  function BucketKeys(buckets: seq<Json>): seq<Json> {
    FlatMap(buckets, KeyOf)
  }

  /** The probe's languages are the keys of the buckets that have one, and only those. */
  lemma BucketKeysMembers(buckets: seq<Json>, k: Json)
    ensures k in BucketKeys(buckets) <==>
      exists b :: b in buckets && KeyedBucket(b) && Get(b.fields, "key") == Some(k)
  {
    FlatMapMembers(buckets, KeyOf, k);
  }

  /** A bucket as the terms aggregation returns it. */
  function TermBucket(key: Json, count: int): Json {
    JObj([("key", key), ("doc_count", JNum(Int(count)))])
  }

  /** A term bucket has its key. */
  lemma TermBucketKeyed(key: Json, count: int)
    ensures KeyedBucket(TermBucket(key, count))
    ensures Get(TermBucket(key, count).fields, "key") == Some(key)
  {
    assert Keys(TermBucket(key, count).fields) == ["key", "doc_count"];
  }

  /** The buckets of a terms aggregation over `keys` with the given document counts. */
  function TermBuckets(keys: seq<Json>, counts: seq<int>): (r: seq<Json>)
    requires |counts| == |keys|
    ensures |r| == |keys|
    decreases |keys|
  {
    if keys == [] then []
    else
      var n := |keys| - 1;
      TermBuckets(keys[..n], counts[..n]) + [TermBucket(keys[n], counts[n])]
  }

  /** Buckets that all have a key give back exactly their keys, in order. */
  lemma {:induction false} BucketKeysOfTerms(keys: seq<Json>, counts: seq<int>)
    requires |counts| == |keys|
    ensures BucketKeys(TermBuckets(keys, counts)) == keys
    decreases |keys|
  {
    if keys != [] {
      var n := |keys| - 1;
      BucketKeysOfTerms(keys[..n], counts[..n]);
      TermBucketKeyed(keys[n], counts[n]);
      BucketKeysSnoc(TermBuckets(keys[..n], counts[..n]), TermBucket(keys[n], counts[n]));
      assert keys[..n] + [keys[n]] == keys;
    }
  }

  lemma BucketKeysSnoc(buckets: seq<Json>, b: Json)
    ensures BucketKeys(buckets + [b]) == BucketKeys(buckets) + KeyOf(b)
  {
    assert (buckets + [b])[..|buckets|] == buckets;
  }

  /** The document count and the languages the probe reads from a decoded body, or the
      exception reading them raises. The count is read first. */
  function ProbeData(data: Json): Result<(int, seq<Json>), PyError> {
    var count :- OsResults.TotalOf(data);
    var buckets :- BucketsOf(data);
    Success((count, BucketKeys(buckets)))
  }

  /** `Vocabulary(identifier=..., ...)`: pydantic refuses an identifier that is not a string
      with a `ValidationError`, which is a `ValueError`. */
  function MakeVocabulary(identifier: Json, languages: seq<Json>, docCount: int, status: VocabStatus)
    : (r: Result<Vocabulary, PyError>)
    ensures r.Success? <==> identifier.JStr?
    ensures r.Failure? ==> r.error == ValueError
    ensures r.Success? ==> r.value == Vocabulary(identifier.s, languages, docCount, status)
  {
    if identifier.JStr? then Success(Vocabulary(identifier.s, languages, docCount, status))
    else Failure(ValueError)
  }

  /** `probe` as written: only `ValueError` among the reading errors is caught, so a body of
      the wrong shape makes `AttributeError`, `TypeError` or `OverflowError` escape. */
  function ProbeAsWritten(identifier: Json, resp: Response): (r: Result<Vocabulary, PyError>)
    ensures !identifier.JStr? ==> r == Failure(ValueError)
    ensures r.Success? && r.value.status == Ok ==>
      resp.Received? && ProbeData(resp.body) == Success((r.value.docCount, r.value.languages))
  {
    var item :- MakeVocabulary(identifier, [], 0, Unavailable);
    match resp
    case Received(data) =>
      (match ProbeData(data)
       case Success((count, langs)) => Success(item.(languages := langs, docCount := count, status := Ok))
       case Failure(ValueError) => Success(item)
       case Failure(e) => Failure(e))
    case _ => Success(item)
  }

  /** The evidently intended `probe`: every failure to reach or to read the backend gives the
      unavailable item. Only building the item itself can fail. */
  function Probe(identifier: Json, resp: Response): (r: Result<Vocabulary, PyError>)
    ensures r.Failure? <==> !identifier.JStr?
    ensures r.Success? ==> r.value.identifier == identifier.s
    ensures r.Success? ==>
      (r.value.status == Ok <==> resp.Received? && ProbeData(resp.body).Success?)
    ensures r.Success? && r.value.status == Ok ==>
      ProbeData(resp.body) == Success((r.value.docCount, r.value.languages))
    ensures r.Success? && r.value.status == Unavailable ==>
      r.value.languages == [] && r.value.docCount == 0
  {
    var item :- MakeVocabulary(identifier, [], 0, Unavailable);
    if resp.Received? && ProbeData(resp.body).Success? then
      var (count, langs) := ProbeData(resp.body).value;
      Success(item.(languages := langs, docCount := count, status := Ok))
    else Success(item)
  }

  /** Wherever the written probe returns, it returns what the intended one does. */
  lemma ProbeAgrees(identifier: Json, resp: Response)
    requires ProbeAsWritten(identifier, resp).Success?
    ensures ProbeAsWritten(identifier, resp) == Probe(identifier, resp)
  {
  }

  /** The written probe lets an exception out exactly when reading the body fails with
      something other than `ValueError`. */
  lemma ProbeEscapes(identifier: string, resp: Response)
    ensures ProbeAsWritten(JStr(identifier), resp).Failure? <==>
      resp.Received? && ProbeData(resp.body).Failure? && ProbeData(resp.body).error != ValueError
  {
  }

  /** A backend answering with a JSON list, not an object: the written probe raises
      `AttributeError`, the intended one reports the vocabulary unavailable. */
  lemma ProbeOfListBody()
    ensures ProbeAsWritten(JStr("jel"), Received(JArr([]))) == Failure(AttributeError)
    ensures Probe(JStr("jel"), Received(JArr([]))) == Success(Vocabulary("jel", [], 0, Unavailable))
  {
  }

  /** The body a healthy index answers the probe with. */
  function HealthyBody(total: int, langs: seq<Json>, counts: seq<int>): Json
    requires |counts| == |langs|
  {
    var buckets := TermBuckets(langs, counts);
    JObj([
      ("hits", JObj([("total", JObj([("value", JNum(Int(total)))]))])),
      ("aggregations", JObj([("langs", JObj([("buckets", JArr(buckets))]))]))])
  }

  lemma HealthyTotal(total: int, langs: seq<Json>, counts: seq<int>)
    requires |counts| == |langs|
    ensures OsResults.TotalOf(HealthyBody(total, langs, counts)) == Success(total)
  {
    var body := HealthyBody(total, langs, counts);
    assert Keys(body.fields) == ["hits", "aggregations"];
    var hits := JObj([("total", JObj([("value", JNum(Int(total)))]))]);
    assert DictGet(body, "hits", JObj([])) == Success(hits);
    var t := JObj([("value", JNum(Int(total)))]);
    assert DictGet(hits, "total", JObj([])) == Success(t);
    assert DictGet(t, "value", JNum(Int(0))) == Success(JNum(Int(total)));
  }

  lemma HealthyLanguages(total: int, langs: seq<Json>, counts: seq<int>)
    requires |counts| == |langs|
    ensures BucketsOf(HealthyBody(total, langs, counts)).Success?
    ensures BucketKeys(BucketsOf(HealthyBody(total, langs, counts)).value) == langs
  {
    var buckets := TermBuckets(langs, counts);
    var body := HealthyBody(total, langs, counts);
    assert Keys(body.fields) == ["hits", "aggregations"];
    var aggs := JObj([("langs", JObj([("buckets", JArr(buckets))]))]);
    assert body.fields[1..] == [("aggregations", aggs)];
    assert Get(body.fields[1..], "aggregations") == Some(aggs);
    assert Get(body.fields, "aggregations") == Some(aggs) by {
      assert |"hits"| != |"aggregations"|;
    }
    assert DictGet(body, "aggregations", JObj([])) == Success(aggs);
    var l := JObj([("buckets", JArr(buckets))]);
    assert DictGet(aggs, "langs", JObj([])) == Success(l);
    assert DictGet(l, "buckets", JArr([])) == Success(JArr(buckets));
    assert Iterate(Or(JArr(buckets), JArr([]))) == Success(buckets);
    BucketKeysOfTerms(langs, counts);
  }

  /** A healthy index: the total and the aggregated languages are reported as they come. */
  lemma ProbeOfHealthyIndex(identifier: string, total: int, langs: seq<Json>, counts: seq<int>)
    requires |counts| == |langs|
    ensures Probe(JStr(identifier), Received(HealthyBody(total, langs, counts)))
         == Success(Vocabulary(identifier, langs, total, Ok))
  {
    HealthyTotal(total, langs, counts);
    HealthyLanguages(total, langs, counts);
  }

  // ---------------------------------------------------------------------------
  // The proxy
  // ---------------------------------------------------------------------------

  /** The base URL: the host without trailing slashes, with `http://` in front unless it
      already names a scheme. */
  function UrlHost(host: string): (r: string)
    ensures StartsWith(r, "http://") || StartsWith(r, "https://")
    ensures EndsWith(r, RStripChar(host, '/'))
    ensures StartsWith(RStripChar(host, '/'), "http://") || StartsWith(RStripChar(host, '/'), "https://")
      ==> r == RStripChar(host, '/')
    ensures !(StartsWith(RStripChar(host, '/'), "http://") || StartsWith(RStripChar(host, '/'), "https://"))
      ==> r == "http://" + RStripChar(host, '/')
    ensures RStripChar(host, '/') != "" ==> r[|r| - 1] != '/'
  {
    var h := RStripChar(host, '/');
    if StartsWith(h, "http://") || StartsWith(h, "https://") then h
    else
      assert ("http://" + h)[..7] == "http://";
      assert ("http://" + h)[7..] == h;
      "http://" + h
  }

  /** `f"{host}:{port}"` on the URL host: a scheme in front, the URL host up to the last
      colon, and after it the port, which reads back as the port. */
  function HostAndPort(host: string, port: int): (url: string)
    ensures url == UrlHost(host) + ":" + IntToDecimal(port)
    ensures StartsWith(url, "http://") || StartsWith(url, "https://")
    ensures var d := IntToDecimal(port);
      && |d| < |url|
      && url[|url| - |d| - 1] == ':'
      && ParseInt(url[|url| - |d|..]) == Some(port)
  {
    var u := UrlHost(host);
    var d := IntToDecimal(port);
    JoinedAtColon(u, d);
    ParseIntOfDecimal(port);
    u + ":" + d
  }

  lemma JoinedAtColon(u: string, d: string)
    ensures var url := u + ":" + d;
      && |url| == |u| + 1 + |d|
      && url[|u|] == ':'
      && url[|u| + 1..] == d
      && (StartsWith(u, "http://") ==> StartsWith(url, "http://"))
      && (StartsWith(u, "https://") ==> StartsWith(url, "https://"))
  {
    var url := u + ":" + d;
    assert url[..|u|] == u;
    if |u| >= 7 {
      assert url[..7] == u[..7];
    }
    if |u| >= 8 {
      assert url[..8] == u[..8];
    }
  }

  /** `LocalOpenSearchVocabProxy`. `cfg` is a field because `_validate_cfg` rewrites the
      port inside it. */
  class LocalOpenSearchProxy {
    const identifier: Json
    var cfg: Json

    predicate Valid()
      reads this
    {
      ValidCfg(cfg)
    }

    /** `VocabProxy.__init__` before validation: `self.cfg = cfg or {}`. */
    constructor Init(identifier: Json, cfg: Json)
      ensures this.identifier == identifier
      ensures this.cfg == Or(cfg, JObj([]))
    {
      this.identifier := identifier;
      this.cfg := Or(cfg, JObj([]));
    }

    /** `_validate_cfg()`: on success the config holds the integer port, and nothing else of
        it changed; on failure it is left as it was. */
    method ValidateCfg() returns (outcome: Outcome<ProxyError>)
      modifies this
      ensures var r := CheckedCfg(old(cfg));
        && (outcome.Pass? <==> r.Success?)
        && (r.Success? ==> cfg == JObj(r.value) && Valid())
        && (r.Failure? ==> outcome == Fail(r.error) && cfg == old(cfg))
    {
      if !cfg.JObj? {
        return Fail(Raised(AttributeError));
      }
      var host := Get(cfg.fields, "host");
      var port := GetOr(cfg.fields, "port", JNull);
      if !HostOk(host) {
        return Fail(HostInvalid);
      }
      if !IsInt(port) {
        var n := PyInt(port);
        if n.Failure? {
          if n.error == OverflowError {
            return Fail(Raised(OverflowError));
          }
          return Fail(PortInvalid);
        }
        cfg := JObj(Set(cfg.fields, "port", JNum(Int(n.value))));
      }
      outcome := Pass;
    }

    /** The port the URL is built with: `int(self.cfg["port"])`. */
    function Port(): int
      reads this
      requires Valid()
    {
      PyInt(GetOr(cfg.fields, "port", JNull)).value
    }

    /** The configured host, `self.cfg["host"]`. */
    function Host(): string
      reads this
      requires Valid()
    {
      Get(cfg.fields, "host").value.s
    }

    /** `_base_url()` */
    function BaseUrl(): (url: string)
      reads this
      requires Valid()
      ensures url == UrlHost(Host()) + ":" + IntToDecimal(Port())
      ensures StartsWith(url, "http://") || StartsWith(url, "https://")
      ensures var d := IntToDecimal(Port());
        && |d| < |url|
        && url[|url| - |d| - 1] == ':'
        && ParseInt(url[|url| - |d|..]) == Some(Port())
    {
      HostAndPort(Host(), Port())
    }

    /** Where both the probe and the search go. */
    function SearchUrl(): string
      reads this
      requires Valid()
    {
      BaseUrl() + "/concepts/_search"
    }

    /** `probe(client)`: posts the probe body to the search URL and reads the answer. */
    method ProbeBackend(send: (string, Json) -> Response) returns (r: Result<Vocabulary, PyError>)
      requires Valid()
      ensures r == Probe(identifier, send(SearchUrl(), ProbeBody))
      ensures r.Failure? <==> !identifier.JStr?
    {
      var resp := send(SearchUrl(), ProbeBody);
      r := Probe(identifier, resp);
    }

    /** `autocomplete(client, ...)`: the payload of phase 1 is posted to the search URL and the
        answer formatted by phase 3. The relation-expansion and display-field arguments only
        affect logging and are not parameters here. */
    method Autocomplete(
      send: (string, Json) -> Response, q: string, lang: Option<seq<string>>,
      fields: Option<seq<string>>, displayLangs: Option<seq<string>>,
      limit: int, offset: int, highlight: bool)
      returns (r: Result<SearchResults, PyError>)
      requires Valid()
      ensures var request := OsPayload.Payload(q, lang, fields, displayLangs, limit, offset, highlight);
        r == OsResults.FormattedResult(QueryData(send(SearchUrl(), OsPayload.ToJson(request))), displayLangs)
      ensures !send(SearchUrl(), OsPayload.ToJson(
                OsPayload.Payload(q, lang, fields, displayLangs, limit, offset, highlight))).Received?
        ==> r == Success(SearchResults(0, []))
    {
      var payload := OsPayload.GenerateOsPayload(q, lang, fields, displayLangs, limit, offset, highlight);
      var resp := send(SearchUrl(), OsPayload.ToJson(payload));
      var data := QueryData(resp);
      r := OsResults.FormatResult(data, displayLangs);
    }
  }

  /** `LocalOpenSearchVocabProxy(identifier=..., cfg=...)`: the constructor validates, so a
      proxy exists only with a valid configuration. */
  method NewProxy(identifier: Json, cfg: Json) returns (r: Result<LocalOpenSearchProxy, ProxyError>)
    ensures var checked := CheckedCfg(Or(cfg, JObj([])));
      && (r.Success? <==> checked.Success?)
      && (r.Failure? ==> r.error == checked.error)
      && (r.Success? ==> fresh(r.value) && r.value.Valid() && r.value.identifier == identifier
                         && r.value.cfg == JObj(checked.value))
  {
    var p := new LocalOpenSearchProxy.Init(identifier, cfg);
    var outcome := p.ValidateCfg();
    if outcome.Fail? {
      return Failure(outcome.error);
    }
    r := Success(p);
  }
}
