/** One row's request: the URL, the result record `fetch_data` fills in, and
    the lookup of the two disposition fields in the decoded body
    (app.py, `fetch_data`). The GET itself, with the session's retries and
    timeout, is abstracted to its final outcome, a `Network` value. */
module Fetch {
  import opened Json

  /** A status line that the HTTP client accepts; anything outside
      100..999 is rejected by the client and reaches the runner as a
      transport error instead. */
  type HttpStatus = s: int | 100 <= s <= 999 witness 200

  /** What `response.json()` made of the body: a decoded value, or a
      ValueError, in which case the body's text is kept. */
  datatype Body = Parsed(value: Json) | Unparseable(text: string)

  /** The final outcome of `session.get(full_url)` after the session's
      retries: a RequestException with its text, or a response. */
  datatype Network =
    | TransportError(message: string)
    | Response(status: HttpStatus, body: Body)

  /** The dict `fetch_data` returns; a disposition of `Null` is `None`. */
  datatype Record = Record(
    id: string,
    fullUrl: string,
    statusCode: int,
    mainDisposition: Json,
    subDisposition: Json,
    responseJson: string,
    error: string)

  /** The two fields read from the extraction block. */
  datatype Dispositions = Dispositions(main: Json, sub: Json)

  /** Things the runner is given rather than computes: the two halves of the
      URL template and `json.dumps`, whose exact text is not modelled. */
  datatype Config = Config(urlPre: string, urlPost: string, dumps: Json -> string)

  /** `status_code` before the request is made. */
  const NotDispatched: int := 0
  /** `status_code` after a RequestException. */
  const TransportFailure: int := -1

  const ExtractionKey := "extraction"
  const ExtractedDataKey := "extracted_data"
  const MainKey := "main_disposition"
  const SubKey := "sub_disposition"

  /** The request URL: the identifier substituted between the two halves. */
  function FullUrl(cfg: Config, rowId: string): (url: string)
    ensures |url| == |cfg.urlPre| + |rowId| + |cfg.urlPost|
    ensures cfg.urlPre <= url && url[|cfg.urlPre|..|cfg.urlPre| + |rowId|] == rowId
    ensures url[|cfg.urlPre| + |rowId|..] == cfg.urlPost
  {
    cfg.urlPre + rowId + cfg.urlPost
  }

  /** The value found at `extraction.extracted_data.<key>` when every step
      of that path is a dict lookup that succeeds, and `None` otherwise:
      the plain reading of the path, with none of Python's other meanings
      of `in`. */
  function PathField(data: Json, key: string): (v: Json)
    ensures !data.Object? || ExtractionKey !in data.fields ==> v == Null
    ensures v != Null ==> data.fields[ExtractionKey].Object?
  {
    if data.Object? && ExtractionKey in data.fields
       && data.fields[ExtractionKey].Object?
       && ExtractedDataKey in data.fields[ExtractionKey].fields
       && data.fields[ExtractionKey].fields[ExtractedDataKey].Object?
       && key in data.fields[ExtractionKey].fields[ExtractedDataKey].fields
    then data.fields[ExtractionKey].fields[ExtractedDataKey].fields[key]
    else Null
  }

  /** The shapes on which the lookup cannot raise: the body is a dict, and
      each block on the path that is present is itself a dict. */
  predicate ObjectShaped(data: Json)
  {
    data.Object?
    && (ExtractionKey in data.fields ==>
          var block := data.fields[ExtractionKey];
          block.Object?
          && (ExtractedDataKey in block.fields ==> block.fields[ExtractedDataKey].Object?))
  }

  /** The extraction of app.py:59-62, with Python's meaning of `in`,
      subscript and `.get` on every shape of decoded body. On an
      object-shaped body it cannot raise; whenever it does not raise it
      yields exactly the plain path lookup (so a disposition is never
      invented); a bare null, bool or number always raises TypeError. */
  function Extract(data: Json): (r: Eval<Dispositions>)
    ensures ObjectShaped(data) ==> r.Value?
    ensures r.Value? ==> r.value == Dispositions(PathField(data, MainKey), PathField(data, SubKey))
    ensures data.Null? || data.Bool? || data.Int? || data.Float? ==> r == Raised(TypeError)
  {
    match Contains(data, ExtractionKey)
    case Raised(e) => Raised(e)
    case Value(false) => Value(Dispositions(Null, Null))
    case Value(true) =>
      match Subscript(data, ExtractionKey)
      case Raised(e) => Raised(e)
      case Value(block) =>
        match Contains(block, ExtractedDataKey)
        case Raised(e) => Raised(e)
        case Value(false) => Value(Dispositions(Null, Null))
        case Value(true) =>
          match Subscript(block, ExtractedDataKey)
          case Raised(e) => Raised(e)
          case Value(extracted) =>
            match Get(extracted, MainKey)
            case Raised(e) => Raised(e)
            case Value(main) =>
              match Get(extracted, SubKey)
              case Raised(e) => Raised(e)
              case Value(sub) => Value(Dispositions(main, sub))
  }

  /** The record as it stands before the request (app.py:38-46): the row's
      identifier and URL, status 0, no dispositions, empty body and error
      texts. It is not settled: `fetch_data` never returns it unchanged. */
  function Initial(cfg: Config, rowId: string): (rec: Record)
    ensures rec.id == rowId && rec.fullUrl == cfg.urlPre + rowId + cfg.urlPost
    ensures rec.statusCode == NotDispatched
    ensures rec.mainDisposition == Null && rec.subDisposition == Null
    ensures rec.responseJson == "" && rec.error == ""
    ensures !Settled(rec)
  {
    Record(rowId, FullUrl(cfg, rowId), NotDispatched, Null, Null, "", "")
  }

  /** What a returned record always satisfies: the pre-dispatch status never
      survives, a status is either the transport sentinel or a real HTTP
      status, an error text only ever comes with the sentinel, and a
      transport failure carries no body and no dispositions. */
  predicate Settled(rec: Record)
  {
    && rec.statusCode != NotDispatched
    && (rec.statusCode == TransportFailure || 100 <= rec.statusCode <= 999)
    && (rec.error != "" ==> rec.statusCode == TransportFailure)
    && (rec.statusCode == TransportFailure ==>
          rec.responseJson == "" && rec.mainDisposition == Null && rec.subDisposition == Null)
  }

  /** `fetch_data`: fill in the record from the outcome of the request.
      A RequestException becomes data (status -1 and its text); a body that
      does not decode is kept verbatim; a decoded body is re-serialised and
      searched for the dispositions, and an exception raised by that search
      escapes, since only ValueError is caught around it. */
  function FetchData(cfg: Config, rowId: string, net: Network): (r: Eval<Record>)
    ensures r.Value? ==> r.value.id == rowId && r.value.fullUrl == cfg.urlPre + rowId + cfg.urlPost
    ensures r.Value? ==> Settled(r.value)
    ensures r.Value? ==> (r.value.statusCode == TransportFailure <==> net.TransportError?)
    ensures net.TransportError? ==>
              r.Value? && r.value.error == net.message && r.value.responseJson == ""
              && r.value.mainDisposition == Null && r.value.subDisposition == Null
    ensures net.Response? && r.Value? ==> r.value.statusCode == net.status && r.value.error == ""
    ensures net.Response? && net.body.Unparseable? ==>
              r.Value? && r.value.responseJson == net.body.text
              && r.value.mainDisposition == Null && r.value.subDisposition == Null
    ensures net.Response? && net.body.Parsed? ==>
              (r.Raised? <==> Extract(net.body.value).Raised?)
              && (r.Raised? ==> r == Raised(Extract(net.body.value).error))
              && (r.Value? ==>
                    r.value.responseJson == cfg.dumps(net.body.value)
                    && r.value.mainDisposition == PathField(net.body.value, MainKey)
                    && r.value.subDisposition == PathField(net.body.value, SubKey))
  {
    var result := Initial(cfg, rowId);
    match net
    case TransportError(message) =>
      Value(result.(error := message, statusCode := TransportFailure))
    case Response(status, body) =>
      var result := result.(statusCode := status);
      match body
      case Unparseable(text) =>
        Value(result.(responseJson := text))
      case Parsed(data) =>
        var result := result.(responseJson := cfg.dumps(data));
        match Extract(data)
        case Raised(e) => Raised(e)
        case Value(d) => Value(result.(mainDisposition := d.main, subDisposition := d.sub))
  }

  /** The record as the dict `fetch_data` returns, keyed by its column names. */
  function AsDict(rec: Record): (d: map<string, Json>)
    ensures d.Keys == {"id", "full_url", "status_code", MainKey, SubKey, "response_json", "error"}
    ensures d["id"] == Str(rec.id) && d["status_code"] == Int(rec.statusCode)
    ensures d["error"] == Str(rec.error) && d["response_json"] == Str(rec.responseJson)
    ensures d["full_url"] == Str(rec.fullUrl)
    ensures d[MainKey] == rec.mainDisposition && d[SubKey] == rec.subDisposition
  {
    map[
      "id" := Str(rec.id),
      "full_url" := Str(rec.fullUrl),
      "status_code" := Int(rec.statusCode),
      MainKey := rec.mainDisposition,
      SubKey := rec.subDisposition,
      "response_json" := Str(rec.responseJson),
      "error" := Str(rec.error)
    ]
  }

  /** A well-formed nested body yields both dispositions, whatever else the
      body, the extraction block and the extracted data hold. */
  lemma ExtractNested(top: map<string, Json>, block: map<string, Json>, extracted: map<string, Json>,
                      main: Json, sub: Json)
    ensures var data := Object(top[ExtractionKey :=
              Object(block[ExtractedDataKey := Object(extracted[MainKey := main][SubKey := sub])])]);
            Extract(data) == Value(Dispositions(main, sub))
  {
  }

  /** A body that decodes to JSON `null`, a boolean or a bare number makes
      `fetch_data` raise TypeError instead of returning a record. */
  lemma ScalarBodyRaises(cfg: Config, rowId: string, status: HttpStatus, v: Json)
    requires v.Null? || v.Bool? || v.Int? || v.Float?
    ensures FetchData(cfg, rowId, Response(status, Parsed(v))) == Raised(TypeError)
  {
  }

  /** A str body raises TypeError at the subscript when it contains
      "extraction", and otherwise yields no dispositions. */
  lemma StrBody(s: string)
    ensures IsSubstring(ExtractionKey, s) ==> Extract(Str(s)) == Raised(TypeError)
    ensures !IsSubstring(ExtractionKey, s) ==> Extract(Str(s)) == Value(Dispositions(Null, Null))
  {
  }

  /** An `extraction` entry that is `null`, a boolean or a number raises
      TypeError at the second `in`, whatever else the body holds. */
  lemma ExtractionBlockScalar(top: map<string, Json>, block: Json)
    requires block.Null? || block.Bool? || block.Int? || block.Float?
    ensures Extract(Object(top[ExtractionKey := block])) == Raised(TypeError)
  {
  }

  /** An `extraction` entry that is a list raises TypeError at the second
      subscript when it holds the string "extracted_data", and otherwise
      yields no dispositions. */
  lemma ExtractionBlockList(top: map<string, Json>, items: seq<Json>)
    ensures Str(ExtractedDataKey) in items ==>
              Extract(Object(top[ExtractionKey := Array(items)])) == Raised(TypeError)
    ensures Str(ExtractedDataKey) !in items ==>
              Extract(Object(top[ExtractionKey := Array(items)])) == Value(Dispositions(Null, Null))
  {
  }

  /** An `extraction` entry that is a str raises TypeError at the second
      subscript when it contains "extracted_data", and otherwise yields no
      dispositions. */
  lemma ExtractionBlockStr(top: map<string, Json>, s: string)
    ensures IsSubstring(ExtractedDataKey, s) ==>
              Extract(Object(top[ExtractionKey := Str(s)])) == Raised(TypeError)
    ensures !IsSubstring(ExtractedDataKey, s) ==>
              Extract(Object(top[ExtractionKey := Str(s)])) == Value(Dispositions(Null, Null))
  {
  }

  /** A list body that contains the string "extraction" raises TypeError at
      the subscript; one that does not yields no dispositions. */
  lemma ListBody(cfg: Config, rowId: string, status: HttpStatus, items: seq<Json>)
    ensures Str(ExtractionKey) in items ==>
              FetchData(cfg, rowId, Response(status, Parsed(Array(items)))) == Raised(TypeError)
    ensures Str(ExtractionKey) !in items ==>
              FetchData(cfg, rowId, Response(status, Parsed(Array(items)))).Value?
  {
  }

  /** An `extracted_data` entry that is present but not a dict (say `null`)
      makes the `.get` raise AttributeError, whatever else the body and the
      extraction block hold. */
  lemma ExtractedDataNotDict(top: map<string, Json>, block: map<string, Json>, inner: Json)
    requires !inner.Object?
    ensures Extract(Object(top[ExtractionKey := Object(block[ExtractedDataKey := inner])]))
            == Raised(AttributeError)
  {
  }
}
