/** The NASA APOD client: the record schema, the response union, the
    classification ladder of `fetchApod`, and `isApodError`.
    The HTTP exchange and `JSON.parse` are inputs: a `Transport` value says what
    the exchange produced, and `parse` says what the parser makes of a body. */
module NasaApod {
  import opened Wrappers
  import Text

  /** A JSON value as the parser yields it. An object maps keys to values
      (a repeated key keeps its last value). */
  datatype Json =
    | JNull
    | JBool(b: bool)
    | JNumber(n: real)
    | JString(s: string)
    | JArray(items: seq<Json>)
    | JObject(fields: map<string, Json>)

  datatype MediaType = Image | Video

  /** A record that passed the schema. Keys the schema does not name are
      stripped, so there is no `code` field; an absent optional key is None. */
  datatype ApodData = ApodData(
    copyright: Option<string>,
    date: string,
    explanation: string,
    hdurl: Option<string>,
    mediaType: MediaType,
    serviceVersion: string,
    title: string,
    url: string)

  /** `ApodResponse`: a validated record, or an error value `{code, msg}`. */
  datatype ApodResponse = Found(data: ApodData) | Failed(code: int, msg: string)

  /** What was thrown inside the outer `try`: an `Error` object with its
      message, or some other value. */
  datatype Thrown = ErrorObject(message: string) | OtherValue

  /** The outcome of the request and of reading its body as text. */
  datatype Transport = Threw(thrown: Thrown) | Responded(status: nat, text: string)

  const SchemaKeys: set<string> :=
    {"copyright", "date", "explanation", "hdurl", "media_type", "service_version", "title", "url"}

  const InvalidJsonMessage := "NASA API returned invalid JSON."
  const SchemaMessage := "Failed to parse API response."
  const UnknownErrorMessage := "Unknown error occurred."

  // ---------------------------------------------------------------- schema

  predicate RequiredString(fields: map<string, Json>, key: string) {
    key in fields && fields[key].JString?
  }

  predicate OptionalString(fields: map<string, Json>, key: string) {
    key !in fields || fields[key].JString?
  }

  /** `ApodSchema`, field by field: an object whose five required fields are
      strings, whose two optional fields are absent or strings, and whose
      `media_type` is "image" or "video". */
  predicate ConformsToSchema(j: Json) {
    && j.JObject?
    && OptionalString(j.fields, "copyright")
    && RequiredString(j.fields, "date")
    && RequiredString(j.fields, "explanation")
    && OptionalString(j.fields, "hdurl")
    && "media_type" in j.fields
    && j.fields["media_type"] in {JString("image"), JString("video")}
    && RequiredString(j.fields, "service_version")
    && RequiredString(j.fields, "title")
    && RequiredString(j.fields, "url")
  }

  function StringField(fields: map<string, Json>, key: string): Option<string> {
    if key in fields && fields[key].JString? then Some(fields[key].s) else None
  }

  function OptionalStringField(fields: map<string, Json>, key: string): Option<Option<string>> {
    if key !in fields then Some(None)
    else if fields[key].JString? then Some(Some(fields[key].s))
    else None
  }

  function MediaTypeField(fields: map<string, Json>): Option<MediaType> {
    if "media_type" !in fields then None
    else if fields["media_type"] == JString("image") then Some(Image)
    else if fields["media_type"] == JString("video") then Some(Video)
    else None
  }

  function MediaTypeName(m: MediaType): string {
    match m
    case Image => "image"
    case Video => "video"
  }

  /** The object a record is: its present keys and their values. */
  function ToJson(d: ApodData): (j: Json)
    ensures j.JObject?
  {
    var required := map[
      "date" := JString(d.date),
      "explanation" := JString(d.explanation),
      "media_type" := JString(MediaTypeName(d.mediaType)),
      "service_version" := JString(d.serviceVersion),
      "title" := JString(d.title),
      "url" := JString(d.url)];
    var withCopyright := if d.copyright.Some? then required["copyright" := JString(d.copyright.value)] else required;
    JObject(if d.hdurl.Some? then withCopyright["hdurl" := JString(d.hdurl.value)] else withCopyright)
  }

  /** The fields of an object that the schema names; the rest are dropped. */
  function Strip(fields: map<string, Json>): map<string, Json> {
    map k | k in fields && k in SchemaKeys :: fields[k]
  }

  /** `ApodSchema.safeParse(data)`: the record when the value conforms, None otherwise.
      A conforming value yields exactly its schema fields, unknown keys dropped. */
  function SafeParse(j: Json): (r: Option<ApodData>)
    ensures r.Some? <==> ConformsToSchema(j)
    ensures r.Some? ==> ToJson(r.value).fields == Strip(j.fields)
  {
    if !j.JObject? then None
    else
      var f := j.fields;
      var copyright :- OptionalStringField(f, "copyright");
      var date :- StringField(f, "date");
      var explanation :- StringField(f, "explanation");
      var hdurl :- OptionalStringField(f, "hdurl");
      var mediaType :- MediaTypeField(f);
      var serviceVersion :- StringField(f, "service_version");
      var title :- StringField(f, "title");
      var url :- StringField(f, "url");
      var d := ApodData(copyright, date, explanation, hdurl, mediaType, serviceVersion, title, url);
      assert ToJson(d).fields == Strip(f);
      Some(d)
  }

  /** Validating the object a record is gives that record back. */
  lemma SafeParseOfRecord(d: ApodData)
    ensures SafeParse(ToJson(d)) == Some(d)
  {
  }

  // ------------------------------------------------------------ the ladder

  /** `response.ok`: a status in the range 200-299 (the Fetch standard). */
  predicate IsOk(status: nat) {
    200 <= status <= 299
  }

  /** The non-ok message names the status and ends with the body verbatim. */
  function StatusMessage(status: nat, text: string): (m: string)
    ensures |m| >= |text| && m[|m| - |text|..] == text
  {
    "API request failed with status " + Text.NatToString(status) + ": " + text
  }

  function ThrownMessage(t: Thrown): string {
    match t
    case ErrorObject(message) => message
    case OtherValue => UnknownErrorMessage
  }

  /** The value bound to `data`: an empty body is null without consulting the
      parser; any other body is whatever the parser makes of it. */
  function ParseBody(text: string, parse: string -> Option<Json>): Option<Json> {
    if text == "" then Some(JNull) else parse(text)
  }

  /** `fetchApod`: the transport outcome and the parser decide the response. It
      is a record exactly when the status is ok, the body is non-empty, parses,
      and conforms; every error carries code 500 except a non-ok status, which
      carries the status itself. */
  function FetchApod(outcome: Transport, parse: string -> Option<Json>): (r: ApodResponse)
    ensures r.Found? <==>
      && outcome.Responded?
      && IsOk(outcome.status)
      && outcome.text != ""
      && parse(outcome.text).Some?
      && ConformsToSchema(parse(outcome.text).value)
    ensures r.Found? ==> ToJson(r.data).fields == Strip(parse(outcome.text).value.fields)
    ensures outcome.Responded? && !IsOk(outcome.status) ==>
      r == Failed(outcome.status, StatusMessage(outcome.status, outcome.text))
    ensures r.Failed? && !(outcome.Responded? && !IsOk(outcome.status)) ==> r.code == 500
  {
    match outcome
    case Threw(t) => Failed(500, ThrownMessage(t))
    case Responded(status, text) =>
      if !IsOk(status) then
        Failed(status, StatusMessage(status, text))
      else
        match ParseBody(text, parse)
        case None => Failed(500, InvalidJsonMessage)
        case Some(data) =>
          match SafeParse(data)
          case None => Failed(500, SchemaMessage)
          case Some(d) => Found(d)
  }

  /** A non-ok status is an error carrying the status, whatever the body holds:
      the status is checked before the body is parsed. */
  lemma NonOkStatusIsError(status: nat, text: string, parse: string -> Option<Json>)
    requires !IsOk(status)
    ensures FetchApod(Responded(status, text), parse) == Failed(status, StatusMessage(status, text))
  {
  }

  /** An ok response whose body does not parse is the invalid-JSON error. */
  lemma InvalidJsonIsError(status: nat, text: string, parse: string -> Option<Json>)
    requires IsOk(status) && text != "" && parse(text).None?
    ensures FetchApod(Responded(status, text), parse) == Failed(500, InvalidJsonMessage)
  {
  }

  /** An ok response with an empty body is read as null, which the schema
      refuses. */
  lemma EmptyBodyIsSchemaError(status: nat, parse: string -> Option<Json>)
    requires IsOk(status)
    ensures FetchApod(Responded(status, ""), parse) == Failed(500, SchemaMessage)
  {
  }

  /** An ok response whose body parses to a value the schema refuses. */
  lemma NonConformingIsSchemaError(status: nat, text: string, parse: string -> Option<Json>)
    requires IsOk(status) && text != "" && parse(text).Some? && !ConformsToSchema(parse(text).value)
    ensures FetchApod(Responded(status, text), parse) == Failed(500, SchemaMessage)
  {
  }

  /** Anything thrown becomes an error with code 500 and the thrown message,
      or the fixed message when no Error object was thrown. */
  lemma ThrownIsError(t: Thrown, parse: string -> Option<Json>)
    ensures FetchApod(Threw(t), parse).Failed?
    ensures FetchApod(Threw(t), parse).code == 500
    ensures t.ErrorObject? ==> FetchApod(Threw(t), parse).msg == t.message
    ensures t.OtherValue? ==> FetchApod(Threw(t), parse).msg == UnknownErrorMessage
  {
  }

  /** A body that parses to a record's own object comes back as that record. */
  lemma RecordBodyIsFound(status: nat, text: string, parse: string -> Option<Json>, d: ApodData)
    requires IsOk(status) && text != "" && parse(text) == Some(ToJson(d))
    ensures FetchApod(Responded(status, text), parse) == Found(d)
  {
    SafeParseOfRecord(d);
  }

  // ------------------------------------------------------- discrimination

  /** The own keys of the object a response is. */
  function Keys(r: ApodResponse): set<string> {
    match r
    case Found(d) => ToJson(d).fields.Keys
    case Failed(_, _) => {"code", "msg"}
  }

  /** `isApodError`: a response is an error value when it has a `code` key,
      which is exactly when it is not a record. */
  predicate IsApodError(r: ApodResponse): (b: bool)
    ensures b <==> r.Failed?
  {
    "code" in Keys(r)
  }
}
