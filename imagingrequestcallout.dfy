/** The imaging-request callout of the database bridge
    (database-bridge-lambda/src/imagingRequestCallout.ts): from an item of
    type imaging request it extracts the Grid id of the image, builds the
    body handed to the Octopus API Lambda, and fails when that Lambda reports
    a function error. The Lambda invocation itself is left out; its
    `FunctionError` is an input. */
module ImagingRequestCallout {
  import opened Shared
  import opened Seqs

  /** An item whose JSON payload has been parsed; `None` stands for a `null` or missing payload. */
  datatype ParsedItem = ParsedItem(
    id: string,
    pinboardId: PinboardId,
    userEmail: Email,
    message: Option<string>,
    payload: Option<map<string, Value>>)

  /** Why the callout throws. */
  datatype CalloutError =
    | GridIdMissing
      /** `embeddableUrl` is a number or a boolean, which has no `split`. */
    | EmbeddableUrlNotAString
    | FunctionFailed(functionError: string)
      /** `JSON.parse` of the decoded response payload throws: it is empty or not JSON. */
    | ResultPayloadNotJson

  /** `item.payload?.<key>`. */
  function PayloadField(payload: Option<map<string, Value>>, key: string): (r: Option<Value>)
    ensures r.Some? <==> payload.Some? && key in payload.value
    ensures r.Some? ==> r.value == payload.value[key]
  {
    if payload.Some? && key in payload.value then Some(payload.value[key]) else None
  }

  /** `url.split("/").pop()`: the longest suffix of `url` without a `/`, that is the whole URL or the
      part after its last `/`. */
  function LastSegment(url: string): (r: string)
    ensures '/' !in r
    ensures |r| <= |url| && url[|url| - |r|..] == r
    ensures |r| == |url| || url[|url| - |r| - 1] == '/'
  {
    var pieces := Split(url, '/');
    SplitLastIsSuffix(url, '/');
    SplitPiecesAvoidSeparator(url, '/');
    pieces[|pieces| - 1]
  }

  /** The grid id: the last segment of a string `embeddableUrl`. It is missing when there is no payload,
      no URL, a `null` URL or an empty last segment, and a number or a boolean has no `split`. */
  function GridIdOf(payload: Option<map<string, Value>>): (r: Result<string, CalloutError>)
    ensures r.Ok? ==> r.value != ""
    ensures r.Ok? ==> var url := PayloadField(payload, "embeddableUrl");
      url.Some? && url.value.Str? && r.value == LastSegment(url.value.s)
    ensures r == Err(EmbeddableUrlNotAString) <==>
      PayloadField(payload, "embeddableUrl").Some? && (PayloadField(payload, "embeddableUrl").value.Num? || PayloadField(payload, "embeddableUrl").value.Bool?)
  {
    match PayloadField(payload, "embeddableUrl")
    case None => Err(GridIdMissing)
    case Some(Null) => Err(GridIdMissing)
    case Some(Num(_)) => Err(EmbeddableUrlNotAString)
    case Some(Bool(_)) => Err(EmbeddableUrlNotAString)
    case Some(Str(url)) =>
      var gridId := LastSegment(url);
      if gridId == "" then Err(GridIdMissing) else Ok(gridId)
  }

  /** A URL ending in a segment without `/` yields that segment. */
  lemma GridIdIsLastSegment(payload: map<string, Value>, prefix: string, gridId: string)
    requires "embeddableUrl" in payload && payload["embeddableUrl"] == Str(prefix + "/" + gridId)
    requires gridId != "" && '/' !in gridId
    ensures GridIdOf(Some(payload)) == Ok(gridId)
  {
    SplitLastPiece(prefix, '/', gridId);
  }

  /** A URL without `/` is the grid id itself. */
  lemma BareGridId(payload: map<string, Value>, url: string)
    requires "embeddableUrl" in payload && payload["embeddableUrl"] == Str(url)
    requires url != "" && '/' !in url
    ensures GridIdOf(Some(payload)) == Ok(url)
  {
    SplitWithoutSeparator(url, '/');
  }

  /** A URL with a trailing `/` has an empty last segment, so no grid id. */
  lemma TrailingSlashHasNoGridId(payload: map<string, Value>, prefix: string)
    requires "embeddableUrl" in payload && payload["embeddableUrl"] == Str(prefix + "/")
    ensures GridIdOf(Some(payload)) == Err(GridIdMissing)
  {
    SplitLastPiece(prefix, '/', "");
    assert prefix + "/" + "" == prefix + "/";
  }

  /** The body handed to the Octopus API Lambda. `requestType` is `None` when the payload has none (it
      is then dropped by `JSON.stringify`). */
  datatype ImagingRequestBody = ImagingRequestBody(
    workflowId: PinboardId,
    pinboardItemId: string,
    lastUser: Email,
    notes: Option<string>,
    requestType: Option<Value>,
    gridId: string)

  /** The body built from an item, or the error thrown before any invocation. */
  function ImagingRequest(item: ParsedItem): (r: Result<ImagingRequestBody, CalloutError>)
    ensures r.Ok? <==> GridIdOf(item.payload).Ok?
    ensures r.Err? ==> r.error == GridIdOf(item.payload).error && (r.error.GridIdMissing? || r.error.EmbeddableUrlNotAString?)
    ensures r.Ok? ==> && r.value.workflowId == item.pinboardId
                      && r.value.pinboardItemId == item.id
                      && r.value.lastUser == item.userEmail
                      && r.value.notes == item.message
                      && r.value.requestType == PayloadField(item.payload, "requestType")
                      && r.value.gridId == GridIdOf(item.payload).value
  {
    match GridIdOf(item.payload)
    case Err(e) => Err(e)
    case Ok(gridId) =>
      Ok(ImagingRequestBody(item.pinboardId, item.id, item.userEmail, item.message, PayloadField(item.payload, "requestType"), gridId))
  }

  /** `performImagingRequest` given the `FunctionError` the invocation would report and whether its
      decoded response payload parses as JSON: it succeeds with the body it sent, or fails before
      invoking, or fails with the function error when that is a non-empty string, or fails when the
      payload it logs is not JSON. */
  function PerformImagingRequest(item: ParsedItem, functionError: Option<string>, resultIsJson: bool): (r: Result<ImagingRequestBody, CalloutError>)
    ensures ImagingRequest(item).Err? ==> r == ImagingRequest(item)
    ensures ImagingRequest(item).Ok? ==> (r.Err? <==> TruthyString(functionError) || !resultIsJson)
    ensures r.Ok? ==> r == ImagingRequest(item)
    ensures r.Err? && r.error.FunctionFailed? ==> functionError == Some(r.error.functionError) && r.error.functionError != ""
    ensures r == Err(ResultPayloadNotJson) <==> ImagingRequest(item).Ok? && !TruthyString(functionError) && !resultIsJson
  {
    match ImagingRequest(item)
    case Err(e) => Err(e)
    case Ok(body) =>
      if TruthyString(functionError) then Err(FunctionFailed(functionError.value))
      else if !resultIsJson then Err(ResultPayloadNotJson)
      else Ok(body)
  }
}
