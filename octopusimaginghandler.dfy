/** The handler of imaging callbacks from Octopus in the bootstrapping Lambda
    (bootstrapping-lambda/src/octopusImagingHandler.ts, with the item types
    of shared/octopusImaging.ts): it recognises such a callback, answers an
    upload request with a pre-signed Grid URL, and otherwise records the
    progress of the imaging order as a new pinboard item created on the
    worker's behalf. The Grid, S3 and AppSync calls are left out; the AppSync
    response is an input. */
module OctopusImagingHandler {
  import opened Shared

  const ImagingRequestItemType := "imaging-request"
  const ImagingPickedUpItemType := "imaging-picked-up"
  const ImagingCompletedItemType := "imaging-completed"

  /** `isImagingCallFromOctopus`: the event detail is present and has a `pinboardItemId` key. */
  predicate IsImagingCallFromOctopus(detail: Option<map<string, Value>>) {
    detail.Some? && "pinboardItemId" in detail.value
  }

  /** Only the presence of the `pinboardItemId` key decides: an absent detail is not a callback, any
      detail with that key is one whatever its value and its other keys, and any without it is not. */
  lemma ImagingCallRecognition(detail: map<string, Value>, v: Value, key: string, w: Value)
    ensures !IsImagingCallFromOctopus(None)
    ensures IsImagingCallFromOctopus(Some(detail["pinboardItemId" := v]))
    ensures key != "pinboardItemId" ==>
      IsImagingCallFromOctopus(Some(detail[key := w])) == IsImagingCallFromOctopus(Some(detail))
    ensures "pinboardItemId" !in detail ==> !IsImagingCallFromOctopus(Some(detail))
  {
  }

  /** A recognised callback; an optional field is `None` when its key is absent. */
  datatype ImagingCall = ImagingCall(
    userEmail: Email,
    workflowId: PinboardId,
    pinboardItemId: string,
    originalGridId: Option<string>,
    newGridId: Option<string>)

  /** What the handler does with a callback. */
  datatype HandlerAction =
    | GeneratePreSignedGridUploadUrl(call: ImagingCall)
      /** An item created through AppSync as `asUser`. */
    | CreateItem(asUser: Email, input: CreateItemInput)

  /** The branch taken and, when an item is created, its input. */
  function HandleImagingCall(call: ImagingCall): (r: HandlerAction)
    ensures r.GeneratePreSignedGridUploadUrl? <==> call.originalGridId.Some?
    ensures r.GeneratePreSignedGridUploadUrl? ==> r.call == call
    ensures r.CreateItem? ==> && r.asUser == call.userEmail
                              && r.input.pinboardId == call.workflowId
                              && r.input.relatedItemId == Some(call.pinboardItemId)
                              && !r.input.claimable
                              && r.input.mentions.None? && r.input.groupMentions.None?
                              && r.input.message.None? && r.input.payload.None?
    ensures r.CreateItem? ==> (r.input.itemType == ImagingCompletedItemType <==> call.newGridId.Some?)
    ensures r.CreateItem? ==> (r.input.itemType == ImagingPickedUpItemType <==> call.newGridId.None?)
  {
    assert ImagingCompletedItemType[8] != ImagingPickedUpItemType[8];
    if call.originalGridId.Some? then GeneratePreSignedGridUploadUrl(call)
    else
      var itemType := if call.newGridId.Some? then ImagingCompletedItemType else ImagingPickedUpItemType;
      CreateItem(call.userEmail, CreateItemInput(itemType, None, None, call.workflowId, None, None, false, Some(call.pinboardItemId)))
  }

  /** The progress items never look like a new imaging request, whatever the callback. */
  lemma ProgressItemIsNotARequest(call: ImagingCall)
    requires call.originalGridId.None?
    ensures HandleImagingCall(call).CreateItem?
    ensures HandleImagingCall(call).input.itemType != ImagingRequestItemType
  {
    assert ImagingRequestItemType[8] != ImagingPickedUpItemType[8];
    assert ImagingRequestItemType[8] != ImagingCompletedItemType[8];
  }

  /** The error thrown for a failed AppSync call. */
  datatype CreateItemFailure = CreateItemFailure(status: int, statusText: string)

  /** The check on the AppSync response: a response that is not ok throws, carrying its status. */
  function CheckCreateItemResponse(ok: bool, status: int, statusText: string): (r: Result<(), CreateItemFailure>)
    ensures r.Err? <==> !ok
    ensures r.Err? ==> r.error.status == status && r.error.statusText == statusText
  {
    if ok then Ok(()) else Err(CreateItemFailure(status, statusText))
  }
}
