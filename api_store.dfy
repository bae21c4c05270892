/** The request-builder store: the selected endpoint, the payload being
    edited, its encrypted preview, the last outcome and the request history.
    `JSON.stringify(value, null, 2)` is the parameter `pretty`; persistence
    to local storage is not modelled. */
module ApiStore {
  import opened Basics
  import opened Json
  import opened Endpoints

  datatype Response = Response(status: int, statusText: string, data: Json,
                               headers: map<string, string>, duration: real)

  datatype HistoryResponse = HistoryResponse(status: int, statusText: string, data: Json, duration: real)

  datatype HistoryItem = HistoryItem(
    id: string,
    endpointId: string,
    endpointName: string,
    timestamp: int,
    requestPayload: Json,
    encryptedPayload: string,
    response: Option<HistoryResponse>,
    error: Option<string>)

  /** At most this many requests are remembered. */
  const MaxHistory: nat := 50

  class RequestState {
    var selectedEndpoint: Option<Endpoint>
    var currentPayload: string
    var encryptedPreview: Option<string>
    var isLoading: bool
    var lastResponse: Option<Response>
    var lastError: Option<string>
    var history: seq<HistoryItem>

    /** A response and an error are never shown together, and the history
        is bounded. */
    ghost predicate Valid()
      reads this
    {
      !(lastResponse.Some? && lastError.Some?) && |history| <= MaxHistory
    }

    /** The initial state. */
    constructor()
      ensures Valid()
      ensures selectedEndpoint == None && currentPayload == "" && encryptedPreview == None
      ensures !isLoading && lastResponse == None && lastError == None && history == []
    {
      selectedEndpoint, currentPayload, encryptedPreview := None, "", None;
      isLoading, lastResponse, lastError, history := false, None, None, [];
    }

    /** `setSelectedEndpoint`: selects an endpoint (or none), shows its
        example payload and clears the preview and the last outcome. The
        example payload of the selected endpoint is passed as `example`. */
    method SetSelectedEndpoint(endpoint: Option<Endpoint>, example: Json, pretty: Json -> string)
      requires Valid()
      modifies this
      ensures Valid()
      ensures selectedEndpoint == endpoint
      ensures currentPayload == if endpoint.Some? then pretty(example) else ""
      ensures encryptedPreview == None && lastResponse == None && lastError == None
      ensures isLoading == old(isLoading) && history == old(history)
    {
      selectedEndpoint := endpoint;
      currentPayload := if endpoint.Some? then pretty(example) else "";
      encryptedPreview, lastResponse, lastError := None, None, None;
    }

    /** `setCurrentPayload`: changes the payload text only. */
    method SetCurrentPayload(payload: string)
      requires Valid()
      modifies this
      ensures Valid()
      ensures currentPayload == payload
      ensures selectedEndpoint == old(selectedEndpoint) && encryptedPreview == old(encryptedPreview)
      ensures isLoading == old(isLoading) && lastResponse == old(lastResponse)
      ensures lastError == old(lastError) && history == old(history)
    {
      currentPayload := payload;
    }

    /** `setEncryptedPreview`: changes the preview only. */
    method SetEncryptedPreview(preview: Option<string>)
      requires Valid()
      modifies this
      ensures Valid()
      ensures encryptedPreview == preview
      ensures selectedEndpoint == old(selectedEndpoint) && currentPayload == old(currentPayload)
      ensures isLoading == old(isLoading) && lastResponse == old(lastResponse)
      ensures lastError == old(lastError) && history == old(history)
    {
      encryptedPreview := preview;
    }

    /** `setLoading`: changes the loading flag only. */
    method SetLoading(loading: bool)
      requires Valid()
      modifies this
      ensures Valid()
      ensures isLoading == loading
      ensures selectedEndpoint == old(selectedEndpoint) && currentPayload == old(currentPayload)
      ensures encryptedPreview == old(encryptedPreview) && lastResponse == old(lastResponse)
      ensures lastError == old(lastError) && history == old(history)
    {
      isLoading := loading;
    }

    /** `setResponse`: records the response and clears the error. */
    method SetResponse(response: Option<Response>)
      requires Valid()
      modifies this
      ensures Valid()
      ensures lastResponse == response && lastError == None
      ensures selectedEndpoint == old(selectedEndpoint) && currentPayload == old(currentPayload)
      ensures encryptedPreview == old(encryptedPreview) && isLoading == old(isLoading)
      ensures history == old(history)
    {
      lastResponse, lastError := response, None;
    }

    /** `setError`: records the error and clears the response. */
    method SetError(error: Option<string>)
      requires Valid()
      modifies this
      ensures Valid()
      ensures lastError == error && lastResponse == None
      ensures selectedEndpoint == old(selectedEndpoint) && currentPayload == old(currentPayload)
      ensures encryptedPreview == old(encryptedPreview) && isLoading == old(isLoading)
      ensures history == old(history)
    {
      lastError, lastResponse := error, None;
    }

    /** `addToHistory`: the newest first, at most fifty kept. */
    method AddToHistory(item: HistoryItem)
      requires Valid()
      modifies this
      ensures Valid()
      ensures history == PrependCapped(item, old(history), MaxHistory)
      ensures selectedEndpoint == old(selectedEndpoint) && currentPayload == old(currentPayload)
      ensures encryptedPreview == old(encryptedPreview) && isLoading == old(isLoading)
      ensures lastResponse == old(lastResponse) && lastError == old(lastError)
    {
      history := PrependCapped(item, history, MaxHistory);
    }

    /** `clearHistory`: empties the history and nothing else. */
    method ClearHistory()
      requires Valid()
      modifies this
      ensures Valid()
      ensures history == []
      ensures selectedEndpoint == old(selectedEndpoint) && currentPayload == old(currentPayload)
      ensures encryptedPreview == old(encryptedPreview) && isLoading == old(isLoading)
      ensures lastResponse == old(lastResponse) && lastError == old(lastError)
    {
      history := [];
    }

    /** `loadFromHistory`: puts a past request back into the editor and the
        preview, and changes nothing else. */
    method LoadFromHistory(item: HistoryItem, pretty: Json -> string)
      requires Valid()
      modifies this
      ensures Valid()
      ensures currentPayload == pretty(item.requestPayload)
      ensures encryptedPreview == Some(item.encryptedPayload)
      ensures selectedEndpoint == old(selectedEndpoint) && isLoading == old(isLoading)
      ensures lastResponse == old(lastResponse) && lastError == old(lastError)
      ensures history == old(history)
    {
      currentPayload := pretty(item.requestPayload);
      encryptedPreview := Some(item.encryptedPayload);
    }
  }
}
