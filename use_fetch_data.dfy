/** hooks/use-fetch-data.ts: the data / loading-state / error state of one fetch hook. */
module UseFetchData {
  import opened Wrappers
  import JsValue

  /** `LoadingState`: idle, loading, success, error. */
  datatype LoadingState = Idle | Loading | Success | Error

  /** The message kept after a failed fetch: an Error's own message, else a fixed one. */
  function ErrorMessage(thrown: JsValue.Thrown): (r: string)
    ensures thrown.Error? ==> r == thrown.message
    ensures thrown.NonError? ==> r == "An error occurred"
  {
    if thrown.Error? then thrown.message else "An error occurred"
  }

  /**
   * The state one `useFetchData(fetchFn, options)` holds. The fetch itself
   * is not run here: each settle step is given what it produced.
   */
  class FetchData<T> {
    var data: Option<T>
    var loadingState: LoadingState
    var error: Option<string>
    const autoFetch: bool

    /** `initialData` defaults to null and `autoFetch` to true. */
    constructor (initialData: Option<T>, autoFetchOption: Option<bool>)
      ensures data == initialData && loadingState == Idle && error == None
      ensures autoFetch == autoFetchOption.GetOr(true)
    {
      data := initialData;
      loadingState := Idle;
      error := None;
      autoFetch := autoFetchOption.GetOr(true);
    }

    /** The `loading` flag returned by the hook. */
    function IsLoading(): (r: bool)
      reads this
      ensures r <==> loadingState == Loading
    {
      loadingState == Loading
    }

    /** The start of `fetchData`: loading, with the error cleared; data stays. */
    method Begin()
      modifies this
      ensures loadingState == Loading && error == None && data == old(data)
    {
      loadingState := Loading;
      error := None;
    }

    /**
     * The end of `fetchData`: a result becomes the data with SUCCESS; a
     * failure records its message with ERROR and keeps the previous data.
     */
    method Settle(outcome: JsValue.Result<T>)
      modifies this
      ensures outcome.Ok? ==> data == Some(outcome.value) && loadingState == Success && error == old(error)
      ensures outcome.Err? ==> data == old(data) && loadingState == Error && error == Some(ErrorMessage(outcome.thrown))
    {
      if outcome.Ok? {
        data := Some(outcome.value);
        loadingState := Success;
      } else {
        error := Some(ErrorMessage(outcome.thrown));
        loadingState := Error;
      }
    }

    /** `fetchData()` (and `refetch()`, the same function) run to completion. */
    method Fetch(outcome: JsValue.Result<T>)
      modifies this
      ensures outcome.Ok? ==> data == Some(outcome.value) && loadingState == Success && error == None
      ensures outcome.Err? ==> data == old(data) && loadingState == Error && error == Some(ErrorMessage(outcome.thrown))
      ensures !IsLoading()
    {
      Begin();
      Settle(outcome);
    }

    /** The mount effect: fetch once when `autoFetch` is set, else stay idle. */
    method Mount(outcome: JsValue.Result<T>)
      requires loadingState == Idle && error == None
      modifies this
      ensures !autoFetch ==> data == old(data) && loadingState == Idle && error == None
      ensures autoFetch && outcome.Ok? ==> data == Some(outcome.value) && loadingState == Success && error == None
      ensures autoFetch && outcome.Err? ==> data == old(data) && loadingState == Error && error == Some(ErrorMessage(outcome.thrown))
    {
      if autoFetch {
        Fetch(outcome);
      }
    }
  }
}
