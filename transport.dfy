/** One GET against the data API, reduced to what the collector sees of it:
    a status code and, when the status is 200, the decoded page. */
module Transport {

  datatype Option<T> = None | Some(value: T)

  /** One entry of a page's `data` list: an identifier and the nested payload
      (field name to value). */
  datatype Record = Record(id: string, payload: map<string, string>)

  /** A decoded page: its `data` list, `meta.total` and `meta.parameters.fields`. */
  datatype Page = Page(records: seq<Record>, total: int, fields: string)

  /** What the HTTP layer hands back: the status code and the body as decoded JSON. */
  datatype Response = Response(status: int, body: Page)

  /** A response is usable exactly when its status is 200. */
  function HandleResponseErrors(response: Response): (ok: bool)
    ensures ok <==> response.status == 200
  {
    response.status == 200
  }

  /** The decoded page of a usable response, and no content (not an error) otherwise. */
  function MakeRequest(response: Response): (page: Option<Page>)
    ensures page.None? <==> !HandleResponseErrors(response)
    ensures page.Some? ==> page.value == response.body
  {
    if !HandleResponseErrors(response) then None else Some(response.body)
  }
}
