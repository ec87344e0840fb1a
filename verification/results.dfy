/** Failure-carrying values shared by the crawler model.

    Python's exceptions become `Err` values of `Result`; an absent value
    (a missing element, a `.string` that is `None`) is an `Option`.
    `Traced` pairs a computed value with the URLs that were handed to the
    page renderer while computing it, in order. */
module Results {

  datatype Option<+T> = None | Some(value: T)

  /** The exceptions the crawler's code can raise on the modelled paths. */
  datatype Error =
    | MissingAttribute(name: string)  // `element['name']` raised KeyError
    | NoSuchElement(selector: string) // `select(...)[0]` raised IndexError
    | FetchFailed(url: string)        // rendering `url` raised

  datatype Result<+T> = Ok(value: T) | Err(error: Error)

  /** A value together with the renderer requests made to obtain it. */
  datatype Traced<+T> = Traced(value: T, fetches: seq<string>)
}
