/** Failure-carrying values shared by every module of the model, and the
    exceptions the scraper raises, as one tagged type. */
module Wrappers {

  datatype Option<+T> = None | Some(value: T)

  datatype Result<+T, +E> = Success(value: T) | Failure(error: E)

  /** The exceptions the scraper lets escape to its caller. */
  datatype Error =
    | DriverNotInitialized   // DriverNotInitializedError from the `assert_driver` guard
    | BadUuid                // ValueError from `uuid.UUID(text, version=4)`
    | BadZoom(ratio: int)    // ValueError from `edit_zoom`
    | BadJson                // ValueError (a JSON decode error) from `json.loads`
    | NotContainer           // TypeError from `"status" in res` on a number or `true`
    | MissingId              // TypeError from `uuid.UUID(None)`: the entry has no id attribute
    | CompletionTimeout      // TimeoutError from `wait_completion`
    | ElementTimeout         // Selenium's TimeoutException from a bounded element wait
}
