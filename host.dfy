/**
 * What the plugin exchanges with its host: the structured error type (`FusionError`),
 * the value slot `outputs[0].value`, and the host calls the model records in a trace.
 */
module Host {
  import opened Wrappers

  /** `new FusionError(message, kind, code, { nested })`; absent arguments are `None`. */
  datatype FusionError = FusionError(message: string, kind: Option<string>, code: Option<int>, nested: Option<Thrown>)

  /** A thrown value: a `FusionError` instance (classified) or anything else (unclassified). */
  datatype Thrown = Classified(error: FusionError) | Unclassified(description: string)

  /** Rejection of the browser session when the user closes the browser. */
  const AbortError := FusionError("Authentication was aborted.", None, None, None)

  /** Rejection of the browser session on a `loaderror` event. */
  function LoadFailure(message: string, code: int): FusionError {
    FusionError(message, Some("WebFormAuthenticationError"), Some(code), None)
  }

  /** What the error boundary logs for a value that is not a `FusionError`. */
  function Wrapped(cause: Thrown): FusionError {
    FusionError("WebFormAuth did not function properly or was aborted.", Some("WebFormAuthError"), Some(403), Some(cause))
  }

  /** The value of the single output `response`: initially `{}`. */
  datatype OutputValue = EmptyObject | CookieString(raw: string) | LoginResponse(body: string)

  /** Host calls, in the order they are made. */
  datatype Effect =
    | OpenBrowser(url: string)                 // iab.open(url, '_blank')
    | SetCookie(url: string, cookie: string)   // cookieModule.setCookie(url, cookie)
    | RemoveExitListener                       // browser.removeEventListener('exit', onExit)
    | CloseBrowser                             // browser.close()
    | WriteOutput(value: OutputValue)          // this.outputs[0].value = value
    | InternalLogin                            // setFollowRedirects(false) and the device-login request
    | LogError(error: FusionError)             // logger.error(LOGGER_PREFIX, error.toString())
    | ClearCookies                             // http.clearCookies()
}
