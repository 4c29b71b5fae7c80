/**
 * `authenticate()` as a function of what the host supplies: the validated profile, the
 * URL resolver, the browser events, and the outcome of the internal login handshake.
 * It gives the result (returned outputs, a thrown value, or never settling), the final
 * `outputs[0].value`, and the host calls made.
 */
module Lifecycle {
  import opened Wrappers
  import opened Host
  import opened Settings
  import opened Cookies
  import opened SessionSpec

  /** What `authCommon.validateAndRequest(this)` gives: the profile data, or a thrown value. */
  datatype Validation = Validated(config: AuthConfig) | ValidationThrew(error: Thrown)

  /** Outcome of the internal login after the session resolved: `setFollowRedirects(false)`,
      `getGeneralHeader`, `generateAuthData(this, false)` and `sendDeviceLoginRequestToService`. */
  datatype Handshake = Responded(body: string) | HandshakeThrew(error: Thrown)

  /** How the call to `authenticate()` ends; `Pending` when its promise never settles. */
  datatype AuthResult = Returned(outputs: OutputValue) | Threw(error: Thrown) | Pending

  /** What the catch block does with a thrown value: the result and the error it logs. */
  datatype Caught = Caught(result: AuthResult, logged: FusionError)

  /** `data.server_type.includes(...)` on a profile without a server type. */
  const MissingServerType: Thrown := Unclassified("TypeError: Cannot read properties of undefined (reading 'includes')")

  /** The matcher of the sessions `authenticate` opens for the profile `config`. */
  function PluginMatcher(config: AuthConfig): Matcher {
    CookieMatcher(CookieNames(Some(config)))
  }

  /** A page load settles the session exactly when it yields a matched cookie: a missing
      cookie string yields none. */
  lemma ResolvesIff(names: seq<string>, cs: Option<string>)
    ensures Resolves(CookieMatcher(names), cs) <==> Match(names, cs) != []
  {
    MatchUndefined(names);
  }

  /** What one page load does, by whether some configured name matches. */
  lemma LoadStopStep(url: string, config: AuthConfig, cs: Option<string>)
    ensures var cookies := Match(CookieNames(Some(config)), cs);
      if cookies == [] then
        SettleOn(PluginMatcher(config), LoadStop(cs)) == Open && SettleEffects(url, PluginMatcher(config), LoadStop(cs)) == []
      else
        && cs.Some?
        && SettleOn(PluginMatcher(config), LoadStop(cs)) == Succeeded(cs.value)
        && SettleEffects(url, PluginMatcher(config), LoadStop(cs)) == LoadStopEffects(url, cookies, cs.value)
  {
    ResolvesIff(CookieNames(Some(config)), cs);
  }

  /** The catch block of `authenticate`: a `FusionError` is logged and re-thrown unchanged;
      anything else is wrapped (kind `WebFormAuthError`, code 403, the original nested),
      logged, and swallowed, and the outputs are returned as they stand. */
  function Catch(err: Thrown, outputs: OutputValue): (c: Caught)
    ensures c.result.Threw? <==> err.Classified?
    ensures c.result.Threw? ==> c.result.error == err
    ensures c.result.Returned? ==> c.result.outputs == outputs
    ensures !c.result.Pending?
    ensures err.Classified? ==> c.logged == err.error
    ensures err.Unclassified? ==>
      c.logged.kind == Some("WebFormAuthError") && c.logged.code == Some(403) && c.logged.nested == Some(err)
  {
    match err
    case Classified(e) => Caught(Threw(err), e)
    case Unclassified(_) => Caught(Returned(outputs), Wrapped(err))
  }

  /** The rejection value of a rejected session. */
  function Rejection(st: SessionState): FusionError
    requires st.Failed? || st.Aborted?
  {
    if st.Failed? then st.error else AbortError
  }

  datatype Run = Run(result: AuthResult, outputs: OutputValue, effects: seq<Effect>)

  /** `authenticate()`, started with `outputs[0].value` equal to `prior`. */
  function Authentication(data: Validation, resolver: UrlResolver, events: seq<BrowserEvent>,
                          handshake: Handshake, prior: OutputValue): Run
  {
    match data
    case ValidationThrew(err) => Run(Threw(err), prior, [])
    case Validated(config) =>
      match BaseUrlRequest(config.serverType)
      case None => Run(Threw(MissingServerType), prior, [])
      case Some(req) =>
        var url := GetBaseUrl(resolver, req);
        var m := PluginMatcher(config);
        var session := [OpenBrowser(url)] + SessionEffects(url, m, events);
        var st := Outcome(m, events);
        if st.Open? then
          Run(Pending, prior, session)
        else
          var after := AfterSession(st, handshake, if st.Succeeded? then CookieString(st.cookieString) else prior);
          Run(after.result, after.outputs, session + after.effects)
  }

  /** The `try` block once the promise settled, with its `catch`: `current` is
      `outputs[0].value` at that point, and the effects are the host calls it adds. */
  function AfterSession(st: SessionState, handshake: Handshake, current: OutputValue): (run: Run)
    requires !st.Open?
    ensures !run.result.Pending?
    ensures run.result.Returned? ==> run.result.outputs == run.outputs
    ensures run.outputs != current ==> st.Succeeded? && handshake.Responded?
  {
    if st.Succeeded? then
      match handshake
      case Responded(body) =>
        Run(Returned(LoginResponse(body)), LoginResponse(body), [InternalLogin, WriteOutput(LoginResponse(body))])
      case HandshakeThrew(err) =>
        var c := Catch(err, current);
        Run(c.result, current, [InternalLogin, LogError(c.logged)])
    else
      var c := Catch(Classified(Rejection(st)), current);
      Run(c.result, current, [LogError(c.logged)])
  }

  /** Errors before the `try` escape as they are: a failed validation, and the TypeError of
      a profile without a server type, which is not a `FusionError`. */
  lemma SetupErrorsEscape(data: Validation, resolver: UrlResolver, events: seq<BrowserEvent>,
                          handshake: Handshake, prior: OutputValue)
    requires data.ValidationThrew? || data.config.serverType.None?
    ensures var run := Authentication(data, resolver, events, handshake, prior);
      && run.result == Threw(if data.ValidationThrew? then data.error else MissingServerType)
      && run.outputs == prior && run.effects == []
  {
  }

  /** Once the browser was opened, whatever `authenticate()` throws is a `FusionError`:
      a session rejection or a classified handshake failure. */
  lemma ThrownAfterSetupIsClassified(config: AuthConfig, resolver: UrlResolver, events: seq<BrowserEvent>,
                                     handshake: Handshake, prior: OutputValue)
    requires config.serverType.Some?
    ensures var run := Authentication(Validated(config), resolver, events, handshake, prior);
      run.result.Threw? ==> run.result.error.Classified?
  {
  }

  /** A rejected session (load error or exit) makes `authenticate()` throw that rejection,
      with `outputs[0].value` untouched and nothing returned. */
  lemma RejectionIsRethrown(config: AuthConfig, resolver: UrlResolver, events: seq<BrowserEvent>,
                            handshake: Handshake, prior: OutputValue)
    requires config.serverType.Some?
    requires Outcome(PluginMatcher(config), events).Failed? || Outcome(PluginMatcher(config), events).Aborted?
    ensures var run := Authentication(Validated(config), resolver, events, handshake, prior);
      && run.result == Threw(Classified(Rejection(Outcome(PluginMatcher(config), events))))
      && run.outputs == prior
  {
  }

  /** An unclassified handshake failure is swallowed: `authenticate()` returns the outputs
      still holding the raw cookie string the session wrote, and logs a 403 `WebFormAuthError`. */
  lemma HandshakeFailureKeepsCookieString(config: AuthConfig, resolver: UrlResolver, events: seq<BrowserEvent>,
                                          failure: string, prior: OutputValue)
    requires config.serverType.Some?
    requires Outcome(PluginMatcher(config), events).Succeeded?
    ensures var cs := Outcome(PluginMatcher(config), events).cookieString;
      var run := Authentication(Validated(config), resolver, events, HandshakeThrew(Unclassified(failure)), prior);
      && run.result == Returned(CookieString(cs))
      && run.outputs == CookieString(cs)
      && run.effects[|run.effects| - 1] == LogError(Wrapped(Unclassified(failure)))
  {
  }

  /** A resolved session followed by a successful handshake returns the handshake's response. */
  lemma LoginReturnsResponse(config: AuthConfig, resolver: UrlResolver, events: seq<BrowserEvent>,
                             body: string, prior: OutputValue)
    requires config.serverType.Some?
    requires Outcome(PluginMatcher(config), events).Succeeded?
    ensures var run := Authentication(Validated(config), resolver, events, Responded(body), prior);
      run.result == Returned(LoginResponse(body)) && run.outputs == LoginResponse(body)
  {
  }

  /** `authenticate()` never settles exactly when every event so far was a page load without
      a matching cookie; it then has only opened the browser. */
  lemma PendingIff(config: AuthConfig, resolver: UrlResolver, events: seq<BrowserEvent>,
                   handshake: Handshake, prior: OutputValue)
    requires config.serverType.Some?
    ensures var run := Authentication(Validated(config), resolver, events, handshake, prior);
      && (run.result.Pending? <==>
            forall j :: 0 <= j < |events| ==>
              events[j].LoadStop? && Match(CookieNames(Some(config)), events[j].cookieString) == [])
      && (run.result.Pending? ==> run.effects == [OpenBrowser(GetBaseUrl(resolver, BaseUrlRequest(config.serverType).value))] && run.outputs == prior)
  {
    var names := CookieNames(Some(config));
    OpenIff(PluginMatcher(config), events);
    forall j | 0 <= j < |events| && events[j].LoadStop?
      ensures Resolves(PluginMatcher(config), events[j].cookieString) <==> Match(names, events[j].cookieString) != []
    {
      ResolvesIff(names, events[j].cookieString);
    }
  }
}
