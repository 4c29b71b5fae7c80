/**
 * The plugin object and its in-app browser session, as imperative code: the plugin's
 * `outputs[0].value` and the host calls it has made are fields that its methods update;
 * the session is an object whose event handlers move its state and call the host.
 */
module WebFormAuth {
  import opened Wrappers
  import opened Host
  import opened Settings
  import opened Cookies
  import opened SessionSpec
  import opened Lifecycle

  /** Regrouping of host-call logs, kept as a lemma so that `Authenticate` does not reason
      about sequence equality in its own, much larger, context. */
  lemma AppendTail(a: seq<Effect>, b: seq<Effect>, c: seq<Effect>)
    ensures (a + b) + c == a + (b + c)
  {
  }

  class Plugin {
    /** `this.outputs[0].value`. */
    var outputs: OutputValue
    /** The host calls made so far, oldest first. */
    var trace: seq<Effect>

    constructor()
      ensures outputs == EmptyObject && trace == []
    {
      outputs := EmptyObject;
      trace := [];
    }

    /** `authenticate()`: opens the browser, delivers the browser's events to the session
        until it settles, then runs the internal login inside the error boundary. */
    method Authenticate(data: Validation, resolver: UrlResolver, events: seq<BrowserEvent>, handshake: Handshake)
      returns (result: AuthResult)
      modifies this
      ensures var run := Authentication(data, resolver, events, handshake, old(outputs));
        && result == run.result
        && outputs == run.outputs
        && trace == old(trace) + run.effects
    {
      if data.ValidationThrew? {
        return Threw(data.error);
      }
      var config := data.config;
      var req := BaseUrlRequest(config.serverType);
      if req.None? {
        return Threw(MissingServerType);
      }
      var url := GetBaseUrl(resolver, req.value);
      trace := trace + [OpenBrowser(url)];
      var session := new BrowserSession(url, config, this);
      AwaitSession(session, events);
      if session.state.Open? {
        // The promise never settles, and neither does the call.
        return Pending;
      }
      ghost var current := outputs;
      result := Conclude(session.state, handshake);
      AppendTail(old(trace), [OpenBrowser(url)] + SessionEffects(url, session.Matcher(), events),
                 AfterSession(session.state, handshake, current).effects);
      AppendTail(old(trace), [OpenBrowser(url)], SessionEffects(url, session.Matcher(), events));
    }

    /** The `try` block after `await promise`, and its `catch`: the internal login when the
        session resolved; then a `FusionError` is logged and re-thrown, anything else is
        wrapped, logged and swallowed, and the outputs are returned. */
    method Conclude(st: SessionState, handshake: Handshake) returns (result: AuthResult)
      requires !st.Open?
      modifies this
      ensures var run := AfterSession(st, handshake, old(outputs));
        && result == run.result
        && outputs == run.outputs
        && trace == old(trace) + run.effects
    {
      var caught: Option<Thrown> := None;
      if st.Succeeded? {
        trace := trace + [InternalLogin];
        match handshake
        case Responded(body) =>
          outputs := LoginResponse(body);
          trace := trace + [WriteOutput(LoginResponse(body))];
        case HandshakeThrew(err) =>
          caught := Some(err);
      } else {
        caught := Some(Classified(if st.Failed? then st.error else AbortError));
      }
      if caught.None? {
        result := Returned(outputs);
      } else if caught.value.Classified? {
        trace := trace + [LogError(caught.value.error)];
        result := Threw(caught.value);
      } else {
        trace := trace + [LogError(Wrapped(caught.value))];
        result := Returned(outputs);
      }
    }

    /** `await promise`: the browser's events reach their listeners one at a time until
        one of them settles the promise. */
    method AwaitSession(session: BrowserSession, events: seq<BrowserEvent>)
      requires session.owner == this && session.Valid() && session.state.Open?
      modifies this, session
      ensures session.state == Outcome(session.Matcher(), events)
      ensures trace == old(trace) + SessionEffects(session.url, session.Matcher(), events)
      ensures outputs == if session.state.Succeeded? then CookieString(session.state.cookieString) else old(outputs)
    {
      ghost var names, url := session.Matcher(), session.url;
      var i := 0;
      while i < |events| && session.state.Open?
        invariant 0 <= i <= |events|
        invariant session.Valid()
        invariant session.state == Outcome(names, events[..i])
        invariant trace == old(trace) + SessionEffects(url, names, events[..i])
        invariant outputs == if session.state.Succeeded? then CookieString(session.state.cookieString) else old(outputs)
      {
        SessionStep(url, names, events, i);
        assert trace == old(trace);
        session.Deliver(events[i]);
        i := i + 1;
      }
      SessionRest(url, names, events, i);
    }

    /** `cleanup()`: clears the HTTP cookies and leaves the outputs alone. */
    method Cleanup()
      modifies this
      ensures outputs == old(outputs)
      ensures trace == old(trace) + [ClearCookies]
    {
      trace := trace + [ClearCookies];
    }
  }

  /** The browser opened by one call to `authenticate`, with the listeners it registers. */
  class BrowserSession {
    const url: string
    const config: AuthConfig
    const owner: Plugin
    /** The state of the promise the listeners settle. */
    var state: SessionState
    /** Whether the `exit` listener is still registered. */
    var exitListening: bool

    /** How `onLoadStop` judges a page load; it recomputes the names every time, always
        to the same list. */
    function Matcher(): SessionSpec.Matcher {
      PluginMatcher(config)
    }

    /** The `exit` listener is registered while the promise is open, and removed once
        the session resolved or failed on a load error. */
    predicate Valid()
      reads this
    {
      && (state.Open? ==> exitListening)
      && (state.Succeeded? || state.Failed? ==> !exitListening)
    }

    /** The promise executor: all three listeners registered, nothing settled. */
    constructor(url: string, config: AuthConfig, owner: Plugin)
      ensures this.url == url && this.config == config && this.owner == owner
      ensures state == Open && exitListening
      ensures Valid()
    {
      this.url := url;
      this.config := config;
      this.owner := owner;
      state := Open;
      exitListening := true;
    }

    /** `onExit`: rejects with the abort error, when the listener is still registered. */
    method OnExit()
      requires Valid()
      modifies this
      ensures Valid()
      ensures state == Next(Matcher(), old(state), Exit)
      ensures exitListening == old(exitListening)
    {
      if exitListening && state.Open? {
        state := Aborted;
      }
    }

    /** `onError`: removes the `exit` listener, closes the browser and rejects with a
        `WebFormAuthenticationError` carrying the event's message and code. */
    method OnLoadError(message: string, code: int)
      requires Valid()
      modifies this, owner
      ensures Valid()
      ensures state == Next(Matcher(), old(state), LoadError(message, code))
      ensures !exitListening
      ensures owner.trace == old(owner.trace) + LoadErrorEffects
      ensures owner.outputs == old(owner.outputs)
    {
      exitListening := false;
      owner.trace := owner.trace + [RemoveExitListener, CloseBrowser];
      if state.Open? {
        state := Failed(LoadFailure(message, code));
      }
    }

    /** `onLoadStop`: when some configured name matches a cookie, stores each match for the
        URL, removes the `exit` listener, closes the browser, writes the raw cookie string to
        the outputs and resolves; otherwise keeps waiting. A late page load does the same
        host calls, but cannot settle the promise again. */
    method OnLoadStop(cookieString: Option<string>)
      requires Valid()
      modifies this, owner
      ensures Valid()
      ensures state == Next(Matcher(), old(state), LoadStop(cookieString))
      ensures owner.trace == old(owner.trace) + SettleEffects(url, Matcher(), LoadStop(cookieString))
      ensures var settle := SettleOn(Matcher(), LoadStop(cookieString));
        && owner.outputs == (if settle.Succeeded? then CookieString(settle.cookieString) else old(owner.outputs))
        && exitListening == (old(exitListening) && !settle.Succeeded?)
    {
      var names := CookieNames(Some(config));
      var cookies := Match(names, cookieString);
      LoadStopStep(url, config, cookieString);
      if |cookies| > 0 {
        Resolve(cookies, cookieString.value);
      } else {
        assert old(owner.trace) + [] == old(owner.trace);
      }
    }

    /** The matched branch of `onLoadStop`: stores the cookies, removes the `exit` listener,
        closes the browser, writes the raw cookie string and resolves the promise, unless it
        has settled already. */
    method Resolve(cookies: seq<string>, raw: string)
      requires Valid()
      modifies this, owner
      ensures Valid()
      ensures state == if old(state).Open? then Succeeded(raw) else old(state)
      ensures !exitListening
      ensures owner.trace == old(owner.trace) + LoadStopEffects(url, cookies, raw)
      ensures owner.outputs == CookieString(raw)
    {
      StoreCookies(cookies);
      ghost var stored := owner.trace;
      exitListening := false;
      owner.trace := owner.trace + [RemoveExitListener, CloseBrowser];
      owner.outputs := CookieString(raw);
      owner.trace := owner.trace + [WriteOutput(CookieString(raw))];
      assert owner.trace == stored + [RemoveExitListener, CloseBrowser, WriteOutput(CookieString(raw))];
      assert owner.trace == old(owner.trace) + (SetCookies(url, cookies) + [RemoveExitListener, CloseBrowser, WriteOutput(CookieString(raw))]);
      if state.Open? {
        state := Succeeded(raw);
      }
    }

    /** The `for` loop of `onLoadStop`: `cookieModule.setCookie(url, cookie)` for each
        matched cookie, in order. */
    method StoreCookies(cookies: seq<string>)
      modifies owner
      ensures owner.trace == old(owner.trace) + SetCookies(url, cookies)
      ensures owner.outputs == old(owner.outputs)
    {
      for k := 0 to |cookies|
        invariant owner.trace == old(owner.trace) + SetCookies(url, cookies[..k])
        invariant owner.outputs == old(owner.outputs)
      {
        assert cookies[..k + 1] == cookies[..k] + [cookies[k]];
        owner.trace := owner.trace + [SetCookie(url, cookies[k])];
      }
      assert cookies[..|cookies|] == cookies;
    }

    /** Hands one browser event to its listener. Every event makes the same host calls
        whether or not the promise has settled. */
    method Deliver(ev: BrowserEvent)
      requires Valid()
      modifies this, owner
      ensures Valid()
      ensures state == Next(Matcher(), old(state), ev)
      ensures owner.trace == old(owner.trace) + SettleEffects(url, Matcher(), ev)
      ensures var settle := SettleOn(Matcher(), ev);
        owner.outputs == if ev.LoadStop? && settle.Succeeded? then CookieString(settle.cookieString) else old(owner.outputs)
    {
      match ev
      case Exit => OnExit();
      case LoadError(message, code) => OnLoadError(message, code);
      case LoadStop(cs) => OnLoadStop(cs);
    }
  }
}
