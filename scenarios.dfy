/**
 * Concrete runs of the model: the default cookie name, a page load carrying the session
 * cookie among others, a retry over an intermediate page, a load error, the user closing
 * the browser, and a login request failing after the session resolved.
 */
module Scenarios {
  import opened Wrappers
  import opened JsStrings
  import opened Host
  import opened Settings
  import opened Cookies
  import opened SessionSpec
  import opened Lifecycle

  const SessionCookie := "SAP_SESSIONID=abc123"
  const Reported := "SAP_SESSIONID=abc123; other=x"

  /** A `cookienames` setting without commas or surrounding white space is one name. */
  lemma SingleName(serverType: Option<string>, name: string)
    requires ',' !in name && IsTrimmed(name)
    ensures CookieNames(Some(AuthConfig(serverType, Some(name)))) == [name]
  {
    assert Join([name], ',') == name;
    CookieNamesArePieces(serverType, [name]);
    TrimKeepsTrimmed(name);
  }

  /** The first segment of a cookie string is its text up to the first `;`. */
  lemma HeadSegment(cookie: string, rest: string)
    requires ';' !in cookie
    ensures Segments(Some(cookie + [';'] + rest))[0] == cookie
  {
    var tail := Split(rest, ';');
    JoinSplit(rest, ';');
    JoinCons(cookie, tail, ';');
    SplitJoin([cookie] + tail, ';');
  }

  /** A trimmed first segment starting with the name is the match, whatever follows it. */
  lemma FirstSegmentHit(name: string, cookie: string, rest: string)
    requires name != "" && ';' !in cookie && IsTrimmed(cookie) && StartsWith(cookie, name)
    ensures Match([name], Some(cookie + [';'] + rest)) == [cookie]
  {
    var raw := Some(cookie + [';'] + rest);
    HeadSegment(cookie, rest);
    TrimKeepsTrimmed(cookie);
    assert Hits(Segments(raw)[0], name);
    MatchFirstHitWins(name, raw, 0);
  }

  /** A string without `;` is a single segment. */
  lemma OneSegment(cookie: string)
    requires ';' !in cookie
    ensures Segments(Some(cookie)) == [cookie]
  {
    assert Join([cookie], ';') == cookie;
    SplitJoin([cookie], ';');
  }

  /** A cookie string of one trimmed segment not starting with the name matches nothing. */
  lemma SingleSegmentMiss(name: string, cookie: string)
    requires ';' !in cookie && IsTrimmed(cookie) && !StartsWith(cookie, name)
    ensures Match([name], Some(cookie)) == []
  {
    TrimKeepsTrimmed(cookie);
    assert !Hits(cookie, name);
    OneSegment(cookie);
    MatchMiss(name, Some(cookie));
  }

  /** Under the plugin's matcher for a single name, a page load whose only segment lacks
      the name leaves the session open and does nothing. */
  lemma PageMisses(url: string, serverType: Option<string>, name: string, other: string)
    requires ',' !in name && IsTrimmed(name)
    requires ';' !in other && IsTrimmed(other) && !StartsWith(other, name)
    ensures var m := PluginMatcher(AuthConfig(serverType, Some(name)));
      SettleOn(m, LoadStop(Some(other))) == Open && SettleEffects(url, m, LoadStop(Some(other))) == []
  {
    SingleName(serverType, name);
    SingleSegmentMiss(name, other);
    LoadStopStep(url, AuthConfig(serverType, Some(name)), Some(other));
  }

  /** Under the plugin's matcher for a single name, a page load whose first segment carries
      it resolves the session on the whole cookie string, storing that one cookie. */
  lemma PageHits(url: string, serverType: Option<string>, name: string, cookie: string, rest: string)
    requires name != "" && ',' !in name && IsTrimmed(name)
    requires ';' !in cookie && IsTrimmed(cookie) && StartsWith(cookie, name)
    ensures var m, raw := PluginMatcher(AuthConfig(serverType, Some(name))), cookie + [';'] + rest;
      && SettleOn(m, LoadStop(Some(raw))) == Succeeded(raw)
      && SettleEffects(url, m, LoadStop(Some(raw))) ==
           [SetCookie(url, cookie), RemoveExitListener, CloseBrowser, WriteOutput(CookieString(raw))]
  {
    var raw := cookie + [';'] + rest;
    NamesHit(serverType, name, cookie, rest);
    LoadStopStep(url, AuthConfig(serverType, Some(name)), Some(raw));
    OneCookieEffects(url, cookie, raw);
  }

  lemma NamesHit(serverType: Option<string>, name: string, cookie: string, rest: string)
    requires name != "" && ',' !in name && IsTrimmed(name)
    requires ';' !in cookie && IsTrimmed(cookie) && StartsWith(cookie, name)
    ensures Match(CookieNames(Some(AuthConfig(serverType, Some(name)))), Some(cookie + [';'] + rest)) == [cookie]
  {
    SingleName(serverType, name);
    FirstSegmentHit(name, cookie, rest);
  }

  lemma OneCookieEffects(url: string, cookie: string, raw: string)
    ensures LoadStopEffects(url, [cookie], raw) ==
      [SetCookie(url, cookie), RemoveExitListener, CloseBrowser, WriteOutput(CookieString(raw))]
  {
    assert SetCookies(url, [cookie]) == [SetCookie(url, cookie)];
  }

  /** Two page loads where only the second resolves: the session is open after the first,
      and the effects are those of the second alone. */
  lemma RetryThenSettle(url: string, m: Matcher, first: BrowserEvent, second: BrowserEvent)
    requires SettleOn(m, first).Open?
    ensures Outcome(m, [first]).Open?
    ensures Outcome(m, [first, second]) == SettleOn(m, second)
    ensures SessionEffects(url, m, [first, second]) ==
      if SettleOn(m, second).Open? then [] else SettleEffects(url, m, second)
  {
    SingleEvent(url, m, first);
    SingleEvent(url, m, second);
    assert [first, second] == [first] + [second];
    OutcomeAppend(m, [first], [second]);
    SessionEffectsAppend(url, m, [first], [second]);
  }

  /** A page load whose only segment lacks the name, then one whose first segment carries
      it: the session stays open after the first and resolves with the whole second cookie
      string, having stored the cookie, removed the `exit` listener and closed the browser,
      in that order. */
  lemma RetryThenResolveWith(url: string, serverType: Option<string>, name: string,
                             other: string, cookie: string, rest: string)
    requires name != "" && ',' !in name && IsTrimmed(name)
    requires ';' !in other && IsTrimmed(other) && !StartsWith(other, name)
    requires ';' !in cookie && IsTrimmed(cookie) && StartsWith(cookie, name)
    ensures var m, raw := PluginMatcher(AuthConfig(serverType, Some(name))), cookie + [';'] + rest;
      && Outcome(m, [LoadStop(Some(other))]) == Open
      && Outcome(m, [LoadStop(Some(other)), LoadStop(Some(raw))]) == Succeeded(raw)
      && SessionEffects(url, m, [LoadStop(Some(other)), LoadStop(Some(raw))]) ==
           [SetCookie(url, cookie), RemoveExitListener, CloseBrowser, WriteOutput(CookieString(raw))]
  {
    var m, raw := PluginMatcher(AuthConfig(serverType, Some(name))), cookie + [';'] + rest;
    PageMisses(url, serverType, name, other);
    PageHits(url, serverType, name, cookie, rest);
    RetryThenSettle(url, m, LoadStop(Some(other)), LoadStop(Some(raw)));
  }

  /** A load error makes `authenticate()` throw a classified error with the event's code
      and message, after closing the browser exactly once, with the outputs untouched. */
  lemma LoadErrorScenario(config: AuthConfig, resolver: UrlResolver, message: string, code: int,
                          handshake: Handshake, prior: OutputValue)
    requires config.serverType.Some?
    ensures var run := Authentication(Validated(config), resolver, [LoadError(message, code)], handshake, prior);
      && run.result.Threw? && run.result.error.Classified?
      && run.result.error.error.code == Some(code) && run.result.error.error.message == message
      && run.outputs == prior
      && exists i :: ClosedOnlyAt(run.effects, i)
  {
    var m := PluginMatcher(config);
    var url := GetBaseUrl(resolver, BaseUrlRequest(config.serverType).value);
    SingleEvent(url, m, LoadError(message, code));
    var run := Authentication(Validated(config), resolver, [LoadError(message, code)], handshake, prior);
    assert run.effects == [OpenBrowser(url), RemoveExitListener, CloseBrowser, LogError(LoadFailure(message, code))];
    assert ClosedOnlyAt(run.effects, 2);
  }

  /** The user closing the browser while the session is open makes `authenticate()` throw
      the abort error, having written no output and closed nothing. */
  lemma ExitScenario(config: AuthConfig, resolver: UrlResolver, handshake: Handshake, prior: OutputValue)
    requires config.serverType.Some?
    ensures var run := Authentication(Validated(config), resolver, [Exit], handshake, prior);
      && run.result == Threw(Classified(AbortError))
      && run.outputs == prior
      && CloseBrowser !in run.effects
      && forall v :: WriteOutput(v) !in run.effects
  {
    var url := GetBaseUrl(resolver, BaseUrlRequest(config.serverType).value);
    SingleEvent(url, PluginMatcher(config), Exit);
    var run := Authentication(Validated(config), resolver, [Exit], handshake, prior);
    assert run.effects == [OpenBrowser(url), LogError(AbortError)];
  }

  /** A plain value thrown by the login request after the session resolved is swallowed:
      `authenticate()` returns, and the output still holds the reported cookie string. */
  lemma HandshakeFailureWith(resolver: UrlResolver, serverType: string, name: string, cookie: string,
                             rest: string, failure: string, prior: OutputValue)
    requires name != "" && ',' !in name && IsTrimmed(name)
    requires ';' !in cookie && IsTrimmed(cookie) && StartsWith(cookie, name)
    ensures var raw := cookie + [';'] + rest;
      var run := Authentication(Validated(AuthConfig(Some(serverType), Some(name))), resolver, [LoadStop(Some(raw))],
                                HandshakeThrew(Unclassified(failure)), prior);
      && run.result == Returned(CookieString(raw))
      && run.effects[|run.effects| - 1] == LogError(Wrapped(Unclassified(failure)))
  {
    var config, raw := AuthConfig(Some(serverType), Some(name)), cookie + [';'] + rest;
    var url := GetBaseUrl(resolver, BaseUrlRequest(config.serverType).value);
    PageHits(url, Some(serverType), name, cookie, rest);
    SingleEvent(url, PluginMatcher(config), LoadStop(Some(raw)));
    HandshakeFailureKeepsCookieString(config, resolver, [LoadStop(Some(raw))], failure, prior);
  }

  lemma NameFacts()
    ensures "SAP_SESSIONID" != "" && ',' !in "SAP_SESSIONID" && IsTrimmed("SAP_SESSIONID")
  {
  }

  lemma CookieFacts()
    ensures ';' !in SessionCookie && IsTrimmed(SessionCookie) && StartsWith(SessionCookie, "SAP_SESSIONID")
    ensures Reported == SessionCookie + [';'] + " other=x"
  {
  }

  lemma OtherFacts()
    ensures ';' !in "other=y" && IsTrimmed("other=y") && !StartsWith("other=y", "SAP_SESSIONID")
  {
  }

  /** With the default name, `"SAP_SESSIONID=abc123; other=x"` yields the one cookie
      `"SAP_SESSIONID=abc123"`; after a page reporting only `"other=y"` the session resolves
      on it, storing that cookie and keeping the whole string. */
  lemma SapSessionScenario(url: string)
    ensures Match(["SAP_SESSIONID"], Some(Reported)) == [SessionCookie]
    ensures var m := PluginMatcher(AuthConfig(Some("dataServer"), Some("SAP_SESSIONID")));
      && Outcome(m, [LoadStop(Some("other=y"))]) == Open
      && Outcome(m, [LoadStop(Some("other=y")), LoadStop(Some(Reported))]) == Succeeded(Reported)
      && SessionEffects(url, m, [LoadStop(Some("other=y")), LoadStop(Some(Reported))]) ==
           [SetCookie(url, SessionCookie), RemoveExitListener, CloseBrowser, WriteOutput(CookieString(Reported))]
  {
    NameFacts();
    CookieFacts();
    OtherFacts();
    FirstSegmentHit("SAP_SESSIONID", SessionCookie, " other=x");
    RetryThenResolveWith(url, Some("dataServer"), "SAP_SESSIONID", "other=y", SessionCookie, " other=x");
  }

  /** A login request timing out after the session resolved on
      `"SAP_SESSIONID=abc123; other=x"` leaves that string as the returned output. */
  lemma TimeoutScenario(resolver: UrlResolver, prior: OutputValue)
    ensures var run := Authentication(Validated(AuthConfig(Some("dataServer"), Some("SAP_SESSIONID"))), resolver,
                                      [LoadStop(Some(Reported))], HandshakeThrew(Unclassified("timeout")), prior);
      run.result == Returned(CookieString(Reported))
  {
    NameFacts();
    CookieFacts();
    HandshakeFailureWith(resolver, "dataServer", "SAP_SESSIONID", SessionCookie, " other=x", "timeout", prior);
  }
}
