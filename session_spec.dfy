/**
 * The browser session of `authenticate` as a state machine: the promise built around the
 * `exit`, `loaderror` and `loadstop` listeners, which settles at most once.
 * Events are delivered one after another; `loadstop` carries the cookie string the browser
 * reports for the target URL.
 */
module SessionSpec {
  import opened Wrappers
  import opened Host

  /** How a page load is judged: the cookies picked from the cookie string it reports. */
  type Matcher = Option<string> -> seq<string>

  datatype BrowserEvent =
    | Exit
    | LoadError(message: string, code: int)
    | LoadStop(cookieString: Option<string>)

  /** Open until the promise settles: resolved (Succeeded) or rejected (Failed, Aborted). */
  datatype SessionState = Open | Succeeded(cookieString: string) | Failed(error: FusionError) | Aborted

  /** A page load whose cookie string yields at least one cookie. Without a cookie string
      nothing can be picked, so the matcher is only asked about a string. */
  predicate Resolves(m: Matcher, cookieString: Option<string>) {
    cookieString.Some? && m(cookieString) != []
  }

  /** The state a still-open session moves to on one event; `Open` when it keeps waiting. */
  function SettleOn(m: Matcher, ev: BrowserEvent): (st: SessionState)
    ensures st.Succeeded? <==> ev.LoadStop? && Resolves(m, ev.cookieString)
    ensures st.Succeeded? ==> ev.cookieString == Some(st.cookieString)
    ensures st.Open? <==> ev.LoadStop? && !Resolves(m, ev.cookieString)
  {
    match ev
    case Exit => Aborted
    case LoadError(message, code) => Failed(LoadFailure(message, code))
    case LoadStop(cs) => if Resolves(m, cs) then Succeeded(cs.value) else Open
  }

  /** One event: only an open session can settle; a settled promise ignores later settlements. */
  function Next(m: Matcher, st: SessionState, ev: BrowserEvent): SessionState {
    if st.Open? then SettleOn(m, ev) else st
  }

  /** The state after a sequence of events, one `Next` at a time. */
  function After(m: Matcher, st: SessionState, events: seq<BrowserEvent>): SessionState
    decreases |events|
  {
    if events == [] then st else After(m, Next(m, st, events[0]), events[1..])
  }

  /** The state each event would move an open session to. */
  function Transitions(m: Matcher, events: seq<BrowserEvent>): (states: seq<SessionState>)
    ensures |states| == |events|
    ensures forall i :: 0 <= i < |events| ==> states[i] == SettleOn(m, events[i])
  {
    seq(|events|, i requires 0 <= i < |events| => SettleOn(m, events[i]))
  }

  /** The index of the first state that is not `Open`, if any. */
  function FirstSettled(states: seq<SessionState>): (k: Option<nat>)
    ensures k.Some? ==> k.value < |states| && !states[k.value].Open?
    ensures k.Some? ==> forall j :: 0 <= j < k.value ==> states[j].Open?
    ensures k.None? ==> forall j :: 0 <= j < |states| ==> states[j].Open?
  {
    if states == [] then None
    else if !states[0].Open? then Some(0)
    else
      var rest := states[1..];
      assert forall j :: 1 <= j < |states| ==> states[j] == rest[j - 1];
      match FirstSettled(rest)
      case None => None
      case Some(k) => Some(k + 1)
  }

  /** The index of the first event that settles an open session, if any. */
  function FirstSettling(m: Matcher, events: seq<BrowserEvent>): Option<nat> {
    FirstSettled(Transitions(m, events))
  }

  /** The settlement of the session: decided by the first settling event alone. */
  function Outcome(m: Matcher, events: seq<BrowserEvent>): SessionState {
    var states := Transitions(m, events);
    match FirstSettled(states)
    case None => Open
    case Some(k) => states[k]
  }

  /** Once settled, no later event changes the settlement. */
  lemma {:induction false} SettledStays(m: Matcher, st: SessionState, events: seq<BrowserEvent>)
    requires !st.Open?
    ensures After(m, st, events) == st
    decreases |events|
  {
    if events != [] {
      SettledStays(m, st, events[1..]);
    }
  }

  /** Running the events one at a time gives the settlement of the first settling event. */
  lemma {:induction false} AfterIsOutcome(m: Matcher, events: seq<BrowserEvent>)
    ensures After(m, Open, events) == Outcome(m, events)
    decreases |events|
  {
    if events != [] {
      var st := SettleOn(m, events[0]);
      if st.Open? {
        AfterIsOutcome(m, events[1..]);
        assert Transitions(m, events) == [st] + Transitions(m, events[1..]);
        assert forall j :: 1 <= j < |events| ==> events[j] == events[1..][j - 1];
      } else {
        SettledStays(m, st, events[1..]);
        assert Transitions(m, events)[0] == st;
      }
    }
  }

  lemma {:induction false} FirstSettledAppend(a: seq<SessionState>, b: seq<SessionState>)
    ensures FirstSettled(a + b) ==
      match FirstSettled(a)
      case Some(k) => Some(k)
      case None =>
        match FirstSettled(b)
        case None => None
        case Some(k) => Some(|a| + k)
    decreases |a|
  {
    if a == [] {
      assert a + b == b;
    } else {
      var t := a + b;
      assert t[0] == a[0] && t[1..] == a[1..] + b;
      FirstSettledAppend(a[1..], b);
      if a[0].Open? {
        assert FirstSettled(t) == match FirstSettled(t[1..]) case None => None case Some(k) => Some(k + 1);
        assert FirstSettled(a) == match FirstSettled(a[1..]) case None => None case Some(k) => Some(k + 1);
      }
    }
  }

  /** The first settlement wins: events after it, however many, change nothing. */
  lemma OutcomeAppend(m: Matcher, a: seq<BrowserEvent>, b: seq<BrowserEvent>)
    ensures Outcome(m, a + b) == if Outcome(m, a).Open? then Outcome(m, b) else Outcome(m, a)
  {
    var ta, tb := Transitions(m, a), Transitions(m, b);
    TransitionsAppend(m, a, b);
    FirstSettledAppend(ta, tb);
    var t := ta + tb;
    match FirstSettled(ta)
    case Some(k) => assert t[k] == ta[k];
    case None =>
      match FirstSettled(tb)
      case None =>
      case Some(k) => assert t[|a| + k] == tb[k];
  }

  lemma TransitionsAppend(m: Matcher, a: seq<BrowserEvent>, b: seq<BrowserEvent>)
    ensures Transitions(m, a + b) == Transitions(m, a) + Transitions(m, b)
  {
    var t, ta, tb := Transitions(m, a + b), Transitions(m, a), Transitions(m, b);
    forall i | 0 <= i < |a + b| ensures t[i] == (ta + tb)[i] {
      if i < |a| {
        assert (a + b)[i] == a[i];
      } else {
        assert (a + b)[i] == b[i - |a|];
      }
    }
  }

  /** The session is still open exactly when no event so far settles it: every page load
      so far lacked a matching cookie. */
  lemma OpenIff(m: Matcher, events: seq<BrowserEvent>)
    ensures Outcome(m, events).Open? <==>
      forall j :: 0 <= j < |events| ==> events[j].LoadStop? && !Resolves(m, events[j].cookieString)
  {
    var k := FirstSettling(m, events);
    if k.Some? {
      assert !(events[k.value].LoadStop? && !Resolves(m, events[k.value].cookieString));
    }
  }

  /** `cookieModule.setCookie(url, c)` for every matched cookie, in order. */
  function SetCookies(url: string, cookies: seq<string>): (effects: seq<Effect>)
    ensures |effects| == |cookies|
    ensures forall i :: 0 <= i < |cookies| ==> effects[i] == SetCookie(url, cookies[i])
  {
    seq(|cookies|, i requires 0 <= i < |cookies| => SetCookie(url, cookies[i]))
  }

  /** Host calls of a `loadstop` with matched cookies. */
  function LoadStopEffects(url: string, cookies: seq<string>, cookieString: string): seq<Effect> {
    SetCookies(url, cookies) + [RemoveExitListener, CloseBrowser, WriteOutput(CookieString(cookieString))]
  }

  /** Host calls of a `loaderror`. */
  const LoadErrorEffects: seq<Effect> := [RemoveExitListener, CloseBrowser]

  /** Host calls of one event delivered to an open session. */
  function SettleEffects(url: string, m: Matcher, ev: BrowserEvent): seq<Effect> {
    match ev
    case Exit => []
    case LoadError(_, _) => LoadErrorEffects
    case LoadStop(cs) => if Resolves(m, cs) then LoadStopEffects(url, m(cs), cs.value) else []
  }

  /** Host calls of a whole session: those of its settling event, since waiting costs nothing. */
  function SessionEffects(url: string, m: Matcher, events: seq<BrowserEvent>): seq<Effect> {
    match FirstSettling(m, events)
    case None => []
    case Some(k) => SettleEffects(url, m, events[k])
  }

  /** The first settling event of `a + b`: the one of `a`, or failing that the one of `b`. */
  lemma FirstSettlingAppend(m: Matcher, a: seq<BrowserEvent>, b: seq<BrowserEvent>)
    ensures FirstSettling(m, a + b) ==
      match FirstSettling(m, a)
      case Some(k) => Some(k)
      case None =>
        match FirstSettling(m, b)
        case None => None
        case Some(k) => Some(|a| + k)
  {
    var ta, tb := Transitions(m, a), Transitions(m, b);
    TransitionsAppend(m, a, b);
    FirstSettledAppend(ta, tb);
    assert FirstSettling(m, a + b) == FirstSettled(ta + tb);
  }

  /** The settlement is that of the first settling event, or `Open` when there is none. */
  lemma OutcomeBySettling(m: Matcher, events: seq<BrowserEvent>)
    ensures FirstSettling(m, events).Some? ==> FirstSettling(m, events).value < |events|
    ensures Outcome(m, events) ==
      match FirstSettling(m, events)
      case None => Open
      case Some(k) => SettleOn(m, events[k])
  {
  }

  lemma SettledEffectsAppend(url: string, m: Matcher, a: seq<BrowserEvent>, b: seq<BrowserEvent>)
    requires FirstSettling(m, a).Some?
    ensures !Outcome(m, a).Open?
    ensures SessionEffects(url, m, a + b) == SessionEffects(url, m, a)
  {
    FirstSettlingAppend(m, a, b);
    OutcomeBySettling(m, a);
    var k := FirstSettling(m, a).value;
    assert (a + b)[k] == a[k];
    assert !SettleOn(m, a[k]).Open?;
  }

  lemma OpenEffectsAppend(url: string, m: Matcher, a: seq<BrowserEvent>, b: seq<BrowserEvent>)
    requires FirstSettling(m, a).None?
    ensures Outcome(m, a).Open?
    ensures SessionEffects(url, m, a + b) == SessionEffects(url, m, b)
  {
    FirstSettlingAppend(m, a, b);
    OutcomeBySettling(m, a);
    match FirstSettling(m, b)
    case None =>
      assert FirstSettling(m, a + b) == None;
    case Some(k) =>
      assert FirstSettling(m, a + b) == Some(|a| + k);
      assert (a + b)[|a| + k] == b[k];
      assert SessionEffects(url, m, a + b) == SettleEffects(url, m, b[k]) == SessionEffects(url, m, b);
  }

  /** The host calls of a session are those of the first settling event, whatever follows. */
  lemma SessionEffectsAppend(url: string, m: Matcher, a: seq<BrowserEvent>, b: seq<BrowserEvent>)
    ensures SessionEffects(url, m, a + b) ==
      if Outcome(m, a).Open? then SessionEffects(url, m, b) else SessionEffects(url, m, a)
  {
    if FirstSettling(m, a).Some? {
      SettledEffectsAppend(url, m, a, b);
    } else {
      OpenEffectsAppend(url, m, a, b);
    }
  }

  /** A session of one event. */
  lemma SingleEvent(url: string, m: Matcher, ev: BrowserEvent)
    ensures Outcome(m, [ev]) == SettleOn(m, ev)
    ensures SessionEffects(url, m, [ev]) == if SettleOn(m, ev).Open? then [] else SettleEffects(url, m, ev)
  {
    assert Transitions(m, [ev]) == [SettleOn(m, ev)];
  }

  /** One more event for a session still open after `events[..i]`: it settles on that
      event alone, and the host calls so far are that event's. */
  lemma SessionStep(url: string, m: Matcher, events: seq<BrowserEvent>, i: nat)
    requires i < |events| && Outcome(m, events[..i]).Open?
    ensures SessionEffects(url, m, events[..i]) == []
    ensures Outcome(m, events[..i + 1]) == SettleOn(m, events[i])
    ensures SessionEffects(url, m, events[..i + 1]) == SettleEffects(url, m, events[i])
  {
    assert events[..i + 1] == events[..i] + [events[i]];
    OutcomeAppend(m, events[..i], [events[i]]);
    SessionEffectsAppend(url, m, events[..i], [events[i]]);
    SingleEvent(url, m, events[i]);
  }

  /** Once `events[..i]` settled the session, the rest of the events change nothing. */
  lemma SessionRest(url: string, m: Matcher, events: seq<BrowserEvent>, i: nat)
    requires i <= |events|
    requires i < |events| ==> !Outcome(m, events[..i]).Open?
    ensures Outcome(m, events) == Outcome(m, events[..i])
    ensures SessionEffects(url, m, events) == SessionEffects(url, m, events[..i])
  {
    assert events == events[..i] + events[i..];
    OutcomeAppend(m, events[..i], events[i..]);
    SessionEffectsAppend(url, m, events[..i], events[i..]);
  }

  /** A page load without a matching cookie calls nothing, closes nothing, writes nothing. */
  lemma WaitingIsSilent(url: string, m: Matcher, ev: BrowserEvent)
    requires SettleOn(m, ev).Open?
    ensures SettleEffects(url, m, ev) == []
  {
  }

  /** The browser is closed at position `i` of `effects` and nowhere else. */
  ghost predicate ClosedOnlyAt(effects: seq<Effect>, i: int) {
    0 <= i < |effects| && forall j :: 0 <= j < |effects| ==> (effects[j] == CloseBrowser <==> j == i)
  }

  /** On a successful page load every matched cookie is stored, in order; then the `exit`
      listener is removed, the browser closed once, and the raw string written. */
  lemma LoadStopEffectsOrder(url: string, cookies: seq<string>, cookieString: string)
    ensures var e := LoadStopEffects(url, cookies, cookieString);
      && |e| == |cookies| + 3
      && e[..|cookies|] == SetCookies(url, cookies)
      && e[|cookies|] == RemoveExitListener
      && (forall j :: 0 <= j < |e| ==> (e[j] == CloseBrowser <==> j == |cookies| + 1))
      && e[|cookies| + 2] == WriteOutput(CookieString(cookieString))
  {
    var e := LoadStopEffects(url, cookies, cookieString);
    var sc := SetCookies(url, cookies);
    assert e[..|cookies|] == sc;
    forall j | 0 <= j < |cookies| ensures e[j] != CloseBrowser {
      assert e[j] == sc[j];
    }
  }

  /** The browser is closed exactly once on success and on a load error, and not at all
      on exit or while waiting. */
  lemma CloseOnce(url: string, m: Matcher, ev: BrowserEvent)
    ensures var e := SettleEffects(url, m, ev);
      if SettleOn(m, ev).Succeeded? || SettleOn(m, ev).Failed? then exists i :: ClosedOnlyAt(e, i)
      else CloseBrowser !in e
  {
    var e := SettleEffects(url, m, ev);
    if ev.LoadStop? && Resolves(m, ev.cookieString) {
      var cookies := m(ev.cookieString);
      LoadStopEffectsOrder(url, cookies, ev.cookieString.value);
      assert ClosedOnlyAt(e, |cookies| + 1);
    } else if ev.LoadError? {
      assert ClosedOnlyAt(e, 1);
    }
  }
}
