/**
 * The cookie names the plugin waits for (`getCookieNames`) and the expression in
 * `onLoadStop` that picks, from the browser's cookie string, the cookies carrying them.
 */
module Cookies {
  import opened Wrappers
  import opened JsStrings
  import opened Settings

  /** `(config || {}).cookienames || ''`. */
  function ConfiguredNames(config: Option<AuthConfig>): string {
    match config
    case None => ""
    case Some(c) => c.cookienames.GetOr("")
  }

  /** `parts.map((p) => p.trim())`. */
  function TrimEach(parts: seq<string>): (r: seq<string>)
    ensures |r| == |parts|
    ensures forall i :: 0 <= i < |parts| ==> r[i] == Trim(parts[i])
  {
    seq(|parts|, i requires 0 <= i < |parts| => Trim(parts[i]))
  }

  /** `getCookieNames(config)`: the comma-separated names, each trimmed; empty names are kept. */
  function CookieNames(config: Option<AuthConfig>): (names: seq<string>)
    ensures |names| >= 1
    ensures forall i :: 0 <= i < |names| ==> IsTrimmed(names[i])
  {
    var names := TrimEach(Split(ConfiguredNames(config), ','));
    assert forall i :: 0 <= i < |names| ==> IsTrimmed(names[i]) by {
      forall i | 0 <= i < |names| ensures IsTrimmed(names[i]) {
        assert names[i] == Trim(Split(ConfiguredNames(config), ',')[i]);
      }
    }
    names
  }

  /** One name per comma, plus one. */
  lemma CookieNamesCount(config: Option<AuthConfig>)
    ensures |CookieNames(config)| == multiset(ConfiguredNames(config))[','] + 1
  {
    var pieces := Split(ConfiguredNames(config), ',');
    SplitCount(ConfiguredNames(config), ',');
    assert |CookieNames(config)| == |TrimEach(pieces)| == |pieces|;
  }

  /** Without a configuration, or without the field, there is exactly one name, the empty one. */
  lemma CookieNamesUnset(config: Option<AuthConfig>)
    requires config.None? || config.value.cookienames.None? || config.value.cookienames == Some("")
    ensures CookieNames(config) == [""]
  {
    assert ConfiguredNames(config) == "";
    var e: string := [];
    assert e + e + e == e;
    TrimAround(e, e, e);
  }

  /** The names are the trimmed comma-free pieces whose comma-join is the configured text. */
  lemma CookieNamesArePieces(serverType: Option<string>, pieces: seq<string>)
    requires |pieces| >= 1
    requires forall i :: 0 <= i < |pieces| ==> ',' !in pieces[i]
    ensures CookieNames(Some(AuthConfig(serverType, Some(Join(pieces, ','))))) == TrimEach(pieces)
  {
    SplitJoin(pieces, ',');
  }

  /** `inAppBrowserCookieString?.split(';') || []`. */
  function Segments(raw: Option<string>): (segs: seq<string>)
    ensures raw.None? ==> segs == []
    ensures raw.Some? ==> |segs| >= 1 && Join(segs, ';') == raw.value
  {
    match raw
    case None => []
    case Some(s) => JoinSplit(s, ';'); Split(s, ';')
  }

  /** The test of the `find` callback: `cookie.trim().startsWith(cookieName)`. */
  predicate Hits(segment: string, name: string) {
    StartsWith(Trim(segment), name)
  }

  /** The index of the first trimmed segment that starts with `name`. */
  function FindFirst(trimmed: seq<string>, name: string): (k: Option<nat>)
    ensures k.Some? ==> k.value < |trimmed| && StartsWith(trimmed[k.value], name)
    ensures k.Some? ==> forall j :: 0 <= j < k.value ==> !StartsWith(trimmed[j], name)
    ensures k.None? ==> forall j :: 0 <= j < |trimmed| ==> !StartsWith(trimmed[j], name)
  {
    if trimmed == [] then None
    else if StartsWith(trimmed[0], name) then Some(0)
    else
      var rest := trimmed[1..];
      assert forall j :: 1 <= j < |trimmed| ==> trimmed[j] == rest[j - 1];
      match FindFirst(rest, name)
      case None => None
      case Some(k) => Some(k + 1)
  }

  /** `inAppBrowserCookies.find(cookie => cookie.trim().startsWith(name))?.trim()`: each
      segment is trimmed for the test, and the segment found is returned trimmed. */
  function Lookup(segs: seq<string>, name: string): Option<string> {
    var trimmed := TrimEach(segs);
    match FindFirst(trimmed, name)
    case None => None
    case Some(k) => Some(trimmed[k])
  }

  /** `cookieNames.map(...)`. */
  function LookupAll(segs: seq<string>, names: seq<string>): (found: seq<Option<string>>)
    ensures |found| == |names|
    ensures forall i :: 0 <= i < |names| ==> found[i] == Lookup(segs, names[i])
  {
    seq(|names|, i requires 0 <= i < |names| => Lookup(segs, names[i]))
  }

  /** JavaScript falsiness of a `string | undefined`. */
  predicate Falsy(v: Option<string>) {
    v == None || v == Some("")
  }

  /** `.filter((value) => !!value)`: drops `undefined` and the empty string. */
  function KeepTruthy(found: seq<Option<string>>): (kept: seq<string>)
    ensures |kept| <= |found|
    ensures forall i :: 0 <= i < |kept| ==> kept[i] != "" && Some(kept[i]) in found
  {
    if found == [] then []
    else
      var rest := KeepTruthy(found[1..]);
      if !Falsy(found[0]) then [found[0].value] + rest else rest
  }

  /** The matched cookies of one page load: the expression at lines 82-86 of `onLoadStop`. */
  function Match(names: seq<string>, raw: Option<string>): (cookies: seq<string>)
    ensures |cookies| <= |names|
    ensures forall i :: 0 <= i < |cookies| ==> cookies[i] != ""
  {
    KeepTruthy(LookupAll(Segments(raw), names))
  }

  /** The matching of `onLoadStop` as a value: the cookie string of a page load to the
      cookies it carries for `names`. */
  function CookieMatcher(names: seq<string>): Option<string> -> seq<string> {
    raw => Match(names, raw)
  }

  lemma LookupAllAppend(segs: seq<string>, a: seq<string>, b: seq<string>)
    ensures LookupAll(segs, a + b) == LookupAll(segs, a) + LookupAll(segs, b)
  {
  }

  lemma {:induction false} KeepTruthyAppend(x: seq<Option<string>>, y: seq<Option<string>>)
    ensures KeepTruthy(x + y) == KeepTruthy(x) + KeepTruthy(y)
    decreases |x|
  {
    if x != [] {
      assert (x + y)[1..] == x[1..] + y;
      KeepTruthyAppend(x[1..], y);
    } else {
      assert x + y == y;
    }
  }

  /** Each name contributes independently and in order: matching a concatenation of
      name lists concatenates the matches. */
  lemma MatchAppend(a: seq<string>, b: seq<string>, raw: Option<string>)
    ensures Match(a + b, raw) == Match(a, raw) + Match(b, raw)
  {
    LookupAllAppend(Segments(raw), a, b);
    KeepTruthyAppend(LookupAll(Segments(raw), a), LookupAll(Segments(raw), b));
  }

  /** Matching one name: its lookup, unless that is falsy. */
  lemma MatchSingle(name: string, raw: Option<string>)
    ensures var l := Lookup(Segments(raw), name);
      Match([name], raw) == if Falsy(l) then [] else [l.value]
  {
    var found := LookupAll(Segments(raw), [name]);
    assert found == [Lookup(Segments(raw), name)];
    assert found[1..] == [];
  }

  /** The lookup finds the first segment whose trimmed text starts with the name. */
  lemma LookupFirstHit(segs: seq<string>, name: string, k: nat)
    requires k < |segs| && Hits(segs[k], name)
    requires forall j :: 0 <= j < k ==> !Hits(segs[j], name)
    ensures Lookup(segs, name) == Some(Trim(segs[k]))
  {
    var trimmed := TrimEach(segs);
    assert forall j :: 0 <= j < k ==> !StartsWith(trimmed[j], name) by {
      forall j | 0 <= j < k ensures !StartsWith(trimmed[j], name) {
        assert !Hits(segs[j], name);
      }
    }
    assert StartsWith(trimmed[k], name) by {
      assert Hits(segs[k], name);
    }
    var f := FindFirst(trimmed, name);
    assert f.Some? && f.value <= k;
    assert f.value == k;
  }

  /** The lookup of a name no trimmed segment starts with finds nothing. */
  lemma LookupMiss(segs: seq<string>, name: string)
    requires forall j :: 0 <= j < |segs| ==> !Hits(segs[j], name)
    ensures Lookup(segs, name) == None
  {
    var trimmed := TrimEach(segs);
    forall j | 0 <= j < |segs| ensures !StartsWith(trimmed[j], name) {
      assert !Hits(segs[j], name);
    }
  }

  /** For a non-empty name, the first segment whose trimmed text starts with the name wins,
      and it is returned trimmed. */
  lemma MatchFirstHitWins(name: string, raw: Option<string>, k: nat)
    requires name != ""
    requires k < |Segments(raw)| && Hits(Segments(raw)[k], name)
    requires forall j :: 0 <= j < k ==> !Hits(Segments(raw)[j], name)
    ensures Match([name], raw) == [Trim(Segments(raw)[k])]
  {
    var segs := Segments(raw);
    MatchSingle(name, raw);
    LookupFirstHit(segs, name, k);
    assert Trim(segs[k]) != "" by {
      assert StartsWith(Trim(segs[k]), name);
    }
  }

  /** A name that no trimmed segment starts with contributes nothing. */
  lemma MatchMiss(name: string, raw: Option<string>)
    requires forall j :: 0 <= j < |Segments(raw)| ==> !Hits(Segments(raw)[j], name)
    ensures Match([name], raw) == []
  {
    MatchSingle(name, raw);
    LookupMiss(Segments(raw), name);
  }

  /** The empty name (left by a stray comma in `cookienames`) is a prefix of everything,
      so it selects the first segment, which counts as a match unless it is blank. */
  lemma MatchEmptyName(raw: Option<string>)
    requires raw.Some?
    ensures Match([""], raw) == (var t := Trim(Segments(raw)[0]); if t == "" then [] else [t])
  {
    var trimmed := TrimEach(Segments(raw));
    MatchSingle("", raw);
    assert StartsWith(trimmed[0], "");
    assert FindFirst(trimmed, "") == Some(0);
    assert Lookup(Segments(raw), "") == Some(Trim(Segments(raw)[0]));
  }

  /** With no cookie string there is nothing to match. */
  lemma MatchUndefined(names: seq<string>)
    ensures Match(names, None) == []
  {
    KeepTruthyEmptyIff(LookupAll([], names));
  }

  /** Every match is the trimmed text of a segment of the cookie string and starts with
      one of the configured names. */
  lemma MatchEntriesAreSegments(names: seq<string>, raw: Option<string>)
    ensures forall c :: c in Match(names, raw) ==>
      IsTrimmed(c) && c in TrimEach(Segments(raw)) && exists n :: n in names && StartsWith(c, n)
  {
    var segs := Segments(raw);
    var found := LookupAll(segs, names);
    forall c | c in Match(names, raw)
      ensures IsTrimmed(c) && c in TrimEach(segs) && exists n :: n in names && StartsWith(c, n)
    {
      var i :| 0 <= i < |found| && found[i] == Some(c);
      var k := FindFirst(TrimEach(segs), names[i]).value;
      assert c == TrimEach(segs)[k] == Trim(segs[k]);
    }
  }

  lemma {:induction false} KeepTruthyEmptyIff(found: seq<Option<string>>)
    ensures KeepTruthy(found) == [] <==> forall i :: 0 <= i < |found| ==> Falsy(found[i])
    decreases |found|
  {
    if found != [] {
      KeepTruthyEmptyIff(found[1..]);
      assert forall i :: 1 <= i < |found| ==> found[i] == found[1..][i - 1];
      if !Falsy(found[0]) {
        assert KeepTruthy(found) != [];
      }
    }
  }

  /** A name that yields nothing: no trimmed segment starts with it, or it is the empty
      name and the first segment is blank. */
  ghost predicate Misses(segs: seq<string>, name: string) {
    (forall j :: 0 <= j < |segs| ==> !Hits(segs[j], name))
    || (name == "" && |segs| > 0 && Trim(segs[0]) == "")
  }

  lemma LookupBlankIff(segs: seq<string>, name: string)
    ensures Falsy(Lookup(segs, name)) <==> Misses(segs, name)
  {
    var trimmed := TrimEach(segs);
    var f := FindFirst(trimmed, name);
    if f.Some? {
      var k := f.value;
      assert Hits(segs[k], name);
      if name == "" {
        assert StartsWith(trimmed[0], "");
        assert k == 0;
        assert Lookup(segs, name) == Some(Trim(segs[0]));
      } else {
        assert trimmed[k] != "";
        assert !Misses(segs, name);
      }
    } else {
      forall j | 0 <= j < |segs| ensures !Hits(segs[j], name) {
        assert !StartsWith(trimmed[j], name);
      }
    }
  }

  /** No cookie matches exactly when every configured name misses. */
  lemma MatchEmptyIff(names: seq<string>, raw: Option<string>)
    ensures Match(names, raw) == [] <==> forall n :: n in names ==> Misses(Segments(raw), n)
  {
    var segs := Segments(raw);
    var found := LookupAll(segs, names);
    KeepTruthyEmptyIff(found);
    forall i | 0 <= i < |names| ensures Falsy(found[i]) <==> Misses(segs, names[i]) {
      LookupBlankIff(segs, names[i]);
    }
  }
}
