/**
 * The few ECMAScript string operations the plugin relies on:
 * String.prototype.trim, split with a one-character separator, startsWith and includes.
 * Strings are sequences of characters; JavaScript's UTF-16 code units are not distinguished
 * from code points.
 */
module JsStrings {

  /** WhiteSpace or LineTerminator in ECMAScript: the characters `trim` removes. */
  predicate IsJsSpace(c: char) {
    c == '\t' || c == '\n' || c == '\U{B}' || c == '\U{C}' || c == '\r' || c == ' '
    || c == '\U{A0}' || c == '\U{1680}' || ('\U{2000}' <= c <= '\U{200A}')
    || c == '\U{2028}' || c == '\U{2029}' || c == '\U{202F}' || c == '\U{205F}'
    || c == '\U{3000}' || c == '\U{FEFF}'
  }

  ghost predicate AllSpace(s: string) {
    forall i :: 0 <= i < |s| ==> IsJsSpace(s[i])
  }

  /** No white space at either end. */
  predicate IsTrimmed(s: string) {
    s == [] || (!IsJsSpace(s[0]) && !IsJsSpace(s[|s| - 1]))
  }

  /** `s` is `r` with white space added at its front and at its back. */
  ghost predicate IsTrimOf(r: string, s: string) {
    exists lead, trail :: AllSpace(lead) && AllSpace(trail) && s == lead + r + trail
  }

  /** The end of the run of white space that starts at `i`. */
  function LeadEnd(s: string, i: nat): (n: nat)
    requires i <= |s|
    ensures i <= n <= |s|
    ensures forall j :: i <= j < n ==> IsJsSpace(s[j])
    ensures n == |s| || !IsJsSpace(s[n])
    decreases |s| - i
  {
    if i < |s| && IsJsSpace(s[i]) then LeadEnd(s, i + 1) else i
  }

  /** The start of the run of white space that ends at `j`, not going below `lo`. */
  function TrailStart(s: string, lo: nat, j: nat): (n: nat)
    requires lo <= j <= |s|
    ensures lo <= n <= j
    ensures forall k :: n <= k < j ==> IsJsSpace(s[k])
    ensures n == lo || !IsJsSpace(s[n - 1])
    decreases j
  {
    if j > lo && IsJsSpace(s[j - 1]) then TrailStart(s, lo, j - 1) else j
  }

  /** `s.trim()`: white space removed from both ends. */
  function Trim(s: string): (r: string)
    ensures IsTrimmed(r)
  {
    var a := LeadEnd(s, 0);
    s[a..TrailStart(s, a, |s|)]
  }

  /** `Trim` removes only white space, and only from the ends. */
  lemma TrimIsTrimOf(s: string)
    ensures IsTrimOf(Trim(s), s)
  {
    var a := LeadEnd(s, 0);
    var b := TrailStart(s, a, |s|);
    var lead, trail := s[..a], s[b..];
    assert AllSpace(lead) by {
      forall j | 0 <= j < a ensures IsJsSpace(lead[j]) {
        assert lead[j] == s[j];
      }
    }
    assert AllSpace(trail) by {
      forall j | 0 <= j < |s| - b ensures IsJsSpace(trail[j]) {
        assert trail[j] == s[b + j];
      }
    }
    assert s == lead + s[a..b] + trail;
  }

  /** White space around a trimmed string is what `Trim` removes. */
  lemma TrimAround(lead: string, r: string, trail: string)
    requires AllSpace(lead) && AllSpace(trail) && IsTrimmed(r)
    ensures Trim(lead + r + trail) == r
  {
    var w := lead + r + trail;
    var m := |lead| + |r|;
    assert forall j :: 0 <= j < |lead| ==> w[j] == lead[j];
    assert forall j :: m <= j < |w| ==> w[j] == trail[j - m];
    var a := LeadEnd(w, 0);
    if r == [] {
      assert a == |w|;
      assert w[|w|..|w|] == [];
    } else {
      assert w[|lead|] == r[0] && w[m - 1] == r[|r| - 1];
      assert a == |lead|;
      var b := TrailStart(w, a, |w|);
      assert b == m;
      assert w[|lead|..m] == r;
    }
  }

  /** `Trim` is the only trimmed string that `s` holds between white space:
      the definition agrees with the description "remove leading and trailing white space". */
  lemma TrimIsUnique(r: string, s: string)
    requires IsTrimmed(r) && IsTrimOf(r, s)
    ensures Trim(s) == r
  {
    var lead, trail :| AllSpace(lead) && AllSpace(trail) && s == lead + r + trail;
    TrimAround(lead, r, trail);
  }

  /** A string without white space at its ends is its own trim. */
  lemma TrimKeepsTrimmed(s: string)
    requires IsTrimmed(s)
    ensures Trim(s) == s
  {
    var e: string := [];
    assert e + s + e == s;
    TrimAround(e, s, e);
  }

  /** Trimming twice is trimming once. */
  lemma TrimIdempotent(s: string)
    ensures Trim(Trim(s)) == Trim(s)
  {
    TrimKeepsTrimmed(Trim(s));
  }

  /** `s.split(sep)`: the maximal runs between separators, including empty ones. */
  function Split(s: string, sep: char): (parts: seq<string>)
    ensures |parts| >= 1
    ensures forall i :: 0 <= i < |parts| ==> sep !in parts[i]
    decreases |s|
  {
    if s == [] then [[]]
    else
      var rest := Split(s[1..], sep);
      assert s == [s[0]] + s[1..];
      if s[0] == sep then [[]] + rest
      else [[s[0]] + rest[0]] + rest[1..]
  }

  /** One piece more than there are separators. */
  lemma {:induction false} SplitCount(s: string, sep: char)
    ensures |Split(s, sep)| == multiset(s)[sep] + 1
    decreases |s|
  {
    if s != [] {
      SplitCount(s[1..], sep);
      SplitCons(s[0], s[1..], sep);
      assert s == [s[0]] + s[1..];
      assert multiset(s) == multiset{s[0]} + multiset(s[1..]);
    }
  }

  /** `parts.join(sep)`. */
  function Join(parts: seq<string>, sep: char): string {
    if |parts| == 0 then []
    else if |parts| == 1 then parts[0]
    else parts[0] + [sep] + Join(parts[1..], sep)
  }

  lemma SplitCons(c: char, t: string, sep: char)
    ensures Split([c] + t, sep) ==
      if c == sep then [[]] + Split(t, sep) else [[c] + Split(t, sep)[0]] + Split(t, sep)[1..]
  {
    assert ([c] + t)[1..] == t;
  }

  lemma JoinCons(p: string, rest: seq<string>, sep: char)
    requires |rest| >= 1
    ensures Join([p] + rest, sep) == p + [sep] + Join(rest, sep)
  {
    assert ([p] + rest)[1..] == rest;
  }

  /** Joining the pieces gives back the original string. */
  lemma {:induction false} JoinSplit(s: string, sep: char)
    ensures Join(Split(s, sep), sep) == s
    decreases |s|
  {
    if s != [] {
      var c, t := s[0], s[1..];
      assert s == [c] + t;
      var rest := Split(t, sep);
      SplitCons(c, t, sep);
      JoinSplit(t, sep);
      if c == sep {
        JoinCons([], rest, sep);
      } else if |rest| == 1 {
        assert Split(s, sep) == [[c] + rest[0]];
      } else {
        assert rest == [rest[0]] + rest[1..];
        JoinCons(rest[0], rest[1..], sep);
        JoinCons([c] + rest[0], rest[1..], sep);
      }
    }
  }

  lemma {:induction false} SplitSeparatorFree(p: string, t: string, sep: char)
    requires sep !in p
    ensures Split(p + t, sep) == [p + Split(t, sep)[0]] + Split(t, sep)[1..]
    decreases |p|
  {
    var x := Split(t, sep);
    if p == [] {
      assert p + t == t && p + x[0] == x[0];
      assert x == [x[0]] + x[1..];
    } else {
      var c, q := p[0], p[1..];
      assert c != sep by { assert c in p; }
      assert p + t == [c] + (q + t);
      var y := Split(q + t, sep);
      SplitCons(c, q + t, sep);
      assert Split(p + t, sep) == [[c] + y[0]] + y[1..];
      SplitSeparatorFree(q, t, sep);
      assert y[0] == q + x[0] && y[1..] == x[1..];
      assert [c] + (q + x[0]) == p + x[0];
    }
  }

  /** Splitting a join of separator-free pieces gives back the pieces. */
  lemma {:induction false} SplitJoin(parts: seq<string>, sep: char)
    requires |parts| >= 1
    requires forall i :: 0 <= i < |parts| ==> sep !in parts[i]
    ensures Split(Join(parts, sep), sep) == parts
    decreases |parts|
  {
    var p := parts[0];
    assert sep !in p;
    if |parts| == 1 {
      SplitSeparatorFree(p, [], sep);
      assert p + [] == p && p + [[]][0] == p;
    } else {
      var rest := parts[1..];
      var j := Join(rest, sep);
      assert forall i :: 0 <= i < |rest| ==> sep !in rest[i] by {
        forall i | 0 <= i < |rest| ensures sep !in rest[i] { assert rest[i] == parts[i + 1]; }
      }
      SplitJoin(rest, sep);
      var y := Split([sep] + j, sep);
      SplitCons(sep, j, sep);
      assert y == [[]] + rest;
      assert Join(parts, sep) == p + ([sep] + j) by {
        assert parts == [p] + rest;
        JoinCons(p, rest, sep);
      }
      SplitSeparatorFree(p, [sep] + j, sep);
      assert y[0] == [] && y[1..] == rest;
      assert p + [] == p && parts == [p] + rest;
    }
  }

  /** `s.startsWith(prefix)`. */
  predicate StartsWith(s: string, prefix: string) {
    |prefix| <= |s| && s[..|prefix|] == prefix
  }

  /** `s.includes(sub)`: `sub` occurs somewhere in `s`. */
  function Includes(s: string, sub: string): (r: bool)
    ensures r <==> exists i :: 0 <= i <= |s| && StartsWith(s[i..], sub)
    decreases |s|
  {
    if StartsWith(s, sub) then
      assert s[0..] == s;
      true
    else if |s| == 0 then
      false
    else
      var r := Includes(s[1..], sub);
      assert forall i :: 1 <= i <= |s| ==> s[i..] == s[1..][i - 1..];
      r
  }
}
