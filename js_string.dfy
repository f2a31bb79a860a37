/** The ECMAScript string built-ins the client script relies on: `trim`, `indexOf`, the first
    piece of `split`, and `Array.prototype.join`, with `split` as the partner of `join`. */
module JsString {

  /** WhiteSpace and LineTerminator code points: what `String.prototype.trim` removes. */
  predicate IsWhitespace(c: char)
  {
    || c == '\t' || c == '\n' || c == '\U{B}' || c == '\U{C}' || c == '\r' || c == ' '
    || c == '\U{A0}' || c == '\U{1680}' || '\U{2000}' <= c <= '\U{200A}'
    || c == '\U{2028}' || c == '\U{2029}' || c == '\U{202F}' || c == '\U{205F}'
    || c == '\U{3000}' || c == '\U{FEFF}'
  }

  predicate AllWhitespace(w: string)
  {
    forall i :: 0 <= i < |w| ==> IsWhitespace(w[i])
  }

  /** Neither end of `t` is white space. */
  predicate Trimmed(t: string)
  {
    t == [] || (!IsWhitespace(t[0]) && !IsWhitespace(t[|t| - 1]))
  }

  /** How many white space characters `s` starts with. */
  function LeadingSpace(s: string): (k: nat)
    ensures k <= |s|
  {
    if s != [] && IsWhitespace(s[0]) then 1 + LeadingSpace(s[1..]) else 0
  }

  /** How many white space characters `s` ends with. */
  function TrailingSpace(s: string): (k: nat)
    ensures k <= |s|
  {
    if s != [] && IsWhitespace(s[|s| - 1]) then 1 + TrailingSpace(s[..|s| - 1]) else 0
  }

  /** `String.prototype.trim`: `s` without the white space at its start and at its end. */
  function Trim(s: string): (r: string)
    ensures |r| <= |s|
  {
    var t := s[LeadingSpace(s)..];
    t[..|t| - TrailingSpace(t)]
  }

  /** The leading run is white space, and it is the longest such run. */
  lemma {:induction false} LeadingSpaceSpec(s: string)
    ensures forall i :: 0 <= i < LeadingSpace(s) ==> IsWhitespace(s[i])
    ensures LeadingSpace(s) == |s| || !IsWhitespace(s[LeadingSpace(s)])
  {
    if s != [] && IsWhitespace(s[0]) {
      var rest := s[1..];
      LeadingSpaceSpec(rest);
      forall i | 1 <= i < LeadingSpace(s) ensures IsWhitespace(s[i]) {
        assert s[i] == rest[i - 1];
      }
    }
  }

  /** The trailing run is white space, and it is the longest such run. */
  lemma {:induction false} TrailingSpaceSpec(s: string)
    ensures forall i :: |s| - TrailingSpace(s) <= i < |s| ==> IsWhitespace(s[i])
    ensures TrailingSpace(s) == |s| || !IsWhitespace(s[|s| - 1 - TrailingSpace(s)])
  {
    if s != [] && IsWhitespace(s[|s| - 1]) {
      var front := s[..|s| - 1];
      TrailingSpaceSpec(front);
      forall i | |s| - TrailingSpace(s) <= i < |s| - 1 ensures IsWhitespace(s[i]) {
        assert s[i] == front[i];
      }
    }
  }

  /** `trim` keeps a slice of `s`: only white space is cut on either side, and neither end of
      what is kept is white space. */
  lemma {:induction false} TrimSpec(s: string)
    ensures var a := LeadingSpace(s);
            var b := |s| - TrailingSpace(s[a..]);
            && a <= b <= |s| && Trim(s) == s[a..b]
            && AllWhitespace(s[..a]) && AllWhitespace(s[b..])
    ensures Trimmed(Trim(s))
  {
    var a := LeadingSpace(s);
    var t := s[a..];
    var b := |s| - TrailingSpace(t);
    assert Trim(s) == s[a..b];
    LeadingSpaceSpec(s);
    TrailingSpaceSpec(t);
    assert AllWhitespace(s[b..]) by {
      forall i | 0 <= i < |s| - b ensures IsWhitespace(s[b..][i]) {
        assert s[b..][i] == t[|t| - TrailingSpace(t) + i];
      }
    }
  }

  lemma {:induction false} LeadingSpacePadded(w: string, u: string)
    requires AllWhitespace(w)
    requires u == [] || !IsWhitespace(u[0])
    ensures LeadingSpace(w + u) == |w|
  {
    if w == [] {
      assert w + u == u;
    } else {
      assert (w + u)[1..] == w[1..] + u;
      LeadingSpacePadded(w[1..], u);
    }
  }

  lemma {:induction false} TrailingSpacePadded(u: string, w: string)
    requires AllWhitespace(w)
    requires u == [] || !IsWhitespace(u[|u| - 1])
    ensures TrailingSpace(u + w) == |w|
  {
    if w == [] {
      assert u + w == u;
    } else {
      var n := |w| - 1;
      assert (u + w)[..|u + w| - 1] == u + w[..n];
      TrailingSpacePadded(u, w[..n]);
    }
  }

  /** `trim` removes exactly the white space around a trimmed text, however much there is. */
  lemma {:induction false} TrimPadded(w1: string, t: string, w2: string)
    requires AllWhitespace(w1) && AllWhitespace(w2) && Trimmed(t)
    ensures Trim(w1 + t + w2) == t
  {
    var s := w1 + t + w2;
    if t == [] {
      assert s == (w1 + w2) + [];
      LeadingSpacePadded(w1 + w2, []);
    } else {
      assert s == w1 + (t + w2);
      LeadingSpacePadded(w1, t + w2);
      assert s[|w1|..] == t + w2;
      TrailingSpacePadded(t, w2);
    }
  }

  /** Trimming twice is trimming once. */
  lemma {:induction false} TrimIdempotent(s: string)
    ensures Trim(Trim(s)) == Trim(s)
  {
    TrimSpec(s);
    assert [] + Trim(s) + [] == Trim(s);
    TrimPadded([], Trim(s), []);
  }

  /** `sep` occurs in `s` starting at index `i`. */
  predicate OccursAt(s: string, i: nat, sep: string)
  {
    i + |sep| <= |s| && s[i..i + |sep|] == sep
  }

  /** One of `seps` occurs in `s` starting at index `i`. */
  predicate AnyOccursAt(s: string, i: nat, seps: seq<string>)
  {
    exists k :: 0 <= k < |seps| && OccursAt(s, i, seps[k])
  }

  /** The first index from `i` on at which one of `seps` occurs, or -1. */
  function FirstFrom(s: string, seps: seq<string>, i: nat): (r: int)
    requires i <= |s|
    ensures r == -1 || i <= r <= |s|
    ensures r == -1 ==> forall j :: i <= j <= |s| ==> !AnyOccursAt(s, j, seps)
    ensures r != -1 ==> AnyOccursAt(s, r, seps) && forall j :: i <= j < r ==> !AnyOccursAt(s, j, seps)
    decreases |s| - i
  {
    if AnyOccursAt(s, i, seps) then i
    else if i == |s| then -1
    else FirstFrom(s, seps, i + 1)
  }

  /** `String.prototype.indexOf(sep)`: the first index at which `sep` occurs, or -1. */
  function IndexOf(s: string, sep: string): (r: int)
    ensures r == -1 <==> forall j :: 0 <= j <= |s| ==> !OccursAt(s, j, sep)
    ensures r != -1 ==> 0 <= r && OccursAt(s, r, sep) && forall j :: 0 <= j < r ==> !OccursAt(s, j, sep)
  {
    assert forall j: nat :: AnyOccursAt(s, j, [sep]) <==> OccursAt(s, j, sep) by {
      forall j: nat ensures AnyOccursAt(s, j, [sep]) <==> OccursAt(s, j, sep) {
        if OccursAt(s, j, sep) { assert OccursAt(s, j, [sep][0]); }
      }
    }
    FirstFrom(s, [sep], 0)
  }

  /** `s.indexOf(p) === 0` holds exactly when `s` starts with `p`. */
  lemma {:induction false} IndexOfZero(s: string, p: string)
    ensures IndexOf(s, p) == 0 <==> p <= s
  {
    if p <= s {
      assert OccursAt(s, 0, p);
    }
  }

  /** The part of `s` before the first occurrence of any of `seps`; all of `s` when none occurs. */
  function Before(s: string, seps: seq<string>): (r: string)
    ensures r <= s
    ensures forall j :: 0 <= j < |r| ==> !AnyOccursAt(s, j, seps)
    ensures r == s || AnyOccursAt(s, |r|, seps)
  {
    var k := FirstFrom(s, seps, 0);
    if k == -1 then s else s[..k]
  }

  /** Before stops at the first index where a separator occurs. */
  lemma {:induction false} BeforeFirst(s: string, seps: seq<string>, l: nat)
    requires forall j :: 0 <= j < l ==> !AnyOccursAt(s, j, seps)
    requires AnyOccursAt(s, l, seps)
    ensures Before(s, seps) == s[..l]
  {
    var r := Before(s, seps);
    assert l <= |s| by {
      var k :| 0 <= k < |seps| && OccursAt(s, l, seps[k]);
    }
    assert l < |r| ==> !AnyOccursAt(s, l, seps);
  }

  /** `Array.prototype.join` with a one-character separator. */
  function Join(parts: seq<string>, sep: char): string
  {
    if |parts| == 0 then ""
    else if |parts| == 1 then parts[0]
    else parts[0] + [sep] + Join(parts[1..], sep)
  }

  /** The joined text starts with the first part, and when no part holds the separator it holds
      exactly one separator between each two neighbouring parts. */
  lemma {:induction false} JoinSeparators(parts: seq<string>, sep: char)
    ensures |parts| >= 1 ==> parts[0] <= Join(parts, sep)
    ensures (forall i :: 0 <= i < |parts| ==> sep !in parts[i]) ==>
              multiset(Join(parts, sep))[sep] == if parts == [] then 0 else |parts| - 1
  {
    if |parts| >= 2 {
      JoinSeparators(parts[1..], sep);
      if forall i :: 0 <= i < |parts| ==> sep !in parts[i] {
        assert forall i :: 0 <= i < |parts| - 1 ==> parts[1..][i] == parts[i + 1];
        assert multiset(parts[0])[sep] == 0;
      }
    }
  }

  /** `String.prototype.split` with a one-character separator and no limit. */
  function Split(s: string, sep: char): (parts: seq<string>)
    ensures |parts| >= 1
    decreases |s|
  {
    var k := IndexOf(s, [sep]);
    if k == -1 then [s] else [s[..k]] + Split(s[k + 1..], sep)
  }

  /** No part of a split holds the separator, and joining the parts again gives back the text. */
  lemma {:induction false} SplitParts(s: string, sep: char)
    ensures forall i :: 0 <= i < |Split(s, sep)| ==> sep !in Split(s, sep)[i]
    ensures Join(Split(s, sep), sep) == s
    decreases |s|
  {
    var k := IndexOf(s, [sep]);
    CutAt(s, sep);
    if k != -1 {
      var rest := Split(s[k + 1..], sep);
      SplitParts(s[k + 1..], sep);
      var parts := Split(s, sep);
      assert parts == [s[..k]] + rest;
      assert parts[0] == s[..k] && parts[1..] == rest;
      assert forall i :: 1 <= i < |parts| ==> parts[i] == rest[i - 1];
      assert Join(parts, sep) == s[..k] + [sep] + Join(rest, sep);
    }
  }

  /** Where `split` cuts: nowhere when the separator is absent, otherwise at its first
      occurrence, with no separator before it. */
  lemma {:induction false} CutAt(s: string, sep: char)
    ensures var k := IndexOf(s, [sep]);
            && (k == -1 ==> sep !in s)
            && (k != -1 ==> 0 <= k < |s| && s[k] == sep && sep !in s[..k] && s == s[..k] + [sep] + s[k + 1..])
  {
    var k := IndexOf(s, [sep]);
    var free := if k == -1 then |s| else k;
    forall j | 0 <= j < free ensures s[j] != sep {
      if s[j] == sep {
        assert s[j..j + 1] == [sep];
        assert OccursAt(s, j, [sep]);
      }
    }
    if k == -1 {
      assert s[..free] == s;
    } else {
      assert s[k..k + 1] == [sep];
      assert s == s[..k] + s[k..k + 1] + s[k + 1..];
    }
  }

  /** Splitting a joined list on its separator gives the list back, provided no element contains
      the separator. */
  lemma {:induction false} SplitJoin(parts: seq<string>, sep: char)
    requires |parts| >= 1
    requires forall i :: 0 <= i < |parts| ==> sep !in parts[i]
    ensures Split(Join(parts, sep), sep) == parts
  {
    var s := Join(parts, sep);
    var p := parts[0];
    if |parts| == 1 {
      forall j | 0 <= j <= |s| ensures !OccursAt(s, j, [sep]) {
        if j < |s| { assert s[j] in parts[0]; }
      }
    } else {
      var rest := Join(parts[1..], sep);
      assert s == p + [sep] + rest;
      assert OccursAt(s, |p|, [sep]);
      forall j | 0 <= j < |p| ensures !OccursAt(s, j, [sep]) {
        assert s[j] == p[j] && p[j] in p;
      }
      assert IndexOf(s, [sep]) == |p|;
      assert s[..|p|] == p;
      assert s[|p| + 1..] == rest;
      SplitJoin(parts[1..], sep);
    }
  }
}
