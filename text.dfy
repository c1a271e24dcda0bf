/**
 * The string operations of JavaScript that the main process relies on, written out by hand:
 * the `\s` whitespace class, `trim()`, `split` on one character and on `/\s+/`,
 * literal search with and without the `i` flag, a `before.*after` search,
 * `startsWith`, `includes`, and `String(n)` for integers.
 */
module Text {
  import opened Wrappers

  /** ECMAScript WhiteSpace and LineTerminator: the class `\s`, and what `trim()` removes. */
  predicate IsWs(c: char) {
    c == '\t' || c == '\n' || c == '\U{000B}' || c == '\U{000C}' || c == '\r' || c == ' '
    || c == '\U{00A0}' || c == '\U{1680}' || ('\U{2000}' <= c <= '\U{200A}')
    || c == '\U{2028}' || c == '\U{2029}' || c == '\U{202F}' || c == '\U{205F}'
    || c == '\U{3000}' || c == '\U{FEFF}'
  }

  /** The characters that the regex `.` does not match. */
  predicate IsLineTerminator(c: char) {
    c == '\n' || c == '\r' || c == '\U{2028}' || c == '\U{2029}'
  }

  /** The regex class `\d`. */
  predicate IsDigit(c: char) {
    '0' <= c <= '9'
  }

  predicate AllDigits(s: string) {
    forall i :: 0 <= i < |s| ==> IsDigit(s[i])
  }

  predicate NoWs(s: string) {
    forall i :: 0 <= i < |s| ==> !IsWs(s[i])
  }

  predicate IsBlank(s: string) {
    forall i :: 0 <= i < |s| ==> IsWs(s[i])
  }

  // ---------------------------------------------------------------- trim

  function TrimStart(s: string): (r: string)
    ensures |r| <= |s| && r == s[|s| - |r|..]
    ensures forall k :: 0 <= k < |s| - |r| ==> IsWs(s[k])
    ensures r == [] || !IsWs(r[0])
  {
    if s != [] && IsWs(s[0]) then TrimStart(s[1..]) else s
  }

  function TrimEnd(s: string): (r: string)
    ensures |r| <= |s| && r == s[..|r|]
    ensures forall k :: |r| <= k < |s| ==> IsWs(s[k])
    ensures r == [] || !IsWs(r[|r| - 1])
  {
    if s != [] && IsWs(s[|s| - 1]) then TrimEnd(s[..|s| - 1]) else s
  }

  /** `s.trim()`: the text between the leading and the trailing whitespace. */
  function Trim(s: string): (r: string)
    ensures |r| <= |s|
    ensures r == [] || (!IsWs(r[0]) && !IsWs(r[|r| - 1]))
    ensures r == [] <==> IsBlank(s)
  {
    var t := TrimStart(s);
    var r := TrimEnd(t);
    assert r != [] ==> r[0] == t[0];
    assert r == [] ==> IsBlank(t);
    assert IsBlank(s) ==> t == [];
    assert r == [] ==> t == [];
    r
  }

  /** What both trims leave is a window of `s` with only whitespace on either side. */
  lemma TrimWindow(s: string, t: string, r: string)
    requires |t| <= |s| && t == s[|s| - |t|..] && forall k :: 0 <= k < |s| - |t| ==> IsWs(s[k])
    requires |r| <= |t| && r == t[..|r|] && forall k :: |r| <= k < |t| ==> IsWs(t[k])
    ensures exists a: nat :: a + |r| <= |s| && r == s[a..a + |r|] && IsBlank(s[..a]) && IsBlank(s[a + |r|..])
  {
    var a := |s| - |t|;
    assert r == s[a..a + |r|];
    assert IsBlank(s[..a]);
    var u := s[a + |r|..];
    forall k | 0 <= k < |u| ensures IsWs(u[k]) {
      assert u[k] == t[|r| + k];
    }
  }

  /** `s.trim()` is `s` without its leading and trailing whitespace: a window of `s` between two blanks. */
  lemma TrimIsWindow(s: string)
    ensures var r := Trim(s);
      exists a: nat :: a + |r| <= |s| && r == s[a..a + |r|] && IsBlank(s[..a]) && IsBlank(s[a + |r|..])
  {
    TrimWindow(s, TrimStart(s), Trim(s));
  }

  lemma {:induction false} TrimOfTrimmed(s: string)
    requires s == [] || (!IsWs(s[0]) && !IsWs(s[|s| - 1]))
    ensures Trim(s) == s
  {
  }

  // ---------------------------------------------------------------- split on one character

  /** `s.split(c)` for a one-character separator: always at least one piece. */
  function SplitOn(s: string, c: char): (r: seq<string>)
    ensures |r| >= 1
    ensures forall k :: 0 <= k < |r| ==> c !in r[k]
  {
    if s == [] then [""]
    else
      var rest := SplitOn(s[1..], c);
      if s[0] == c then [""] + rest else [[s[0]] + rest[0]] + rest[1..]
  }

  /** `pieces.join(c)`. */
  function JoinWith(pieces: seq<string>, c: char): (r: string)
    requires |pieces| >= 1
    ensures |pieces[0]| <= |r| && r[..|pieces[0]|] == pieces[0]
  {
    if |pieces| == 1 then pieces[0] else pieces[0] + [c] + JoinWith(pieces[1..], c)
  }

  lemma {:induction false} JoinSplit(s: string, c: char)
    ensures JoinWith(SplitOn(s, c), c) == s
  {
    if s != [] {
      JoinSplit(s[1..], c);
      var rest := SplitOn(s[1..], c);
      if s[0] == c {
        assert ([""] + rest)[1..] == rest;
      } else {
        var r := [[s[0]] + rest[0]] + rest[1..];
        if |rest| == 1 {
        } else {
          assert r[1..] == rest[1..];
          assert JoinWith(rest, c) == rest[0] + [c] + JoinWith(rest[1..], c);
        }
      }
    }
  }

  /** A prefix without the separator joins the first piece. */
  lemma {:induction false} SplitPrefix(p: string, x: string, c: char)
    requires c !in p
    ensures SplitOn(p + x, c) == [p + SplitOn(x, c)[0]] + SplitOn(x, c)[1..]
  {
    if p != [] {
      var xs := SplitOn(x, c);
      assert p[0] != c && c !in p[1..];
      assert (p + x)[0] == p[0] && (p + x)[1..] == p[1..] + x;
      SplitPrefix(p[1..], x, c);
      var rest := SplitOn(p[1..] + x, c);
      assert rest[0] == p[1..] + xs[0] && rest[1..] == xs[1..];
      assert SplitOn(p + x, c) == [[p[0]] + rest[0]] + rest[1..];
      assert [p[0]] + (p[1..] + xs[0]) == p + xs[0];
    } else {
      assert p + x == x;
      var xs := SplitOn(x, c);
      assert p + xs[0] == xs[0];
      assert xs == [xs[0]] + xs[1..];
    }
  }

  lemma {:induction false} SplitJoin(pieces: seq<string>, c: char)
    requires |pieces| >= 1
    requires forall k :: 0 <= k < |pieces| ==> c !in pieces[k]
    ensures SplitOn(JoinWith(pieces, c), c) == pieces
  {
    if |pieces| == 1 {
      SplitPrefix(pieces[0], "", c);
      assert pieces[0] + "" == pieces[0];
    } else {
      var tail := JoinWith(pieces[1..], c);
      SplitJoin(pieces[1..], c);
      assert ([c] + tail)[1..] == tail;
      assert SplitOn([c] + tail, c) == [""] + pieces[1..];
      assert pieces[0] + [c] + tail == pieces[0] + ([c] + tail);
      SplitPrefix(pieces[0], [c] + tail, c);
      assert pieces[0] + "" == pieces[0];
    }
  }

  /** What comes after the first separator: the pieces from the second on. */
  lemma {:induction false} SplitAfterFirst(h: string, b: string, c: char)
    requires c !in h
    ensures SplitOn(h + [c] + b, c) == [h] + SplitOn(b, c)
  {
    assert h + [c] + b == h + ([c] + b);
    assert ([c] + b)[1..] == b;
    SplitPrefix(h, [c] + b, c);
    assert h + "" == h;
  }

  // ---------------------------------------------------------------- split on /\s+/

  function Concat(pieces: seq<string>): string {
    if pieces == [] then [] else pieces[0] + Concat(pieces[1..])
  }

  function DropWs(s: string): (r: string) {
    if s == [] then [] else (if IsWs(s[0]) then [] else [s[0]]) + DropWs(s[1..])
  }

  /**
   * `s.split(/\s+/)`: cut at every maximal run of whitespace. A leading run gives an empty
   * first piece and a trailing run an empty last piece; no piece holds whitespace, the pieces
   * in between are never empty, and together they hold exactly the non-whitespace characters.
   */
  function SplitWs(s: string): (r: seq<string>)
    ensures |r| >= 1
    ensures forall k :: 0 <= k < |r| ==> NoWs(r[k])
    ensures forall k :: 0 < k < |r| - 1 ==> r[k] != []
    ensures s != [] ==> (r[0] == [] <==> IsWs(s[0]))
    ensures NoWs(s) ==> r == [s]
    ensures Concat(r) == DropWs(s)
  {
    if s == [] then [""]
    else
      var rest := SplitWs(s[1..]);
      if IsWs(s[0]) then
        if s[1..] != [] && IsWs(s[1]) then rest else [""] + rest
      else
        var r := [[s[0]] + rest[0]] + rest[1..];
        assert Concat(rest) == rest[0] + Concat(rest[1..]);
        assert r[1..] == rest[1..];
        assert NoWs(s) ==> r == [s] by {
          if NoWs(s) {
            assert NoWs(s[1..]);
            assert [s[0]] + s[1..] == s;
          }
        }
        r
  }

  /**
   * A maximal run of whitespace at the start gives an empty first piece and nothing else:
   * the run is one cut, however long it is.
   */
  lemma {:induction false} SplitWsLead(w: string, b: string)
    requires w != [] && IsBlank(w)
    requires b == [] || !IsWs(b[0])
    ensures SplitWs(w + b) == [""] + SplitWs(b)
  {
    var s := w + b;
    assert s[0] == w[0] && s[1..] == w[1..] + b;
    if |w| == 1 {
      assert s[1..] == b;
    } else {
      assert s[1] == w[1];
      SplitWsLead(w[1..], b);
    }
  }

  /**
   * A non-empty token, a maximal run of whitespace and the rest: the token is the first
   * piece and the rest is split on its own. With `SplitWsLead` and `NoWs(s) ==> SplitWs(s) == [s]`
   * this fixes every cut of `split(/\s+/)`.
   */
  lemma {:induction false} SplitWsRun(a: string, w: string, b: string)
    requires a != [] && NoWs(a)
    requires w != [] && IsBlank(w)
    requires b == [] || !IsWs(b[0])
    ensures SplitWs(a + w + b) == [a] + SplitWs(b)
  {
    var s := a + w + b;
    assert s[0] == a[0];
    if |a| == 1 {
      assert s[1..] == w + b;
      SplitWsLead(w, b);
      var rest := SplitWs(w + b);
      assert [a[0]] + rest[0] == a;
      assert rest[1..] == SplitWs(b);
    } else {
      assert s[1..] == a[1..] + w + b;
      SplitWsRun(a[1..], w, b);
      assert [a[0]] + a[1..] == a;
    }
  }

  /** Three tokens separated by two runs of whitespace split into exactly those tokens. */
  lemma SplitWsThree(x: string, w1: string, y: string, w2: string, z: string)
    requires x != [] && NoWs(x) && y != [] && NoWs(y) && z != [] && NoWs(z)
    requires w1 != [] && IsBlank(w1) && w2 != [] && IsBlank(w2)
    ensures SplitWs(x + w1 + y + w2 + z) == [x, y, z]
  {
    var t := y + w2 + z;
    assert t[0] == y[0];
    SplitWsRun(y, w2, z);
    SplitWsRun(x, w1, t);
    Group3(x, w1, y, w2, z);
  }

  lemma Group3<T>(a: seq<T>, b: seq<T>, c: seq<T>, d: seq<T>, e: seq<T>)
    ensures a + b + c + d + e == a + b + (c + d + e)
  {
  }

  /** The first piece is the run of non-whitespace the string starts with. */
  lemma {:induction false} SplitWsHead(s: string)
    ensures var h := SplitWs(s)[0]; |h| <= |s| && h == s[..|h|] && (|h| < |s| ==> IsWs(s[|h|]))
  {
    if s != [] && !IsWs(s[0]) {
      SplitWsHead(s[1..]);
      var rest := SplitWs(s[1..]);
      assert SplitWs(s)[0] == [s[0]] + rest[0];
      assert s[..1 + |rest[0]|] == [s[0]] + s[1..][..|rest[0]|];
    }
  }

  // ---------------------------------------------------------------- literal search

  /** ASCII lower case: the `i` flag of a regex whose pattern is ASCII folds exactly this. */
  function LowerChar(c: char): char {
    if 'A' <= c <= 'Z' then (c as int + 32) as char else c
  }

  predicate SameChar(c: char, d: char, ignoreCase: bool) {
    if ignoreCase then LowerChar(c) == LowerChar(d) else c == d
  }

  /** `t` occurs in `s` at offset `i`. */
  predicate MatchAt(s: string, i: nat, t: string, ignoreCase: bool) {
    i + |t| <= |s| && forall k :: 0 <= k < |t| ==> SameChar(s[i + k], t[k], ignoreCase)
  }

  /** The leftmost occurrence of `t` in `s` at or after `from`. */
  function FindFrom(s: string, t: string, ignoreCase: bool, from: nat): (r: Option<nat>)
    decreases |s| - from
    ensures r.Some? ==> from <= r.value && MatchAt(s, r.value, t, ignoreCase)
    ensures r.Some? ==> forall j :: from <= j < r.value ==> !MatchAt(s, j, t, ignoreCase)
    ensures r.None? ==> forall j: nat :: from <= j ==> !MatchAt(s, j, t, ignoreCase)
  {
    if from + |t| > |s| then None
    else if MatchAt(s, from, t, ignoreCase) then Some(from)
    else FindFrom(s, t, ignoreCase, from + 1)
  }

  /** `s.includes(t)` (or the regex `/t/i` when `ignoreCase`). */
  function Contains(s: string, t: string, ignoreCase: bool): (r: bool)
    ensures r <==> exists i: nat :: MatchAt(s, i, t, ignoreCase)
  {
    FindFrom(s, t, ignoreCase, 0).Some?
  }

  /** `s.startsWith(t)`. */
  function StartsWith(s: string, t: string): (r: bool)
    ensures r <==> |t| <= |s| && s[..|t|] == t
  {
    MatchAt(s, 0, t, false)
  }

  // ---------------------------------------------------------------- before.*after

  /** No line terminator in `s[j..k]`: what `.*` can span. */
  predicate LineFree(s: string, j: nat, k: nat) {
    j <= k <= |s| && forall m :: j <= m < k ==> !IsLineTerminator(s[m])
  }

  /** `after` occurs at some offset reachable from `j` by `.*`. */
  function FindInLine(s: string, j: nat, after: string, ignoreCase: bool): (r: bool)
    requires j <= |s|
    decreases |s| - j
    ensures r <==> exists k: nat :: LineFree(s, j, k) && MatchAt(s, k, after, ignoreCase)
  {
    if MatchAt(s, j, after, ignoreCase) then
      assert LineFree(s, j, j);
      true
    else if j < |s| && !IsLineTerminator(s[j]) then
      var r := FindInLine(s, j + 1, after, ignoreCase);
      assert r ==> exists k: nat :: LineFree(s, j, k) && MatchAt(s, k, after, ignoreCase) by {
        if r {
          var k: nat :| LineFree(s, j + 1, k) && MatchAt(s, k, after, ignoreCase);
          assert LineFree(s, j, k);
        }
      }
      assert (exists k: nat :: LineFree(s, j, k) && MatchAt(s, k, after, ignoreCase)) ==> r by {
        if exists k: nat :: LineFree(s, j, k) && MatchAt(s, k, after, ignoreCase) {
          var k: nat :| LineFree(s, j, k) && MatchAt(s, k, after, ignoreCase);
          assert k != j;
          assert LineFree(s, j + 1, k);
        }
      }
      r
    else
      assert forall k: nat :: LineFree(s, j, k) ==> k == j;
      false
  }

  /** The regex `before.*after` matches with `before` starting at `i`. */
  predicate GapAt(s: string, i: nat, before: string, after: string, ignoreCase: bool) {
    MatchAt(s, i, before, ignoreCase) && FindInLine(s, i + |before|, after, ignoreCase)
  }

  function FindGapFrom(s: string, before: string, after: string, ignoreCase: bool, from: nat): (r: bool)
    decreases |s| - from
    ensures r <==> exists i: nat :: from <= i && GapAt(s, i, before, after, ignoreCase)
  {
    if from + |before| > |s| then false
    else if GapAt(s, from, before, after, ignoreCase) then true
    else FindGapFrom(s, before, after, ignoreCase, from + 1)
  }

  /** The regex `before.*after` (with the `i` flag when `ignoreCase`) matches somewhere in `s`. */
  function ContainsGap(s: string, before: string, after: string, ignoreCase: bool): (r: bool)
    ensures r <==> exists i: nat, k: nat ::
      MatchAt(s, i, before, ignoreCase) && LineFree(s, i + |before|, k) && MatchAt(s, k, after, ignoreCase)
  {
    var r := FindGapFrom(s, before, after, ignoreCase, 0);
    assert r ==> exists i: nat, k: nat ::
      MatchAt(s, i, before, ignoreCase) && LineFree(s, i + |before|, k) && MatchAt(s, k, after, ignoreCase)
    by {
      if r {
        var i: nat :| GapAt(s, i, before, after, ignoreCase);
        var k: nat :| LineFree(s, i + |before|, k) && MatchAt(s, k, after, ignoreCase);
      }
    }
    assert (exists i: nat, k: nat ::
      MatchAt(s, i, before, ignoreCase) && LineFree(s, i + |before|, k) && MatchAt(s, k, after, ignoreCase)) ==> r
    by {
      if exists i: nat, k: nat ::
        MatchAt(s, i, before, ignoreCase) && LineFree(s, i + |before|, k) && MatchAt(s, k, after, ignoreCase)
      {
        var i: nat, k: nat :|
          MatchAt(s, i, before, ignoreCase) && LineFree(s, i + |before|, k) && MatchAt(s, k, after, ignoreCase);
        assert GapAt(s, i, before, after, ignoreCase);
      }
    }
    r
  }

  // ---------------------------------------------------------------- String(n)

  function DigitChar(d: nat): (c: char)
    requires d < 10
    ensures IsDigit(c)
  {
    ('0' as int + d) as char
  }

  function DigitValue(c: char): (d: nat)
    requires IsDigit(c)
    ensures d < 10
  {
    c as int - '0' as int
  }

  /** The decimal digits of `n`, most significant first, with no leading zero. */
  function NatDigits(n: nat): (r: string)
    ensures |r| >= 1 && AllDigits(r)
    ensures r[0] == '0' ==> n == 0
  {
    if n < 10 then [DigitChar(n)] else NatDigits(n / 10) + [DigitChar(n % 10)]
  }

  /** The value of a string of decimal digits. */
  function ParseNat(s: string): nat
    requires AllDigits(s)
  {
    if s == [] then 0 else ParseNat(s[..|s| - 1]) * 10 + DigitValue(s[|s| - 1])
  }

  lemma {:induction false} ParseNatDigits(n: nat)
    ensures ParseNat(NatDigits(n)) == n
  {
    if n >= 10 {
      var r := NatDigits(n);
      assert r[..|r| - 1] == NatDigits(n / 10);
      ParseNatDigits(n / 10);
    }
  }

  /** `String(n)` for an integer `n`. */
  function Decimal(n: int): (r: string)
    ensures |r| >= 1
    ensures n >= 0 ==> AllDigits(r) && ParseNat(r) == n
    ensures n < 0 ==> r[0] == '-' && AllDigits(r[1..]) && ParseNat(r[1..]) == -n
    ensures n >= 0 ==> (r[0] == '0' ==> n == 0)
  {
    if n < 0 then
      ParseNatDigits(-n);
      assert ("-" + NatDigits(-n))[1..] == NatDigits(-n);
      "-" + NatDigits(-n)
    else
      ParseNatDigits(n);
      NatDigits(n)
  }
}
