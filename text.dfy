/**
 * String helpers shared by the guard pipeline and the HTTP layer: the
 * JavaScript whitespace class (used by `String.prototype.trim` and by the
 * regular expression `\s`), trimming, ASCII lower-casing, the problem-type
 * slug, the `substring(0, n)` cut applied to over-long fields, and the
 * decimal rendering of counters that appear in messages.
 */
module Text {

  /** The characters JavaScript counts as white space or line terminators. */
  predicate IsWhitespace(c: char) {
    || c == ' ' || c == '\t' || c == '\n' || c == '\r' || c == '\U{B}' || c == '\U{C}'
    || c == '\U{A0}' || c == '\U{1680}' || ('\U{2000}' <= c <= '\U{200A}')
    || c == '\U{2028}' || c == '\U{2029}' || c == '\U{202F}' || c == '\U{205F}'
    || c == '\U{3000}' || c == '\U{FEFF}'
  }

  predicate AllWhitespace(s: string) {
    forall i :: 0 <= i < |s| ==> IsWhitespace(s[i])
  }

  predicate NoWhitespace(s: string) {
    forall i :: 0 <= i < |s| ==> !IsWhitespace(s[i])
  }

  /** Drops the leading run of white space. */
  function TrimStart(s: string): (r: string)
    ensures |r| <= |s|
  {
    if s != [] && IsWhitespace(s[0]) then TrimStart(s[1..]) else s
  }

  /** What `TrimStart` leaves is a suffix whose dropped prefix is all white
      space and which does not itself start with white space. */
  lemma {:induction false} TrimStartShape(s: string)
    ensures TrimStart(s) == s[|s| - |TrimStart(s)|..]
    ensures AllWhitespace(s[..|s| - |TrimStart(s)|])
    ensures TrimStart(s) == [] || !IsWhitespace(TrimStart(s)[0])
    decreases |s|
  {
    if s != [] && IsWhitespace(s[0]) {
      TrimStartShape(s[1..]);
      var r := TrimStart(s);
      assert s[..|s| - |r|] == [s[0]] + s[1..][..|s| - 1 - |r|];
    }
  }

  /** Drops the trailing run of white space. */
  function TrimEnd(s: string): (r: string)
    ensures |r| <= |s| && r == s[..|r|]
    ensures AllWhitespace(s[|r|..])
    ensures r == [] || !IsWhitespace(r[|r| - 1])
  {
    if s != [] && IsWhitespace(s[|s| - 1]) then
      var r := TrimEnd(s[..|s| - 1]);
      assert s[|r|..] == s[..|s| - 1][|r|..] + [s[|s| - 1]];
      r
    else s
  }

  /** `String.prototype.trim`: the contiguous middle of `s` left after
      removing white space at both ends. */
  function Trim(s: string): (r: string)
    ensures |r| <= |s|
    ensures r == [] || (!IsWhitespace(r[0]) && !IsWhitespace(r[|r| - 1]))
  {
    TrimStartShape(s);
    TrimSlice(s, TrimStart(s), TrimEnd(TrimStart(s)));
    TrimEnd(TrimStart(s))
  }

  /** The two one-sided trims compose to a slice with white space on both sides. */
  lemma TrimSlice(s: string, t: string, r: string)
    requires |t| <= |s| && t == s[|s| - |t|..] && AllWhitespace(s[..|s| - |t|])
    requires |r| <= |t| && r == t[..|r|] && AllWhitespace(t[|r|..])
    requires t == [] || !IsWhitespace(t[0])
    requires r == [] || !IsWhitespace(r[|r| - 1])
    ensures PaddedSliceAt(s, r, |s| - |t|)
    ensures r == [] || (!IsWhitespace(r[0]) && !IsWhitespace(r[|r| - 1]))
  {
    assert r != [] ==> r[0] == t[0];
    var k := |s| - |t|;
    assert s[k..k + |r|] == r;
    assert s[k + |r|..] == t[|r|..];
  }

  /** `r` sits in `s` at offset `k` with only white space before and after it. */
  predicate PaddedSliceAt(s: string, r: string, k: int) {
    0 <= k <= |s| - |r| && r == s[k..k + |r|] && AllWhitespace(s[..k]) && AllWhitespace(s[k + |r|..])
  }

  /** The trim is a slice of the input with only white space around it. */
  lemma TrimIsSlice(s: string)
    ensures exists k :: PaddedSliceAt(s, Trim(s), k)
  {
    var t := TrimStart(s);
    TrimStartShape(s);
    TrimSlice(s, t, TrimEnd(t));
    assert Trim(s) == TrimEnd(t);
    assert PaddedSliceAt(s, Trim(s), |s| - |t|);
  }

  /** Trimming yields the empty string exactly when the input is all white space. */
  lemma TrimEmptyIff(s: string)
    ensures Trim(s) == [] <==> AllWhitespace(s)
  {
    TrimStartShape(s);
    if AllWhitespace(s) {
      TrimStartAllWhitespace(s);
    }
  }

  /** A string that starts and ends with a non-white-space character is its own trim. */
  lemma TrimOfTrimmed(s: string)
    requires s == [] || (!IsWhitespace(s[0]) && !IsWhitespace(s[|s| - 1]))
    ensures Trim(s) == s
  {
  }

  /** Trimming is idempotent. */
  lemma TrimIdempotent(s: string)
    ensures Trim(Trim(s)) == Trim(s)
  {
    TrimOfTrimmed(Trim(s));
  }

  /** Lower-cases the ASCII letters and leaves every other character as it is. */
  function LowerChar(c: char): (r: char)
    ensures 'A' <= c <= 'Z' ==> 'a' <= r <= 'z' && r as int - c as int == 32
    ensures !('A' <= c <= 'Z') ==> r == c
  {
    if 'A' <= c <= 'Z' then (c as int + 32) as char else c
  }

  /** `toLowerCase`, restricted to ASCII letters. */
  function ToLower(s: string): (r: string)
    ensures |r| == |s|
    ensures forall i :: 0 <= i < |s| ==> r[i] == LowerChar(s[i])
    ensures forall i :: 0 <= i < |r| ==> !('A' <= r[i] <= 'Z')
    ensures forall i :: 0 <= i < |r| ==> (IsWhitespace(r[i]) <==> IsWhitespace(s[i]))
  {
    seq(|s|, i requires 0 <= i < |s| => LowerChar(s[i]))
  }

  /** `replace(/\s+/g, '-')`: every maximal run of white space becomes one dash. */
  function DashWhitespaceRuns(s: string): (r: string)
    ensures |r| <= |s|
    decreases |s|
  {
    if s == [] then []
    else if IsWhitespace(s[0]) then
      var rest := TrimStart(s);
      "-" + DashWhitespaceRuns(rest)
    else [s[0]] + DashWhitespaceRuns(s[1..])
  }

  /** The rewrite leaves no white space behind. */
  lemma {:induction false} DashWhitespaceRunsNoWhitespace(s: string)
    ensures NoWhitespace(DashWhitespaceRuns(s))
    decreases |s|
  {
    if s != [] {
      if IsWhitespace(s[0]) {
        DashWhitespaceRunsNoWhitespace(TrimStart(s));
        DashAfterRun(s);
      } else {
        DashWhitespaceRunsNoWhitespace(s[1..]);
        DashAfterWord(s);
      }
    }
  }

  /** A string without white space is left as it is. */
  lemma {:induction false} DashWhitespaceRunsIdentity(s: string)
    requires NoWhitespace(s)
    ensures DashWhitespaceRuns(s) == s
  {
    if s != [] {
      DashWhitespaceRunsIdentity(s[1..]);
    }
  }

  /** Where `u` is not all white space, the leading run of `u + v` is that of `u`. */
  lemma {:induction false} TrimStartAppend(u: string, v: string)
    ensures !AllWhitespace(u) ==> TrimStart(u + v) == TrimStart(u) + v
    ensures AllWhitespace(u) ==> TrimStart(u + v) == TrimStart(v)
  {
    if u != [] {
      assert (u + v)[0] == u[0];
      assert (u + v)[1..] == u[1..] + v;
      if IsWhitespace(u[0]) {
        TrimStartAppend(u[1..], v);
        if !AllWhitespace(u) {
          var i :| 0 <= i < |u| && !IsWhitespace(u[i]);
          assert u[1..][i - 1] == u[i];
        }
      }
    } else {
      assert u + v == v;
    }
  }

  /** Trailing white space appended to a string is dropped with the rest. */
  lemma {:induction false} TrimEndAppend(u: string, v: string)
    requires AllWhitespace(v)
    ensures TrimEnd(u + v) == TrimEnd(u)
    decreases |v|
  {
    if v == [] {
      assert u + v == u;
    } else {
      var w := v[..|v| - 1];
      assert (u + v)[..|u + v| - 1] == u + w;
      TrimEndAppend(u, w);
    }
  }

  /** Trimming ignores white-space padding, each side independently. */
  lemma TrimIgnoresPadding(s: string, before: string, after: string)
    requires AllWhitespace(before) && AllWhitespace(after)
    ensures Trim(before + s + after) == Trim(s)
  {
    PaddedTrimStart(s, before, after);
    if AllWhitespace(s) {
      TrimStartAllWhitespace(s);
      TrimStartAllWhitespace(after);
    } else {
      TrimEndAppend(TrimStart(s), after);
    }
  }

  /** Leading padding is dropped, and trailing padding survives only after
      a non-white-space character. */
  lemma PaddedTrimStart(s: string, before: string, after: string)
    requires AllWhitespace(before)
    ensures AllWhitespace(s) ==> TrimStart(before + s + after) == TrimStart(after)
    ensures !AllWhitespace(s) ==> TrimStart(before + s + after) == TrimStart(s) + after
  {
    assert before + s + after == before + (s + after);
    TrimStartAppend(before, s + after);
    TrimStartAppend(s, after);
  }

  /** A string of white space trims to nothing. */
  lemma TrimStartAllWhitespace(s: string)
    requires AllWhitespace(s)
    ensures TrimStart(s) == []
  {
  }

  /** Splitting at a point that is not inside a white-space run splits the result:
      the dash rewrite acts on each side independently. */
  lemma {:induction false} DashWhitespaceRunsAppend(u: string, v: string)
    requires u == [] || v == [] || !IsWhitespace(u[|u| - 1]) || !IsWhitespace(v[0])
    ensures DashWhitespaceRuns(u + v) == DashWhitespaceRuns(u) + DashWhitespaceRuns(v)
    decreases |u|
  {
    if u == [] {
      assert u + v == v;
    } else if !IsWhitespace(u[0]) {
      AppendAfterWord(u, v);
      WordBoundaryKept(u);
      DashWhitespaceRunsAppend(u[1..], v);
      DashAfterWord(u);
      PrefixThenSplit([u[0]], DashWhitespaceRuns(u + v), DashWhitespaceRuns(u[1..] + v),
                      DashWhitespaceRuns(u[1..]), DashWhitespaceRuns(v), DashWhitespaceRuns(u));
    } else if AllWhitespace(u) {
      AppendAfterRun(u, v);
    } else {
      AppendInsideRun(u, v);
      RunBoundaryKept(u);
      DashWhitespaceRunsAppend(TrimStart(u), v);
      DashAfterRun(u);
      PrefixThenSplit("-", DashWhitespaceRuns(u + v), DashWhitespaceRuns(TrimStart(u) + v),
                      DashWhitespaceRuns(TrimStart(u)), DashWhitespaceRuns(v), DashWhitespaceRuns(u));
    }
  }

  /** Regrouping a common prefix in front of a split remainder. */
  lemma PrefixThenSplit<T>(head: seq<T>, whole: seq<T>, rest: seq<T>, left: seq<T>, right: seq<T>, first: seq<T>)
    requires whole == head + rest && rest == left + right && first == head + left
    ensures whole == first + right
  {
  }

  lemma WordBoundaryKept(u: string)
    requires u != []
    ensures u[1..] == [] || u[1..][|u[1..]| - 1] == u[|u| - 1]
  {
  }

  lemma RunBoundaryKept(u: string)
    requires u != [] && IsWhitespace(u[0]) && !AllWhitespace(u)
    ensures |TrimStart(u)| < |u| && TrimStart(u) != [] && TrimStart(u)[|TrimStart(u)| - 1] == u[|u| - 1]
  {
  }

  /** At a non-white-space first character, `u + v` is rewritten like `u`: that character, then the rest. */
  lemma AppendAfterWord(u: string, v: string)
    requires u != [] && !IsWhitespace(u[0])
    ensures DashWhitespaceRuns(u + v) == [u[0]] + DashWhitespaceRuns(u[1..] + v)
  {
    assert (u + v)[0] == u[0];
    DashAfterWord(u + v);
    assert (u + v)[1..] == u[1..] + v;
  }

  /** One unfolding of the rewrite at a non-white-space character. */
  lemma DashAfterWord(s: string)
    requires s != [] && !IsWhitespace(s[0])
    ensures DashWhitespaceRuns(s) == [s[0]] + DashWhitespaceRuns(s[1..])
  {
  }

  /** One unfolding of the rewrite at a white-space character. */
  lemma DashAfterRun(s: string)
    requires s != [] && IsWhitespace(s[0])
    ensures DashWhitespaceRuns(s) == "-" + DashWhitespaceRuns(TrimStart(s))
  {
  }

  /** The step of the splitting lemma across a white-space run that is all of `u`. */
  lemma AppendAfterRun(u: string, v: string)
    requires u != [] && AllWhitespace(u)
    requires v == [] || !IsWhitespace(v[0])
    ensures DashWhitespaceRuns(u + v) == "-" + DashWhitespaceRuns(v)
    ensures DashWhitespaceRuns(u) == "-"
  {
    var w := u + v;
    assert w[0] == u[0];
    TrimStartAppend(u, v);
    assert TrimStart(w) == v;
    assert DashWhitespaceRuns(w) == "-" + DashWhitespaceRuns(TrimStart(w));
    TrimStartAllWhitespace(u);
  }

  /** At a white-space run that does not reach the end of `u`, `u + v` is rewritten
      like `u`: one dash, then the rest after the run. */
  lemma AppendInsideRun(u: string, v: string)
    requires u != [] && IsWhitespace(u[0]) && !AllWhitespace(u)
    ensures DashWhitespaceRuns(u + v) == "-" + DashWhitespaceRuns(TrimStart(u) + v)
  {
    assert (u + v)[0] == u[0];
    DashAfterRun(u + v);
    TrimStartAppend(u, v);
  }

  /** Two words around a white-space run come out joined by one dash. */
  lemma DashTwoWords(a: string, run: string, b: string)
    requires NoWhitespace(a) && NoWhitespace(b) && a != [] && b != []
    requires run != [] && AllWhitespace(run)
    ensures DashWhitespaceRuns(a + run + b) == a + "-" + b
  {
    var tail := run + b;
    calc {
      DashWhitespaceRuns(a + run + b);
      { assert a + run + b == a + tail; }
      DashWhitespaceRuns(a + tail);
      { assert !IsWhitespace(a[|a| - 1]);
        DashWhitespaceRunsAppend(a, tail); }
      DashWhitespaceRuns(a) + DashWhitespaceRuns(tail);
      { DashWhitespaceRunsIdentity(a);
        assert !IsWhitespace(b[0]);
        WhitespaceRunIsOneDash(run, b); }
      a + ("-" + DashWhitespaceRuns(b));
      { DashWhitespaceRunsIdentity(b); }
      a + ("-" + b);
      a + "-" + b;
    }
  }

  /** A non-empty white-space run followed by a non-white-space boundary is one dash. */
  lemma WhitespaceRunIsOneDash(w: string, v: string)
    requires w != [] && AllWhitespace(w)
    requires v == [] || !IsWhitespace(v[0])
    ensures DashWhitespaceRuns(w + v) == "-" + DashWhitespaceRuns(v)
  {
    AppendAfterRun(w, v);
  }

  /** `s.substring(0, n)` applied only when `s.length > n`: keeps at most `n`
      leading characters. */
  function Cut(s: string, n: nat): (r: string)
    ensures |r| <= n && |r| <= |s|
    ensures r == s[..|r|]
    ensures |s| <= n ==> r == s
    ensures |s| > n ==> |r| == n
  {
    if |s| > n then s[..n] else s
  }

  /** Cutting twice to the same length cuts nothing more. */
  lemma CutIdempotent(s: string, n: nat)
    ensures Cut(Cut(s, n), n) == Cut(s, n)
  {
  }

  predicate IsDigit(c: char) {
    '0' <= c <= '9'
  }

  function DigitChar(d: nat): (c: char)
    requires d < 10
    ensures IsDigit(c) && c as int - '0' as int == d
  {
    ('0' as int + d) as char
  }

  /** Decimal rendering of a natural number, as JavaScript's template literals print it. */
  function NatToString(n: nat): (r: string)
    ensures 1 <= |r|
    ensures forall i :: 0 <= i < |r| ==> IsDigit(r[i])
    ensures |r| > 1 ==> r[0] != '0'
  {
    if n < 10 then [DigitChar(n)]
    else
      var p := NatToString(n / 10);
      p + [DigitChar(n % 10)]
  }

  /** Decimal rendering of an integer, with a leading minus sign when negative. */
  function IntToString(n: int): (r: string)
    ensures 1 <= |r|
    ensures n >= 0 ==> r == NatToString(n)
    ensures n < 0 ==> r[0] == '-' && r[1..] == NatToString(-n)
  {
    if n >= 0 then NatToString(n) else "-" + NatToString(-n)
  }

  /** The value of a string of decimal digits. */
  function DigitsValue(s: string): int
    requires forall i :: 0 <= i < |s| ==> IsDigit(s[i])
  {
    if s == [] then 0
    else DigitsValue(s[..|s| - 1]) * 10 + (s[|s| - 1] as int - '0' as int)
  }

  /** Reading back the rendered digits gives the number: the rendering is faithful. */
  lemma {:induction false} NatToStringRoundTrip(n: nat)
    ensures DigitsValue(NatToString(n)) == n
  {
    if n >= 10 {
      NatToStringRoundTrip(n / 10);
      var r := NatToString(n);
      assert r[..|r| - 1] == NatToString(n / 10);
    }
  }
}
