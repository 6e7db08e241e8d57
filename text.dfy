/**
 * The JavaScript string operations the core relies on, over `seq<char>`:
 * `String.prototype.split` with a one-character separator, `Array.prototype.join`,
 * `toLowerCase`, `indexOf`/`replace` with a string pattern, and `Number.prototype.toString`
 * on a non-negative integer.
 */
module Text {
  import opened Wrappers

  // ---------------------------------------------------------------------------
  // split / join
  // ---------------------------------------------------------------------------

  /** `s.split(sep)`: the pieces between separators; there is always at least one piece. */
  function Split(s: string, sep: char): (parts: seq<string>)
    ensures |parts| >= 1
    ensures forall i :: 0 <= i < |parts| ==> sep !in parts[i]
    decreases |s|
  {
    if |s| == 0 then [""]
    else
      var init := Split(s[..|s| - 1], sep);
      var c := s[|s| - 1];
      if c == sep then init + [""]
      else init[..|init| - 1] + [init[|init| - 1] + [c]]
  }

  /** `parts.join(sep)`. */
  function Join(parts: seq<string>, sep: char): string
    requires |parts| >= 1
    decreases |parts|
  {
    if |parts| == 1 then parts[0]
    else Join(parts[..|parts| - 1], sep) + [sep] + parts[|parts| - 1]
  }

  /** `xs.pop()` on a non-empty array, for its returned value. */
  function Last<T>(xs: seq<T>): T
    requires |xs| >= 1
  {
    xs[|xs| - 1]
  }

  lemma JoinAppendLast(parts: seq<string>, sep: char, c: char)
    requires |parts| >= 1
    ensures Join(parts[..|parts| - 1] + [parts[|parts| - 1] + [c]], sep) == Join(parts, sep) + [c]
  {
    var q := parts[..|parts| - 1] + [parts[|parts| - 1] + [c]];
    assert q[..|q| - 1] == parts[..|parts| - 1];
  }

  /** Joining the pieces of a split with the same separator gives the string back. */
  lemma {:induction false} JoinSplit(s: string, sep: char)
    ensures Join(Split(s, sep), sep) == s
    decreases |s|
  {
    if |s| > 0 {
      var init := Split(s[..|s| - 1], sep);
      JoinSplit(s[..|s| - 1], sep);
      if s[|s| - 1] == sep {
        assert (init + [""])[..|init|] == init;
      } else {
        JoinAppendLast(init, sep, s[|s| - 1]);
      }
      assert s[..|s| - 1] + [s[|s| - 1]] == s;
    }
  }

  /** Appending separator-free text extends the last piece of a split. */
  lemma {:induction false} SplitExtend(x: string, w: string, sep: char)
    requires sep !in w
    ensures var p := Split(x, sep);
      Split(x + w, sep) == p[..|p| - 1] + [p[|p| - 1] + w]
    decreases |w|
  {
    if |w| == 0 {
      var p := Split(x, sep);
      assert x + w == x;
      assert p[|p| - 1] + w == p[|p| - 1];
      assert p[..|p| - 1] + [p[|p| - 1]] == p;
    } else {
      var w' := w[..|w| - 1];
      var c := w[|w| - 1];
      assert c != sep by { assert c in w; }
      assert sep !in w' by { assert forall k :: 0 <= k < |w'| ==> w'[k] == w[k]; }
      SplitExtend(x, w', sep);
      var p := Split(x, sep);
      var init := Split(x + w', sep);
      assert (x + w)[..|x + w| - 1] == x + w';
      assert Split(x + w, sep) == init[..|init| - 1] + [init[|init| - 1] + [c]];
      assert init[..|init| - 1] == p[..|p| - 1];
      assert w' + [c] == w;
      assert init[|init| - 1] + [c] == p[|p| - 1] + w;
      assert Split(x + w, sep) == p[..|p| - 1] + [p[|p| - 1] + w];
    }
  }

  /** Splitting a join of separator-free pieces gives the pieces back. */
  lemma {:induction false} SplitJoin(parts: seq<string>, sep: char)
    requires |parts| >= 1
    requires forall i :: 0 <= i < |parts| ==> sep !in parts[i]
    ensures Split(Join(parts, sep), sep) == parts
    decreases |parts|
  {
    var n := |parts|;
    var w := parts[n - 1];
    if n == 1 {
      SplitExtend("", w, sep);
      assert "" + w == w;
    } else {
      var front := parts[..n - 1];
      SplitJoin(front, sep);
      var x := Join(front, sep) + [sep];
      assert x[..|x| - 1] == Join(front, sep);
      assert Split(x, sep) == front + [""];
      SplitExtend(x, w, sep);
      assert (front + [""])[..n - 1] == front;
      assert "" + w == w;
      assert front + [w] == parts;
    }
  }

  /**
   * The last piece of a split is the part of `s` after its last separator:
   * a suffix of `s` that is either all of `s` or directly preceded by the separator.
   */
  lemma {:induction false} LastPieceIsSuffix(s: string, sep: char)
    ensures var p := Last(Split(s, sep));
      |p| <= |s| && s[|s| - |p|..] == p && (|p| == |s| || s[|s| - |p| - 1] == sep)
    decreases |s|
  {
    if |s| > 0 {
      LastPieceIsSuffix(s[..|s| - 1], sep);
      var t := s[..|s| - 1];
      var q := Last(Split(t, sep));
      if s[|s| - 1] != sep {
        assert Last(Split(s, sep)) == q + [s[|s| - 1]];
        assert s[|s| - |q| - 1..] == t[|t| - |q|..] + [s[|s| - 1]];
      }
    }
  }

  // ---------------------------------------------------------------------------
  // toLowerCase
  // ---------------------------------------------------------------------------

  /**
   * The lower-case mapping of one character: ASCII `A`-`Z`, and U+212A KELVIN SIGN,
   * which JavaScript lower-cases to the ASCII letter `k`. Every other character is kept.
   */
  function LowerChar(c: char): (r: char)
    ensures r == '.' <==> c == '.'
    ensures !('A' <= r <= 'Z')
  {
    if 'A' <= c <= 'Z' then (c as int + 32) as char
    else if c == 'K' then 'k'
    else c
  }

  /** `s.toLowerCase()`, character by character. */
  function Lower(s: string): (r: string)
    ensures |r| == |s|
    ensures forall i :: 0 <= i < |s| ==> r[i] == LowerChar(s[i])
  {
    seq(|s|, i requires 0 <= i < |s| => LowerChar(s[i]))
  }

  /** Lower-casing commutes with taking the part after the last `sep`. */
  lemma {:induction false} LowerLastPiece(s: string, sep: char)
    requires sep == '.'
    ensures Lower(Last(Split(s, sep))) == Last(Split(Lower(s), sep))
    decreases |s|
  {
    if |s| > 0 {
      var t := s[..|s| - 1];
      var c := s[|s| - 1];
      LowerLastPiece(t, sep);
      assert Lower(s)[..|s| - 1] == Lower(t);
      assert Lower(s)[|s| - 1] == LowerChar(c);
      if c != sep {
        var q := Last(Split(t, sep));
        assert Lower(q + [c]) == Lower(q) + [LowerChar(c)];
      }
    }
  }

  // ---------------------------------------------------------------------------
  // indexOf / replace with a string pattern
  // ---------------------------------------------------------------------------

  /** `pat` occurs in `s` starting at `i`. */
  predicate OccursAt(s: string, pat: string, i: nat)
  {
    i + |pat| <= |s| && s[i..i + |pat|] == pat
  }

  function IndexFrom(s: string, pat: string, k: nat): (r: Option<nat>)
    requires k <= |s| + 1
    ensures r.Some? ==> k <= r.value && OccursAt(s, pat, r.value)
    ensures r.Some? ==> forall j :: k <= j < r.value ==> !OccursAt(s, pat, j)
    ensures r.None? ==> forall j :: k <= j <= |s| ==> !OccursAt(s, pat, j)
    decreases |s| + 1 - k
  {
    if k + |pat| > |s| then None
    else if s[k..k + |pat|] == pat then Some(k)
    else IndexFrom(s, pat, k + 1)
  }

  /** `s.indexOf(pat)`: the first position where `pat` occurs, if any. */
  function IndexOf(s: string, pat: string): (r: Option<nat>)
    ensures r.Some? ==> OccursAt(s, pat, r.value)
    ensures r.Some? ==> forall j :: 0 <= j < r.value ==> !OccursAt(s, pat, j)
    ensures r.None? <==> forall j :: 0 <= j <= |s| ==> !OccursAt(s, pat, j)
  {
    IndexFrom(s, pat, 0)
  }

  /** `s.replace(pat, rep)` with a string pattern: only the first occurrence is replaced. */
  function ReplaceFirst(s: string, pat: string, rep: string): (r: string)
    ensures IndexOf(s, pat).None? ==> r == s
    ensures IndexOf(s, pat).Some? ==>
      var i := IndexOf(s, pat).value; r == s[..i] + rep + s[i + |pat|..]
  {
    match IndexOf(s, pat)
    case None => s
    case Some(i) => s[..i] + rep + s[i + |pat|..]
  }

  // ---------------------------------------------------------------------------
  // decimal digits
  // ---------------------------------------------------------------------------

  predicate IsDigit(c: char)
  {
    '0' <= c <= '9'
  }

  predicate AllDigits(s: string)
  {
    forall i :: 0 <= i < |s| ==> IsDigit(s[i])
  }

  function DigitChar(d: nat): (c: char)
    requires d < 10
    ensures IsDigit(c)
  {
    ('0' as int + d) as char
  }

  /** `n.toString()` for a non-negative integer: its decimal digits, without leading zeros. */
  function NumberToString(n: nat): (s: string)
    ensures |s| >= 1 && AllDigits(s)
    ensures s[0] == '0' ==> n == 0 && s == "0"
    decreases n
  {
    if n < 10 then [DigitChar(n)]
    else NumberToString(n / 10) + [DigitChar(n % 10)]
  }

  /** The number a string of decimal digits stands for. */
  function ParseDigits(s: string): nat
    requires AllDigits(s)
    decreases |s|
  {
    if |s| == 0 then 0
    else ParseDigits(s[..|s| - 1]) * 10 + (s[|s| - 1] as int - '0' as int)
  }

  /** Reading back the decimal digits of `n` gives `n`. */
  lemma {:induction false} ParseNumberToString(n: nat)
    ensures ParseDigits(NumberToString(n)) == n
    decreases n
  {
    if n >= 10 {
      ParseNumberToString(n / 10);
      var s := NumberToString(n);
      assert s[..|s| - 1] == NumberToString(n / 10);
    }
  }

  /** Distinct numbers have distinct decimal representations. */
  lemma NumberToStringInjective(m: nat, n: nat)
    requires NumberToString(m) == NumberToString(n)
    ensures m == n
  {
    ParseNumberToString(m);
    ParseNumberToString(n);
  }

  /**
   * The index an array property key denotes: a key that is the canonical decimal
   * form of a number (`"0"`, `"17"`, but not `"07"` or `"type"`).
   */
  function CanonicalIndex(key: string): (r: Option<nat>)
    ensures r.Some? ==> NumberToString(r.value) == key
    ensures !AllDigits(key) ==> r.None?
  {
    if |key| >= 1 && AllDigits(key) && NumberToString(ParseDigits(key)) == key
    then Some(ParseDigits(key)) else None
  }
}
