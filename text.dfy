/** The optional-value wrapper used for Swift's `Optional` results. */
module Wrappers {
  datatype Option<+T> = None | Some(value: T)
}

/**
 * The part of Swift's `String` API (and Foundation's extensions to it) that the
 * schedule parser relies on, over strings of Unicode scalars:
 * `lowercased()`, `trimmingCharacters(in: .whitespacesAndNewlines)`,
 * `hasPrefix`, `contains`, `replacingOccurrences(of:with:)`,
 * `split(separator:)`, `Int(_:)` and decimal string interpolation of an `Int`.
 */
module Text {
  import opened Wrappers

  // ---------------------------------------------------------------------------
  // Case mapping (ASCII only)
  // ---------------------------------------------------------------------------

  predicate IsUpper(c: char) { 'A' <= c <= 'Z' }

  function LowerChar(c: char): (d: char)
    ensures !IsUpper(d)
    ensures IsUpper(c) ==> d as int == c as int + 32
    ensures !IsUpper(c) ==> d == c
  {
    if IsUpper(c) then (c as int + 32) as char else c
  }

  /** `lowercased()`, restricted to the ASCII letters. */
  function Lower(s: string): (r: string)
    ensures |r| == |s|
    ensures forall i :: 0 <= i < |s| ==> r[i] == LowerChar(s[i])
  {
    if s == [] then [] else [LowerChar(s[0])] + Lower(s[1..])
  }

  lemma {:induction false} LowerAppend(a: string, b: string)
    ensures Lower(a + b) == Lower(a) + Lower(b)
  {
    var l, r := Lower(a + b), Lower(a) + Lower(b);
    assert |l| == |r|;
    forall i | 0 <= i < |l| ensures l[i] == r[i] {
      if i < |a| { assert (a + b)[i] == a[i]; } else { assert (a + b)[i] == b[i - |a|]; }
    }
  }

  /** Lower-casing a second time changes nothing. */
  lemma LowerIdempotent(s: string)
    ensures Lower(Lower(s)) == Lower(s)
  {
  }

  /** Lower-casing a capitalised word lowers its first letter only. */
  lemma LowerCapitalised(c: char, rest: string)
    requires forall i :: 0 <= i < |rest| ==> !IsUpper(rest[i])
    ensures Lower([c] + rest) == [LowerChar(c)] + rest
  {
    assert ([c] + rest)[1..] == rest;
  }

  /** A string without upper-case letters is its own lower-case form. */
  lemma LowerOfLower(s: string)
    requires forall i :: 0 <= i < |s| ==> !IsUpper(s[i])
    ensures Lower(s) == s
  {
  }

  // ---------------------------------------------------------------------------
  // Trimming
  // ---------------------------------------------------------------------------

  /**
   * The characters removed by `trimmingCharacters(in: .whitespacesAndNewlines)`
   * in this model: space, tab, the four line/paragraph controls LF, VT, FF, CR,
   * NEL and no-break space.
   */
  predicate IsWhitespace(c: char) {
    c in {' ', '\t', '\n', '\U{0B}', '\U{0C}', '\r', '\U{85}', '\U{A0}'}
  }

  predicate AllWhitespace(s: string) {
    forall i :: 0 <= i < |s| ==> IsWhitespace(s[i])
  }

  /** No whitespace character is an upper-case letter, so lower-casing keeps it. */
  lemma LowerKeepsWhitespace(s: string)
    requires AllWhitespace(s)
    ensures Lower(s) == s && AllWhitespace(Lower(s))
  {
  }

  /** Drops the leading whitespace: what is left is a suffix that starts otherwise. */
  function TrimStart(s: string): (r: string)
    ensures |r| <= |s| && r == s[|s| - |r|..]
    ensures r == [] || !IsWhitespace(r[0])
    ensures AllWhitespace(s[..|s| - |r|])
  {
    if s != [] && IsWhitespace(s[0]) then
      var r := TrimStart(s[1..]);
      assert s[1..][|s| - 1 - |r|..] == s[|s| - |r|..];
      WhitespaceCons(s, |s| - |r|);
      r
    else s
  }

  lemma WhitespaceCons(s: string, k: nat)
    requires 0 < k <= |s| && IsWhitespace(s[0]) && AllWhitespace(s[1..][..k - 1])
    ensures AllWhitespace(s[..k])
  {
    assert s[..k] == [s[0]] + s[1..][..k - 1];
  }

  /** Drops the trailing whitespace: what is left is a prefix that ends otherwise. */
  function TrimEnd(s: string): (r: string)
    ensures |r| <= |s| && r == s[..|r|]
    ensures r == [] || !IsWhitespace(r[|r| - 1])
    ensures AllWhitespace(s[|r|..])
  {
    if s != [] && IsWhitespace(s[|s| - 1]) then
      var r := TrimEnd(s[..|s| - 1]);
      assert s[|r|..] == s[..|s| - 1][|r|..] + [s[|s| - 1]];
      r
    else s
  }

  /**
   * `trimmingCharacters(in: .whitespacesAndNewlines)`: a slice of the input,
   * with only whitespace cut away, that neither starts nor ends with whitespace.
   */
  function Trim(s: string): (r: string)
    ensures |r| <= |s|
    ensures exists i :: TrimmedSlice(s, r, i)
    ensures r == [] || (!IsWhitespace(r[0]) && !IsWhitespace(r[|r| - 1]))
  {
    var t := TrimStart(s);
    TrimBothEnds(s, t, TrimEnd(t));
    TrimEnd(t)
  }

  lemma TrimBothEnds(s: string, t: string, r: string)
    requires |t| <= |s| && t == s[|s| - |t|..] && (t == [] || !IsWhitespace(t[0])) && AllWhitespace(s[..|s| - |t|])
    requires |r| <= |t| && r == t[..|r|] && (r == [] || !IsWhitespace(r[|r| - 1])) && AllWhitespace(t[|r|..])
    ensures TrimmedSlice(s, r, |s| - |t|)
    ensures r == [] || !IsWhitespace(r[0])
  {
    var i := |s| - |t|;
    assert r == s[i..i + |r|];
    assert s[i + |r|..] == t[|r|..];
    assert r != [] ==> r[0] == t[0];
  }

  /** `r` sits at offset `i` of `s` with only whitespace before and after it. */
  predicate TrimmedSlice(s: string, r: string, i: int) {
    0 <= i <= |s| - |r| && r == s[i..i + |r|] && AllWhitespace(s[..i]) && AllWhitespace(s[i + |r|..])
  }

  lemma {:induction false} TrimStartPadded(pre: string, s: string)
    requires AllWhitespace(pre)
    ensures TrimStart(pre + s) == TrimStart(s)
  {
    if pre != [] {
      assert (pre + s)[0] == pre[0] && IsWhitespace(pre[0]);
      assert (pre + s)[1..] == pre[1..] + s;
      TrimStartPadded(pre[1..], s);
      assert TrimStart(pre + s) == TrimStart(pre[1..] + s);
    } else {
      assert pre + s == s;
    }
  }

  lemma {:induction false} TrimEndPadded(s: string, post: string)
    requires AllWhitespace(post)
    ensures TrimEnd(s + post) == TrimEnd(s)
  {
    if post != [] {
      var p := post[..|post| - 1];
      assert (s + post)[|s + post| - 1] == post[|post| - 1] && IsWhitespace(post[|post| - 1]);
      assert (s + post)[..|s + post| - 1] == s + p;
      TrimEndPadded(s, p);
      assert TrimEnd(s + post) == TrimEnd(s + p);
    } else {
      assert s + post == s;
    }
  }

  /**
   * Trimming the front of `s + post`: if `s` is all whitespace, only `post`
   * is left to trim; otherwise the trimming stops inside `s`.
   */
  lemma {:induction false} TrimStartAppend(s: string, post: string)
    ensures TrimStart(s + post) == if AllWhitespace(s) then TrimStart(post) else TrimStart(s) + post
  {
    if s == [] {
      assert s + post == post;
    } else if IsWhitespace(s[0]) {
      assert (s + post)[0] == s[0];
      assert (s + post)[1..] == s[1..] + post;
      assert AllWhitespace(s) <==> AllWhitespace(s[1..]);
      TrimStartAppend(s[1..], post);
    } else {
      assert (s + post)[0] == s[0];
      assert !AllWhitespace(s);
    }
  }

  lemma TrimAllWhitespace(s: string)
    requires AllWhitespace(s)
    ensures TrimStart(s) == []
  {
  }

  /**
   * Leading and trailing whitespace make no difference to the trimmed text.
   */
  lemma {:induction false} TrimPadded(pre: string, s: string, post: string)
    requires AllWhitespace(pre) && AllWhitespace(post)
    ensures Trim(pre + s + post) == Trim(s)
  {
    assert pre + s + post == pre + (s + post);
    TrimStartPadded(pre, s + post);
    TrimStartAppend(s, post);
    if AllWhitespace(s) {
      TrimAllWhitespace(post);
      TrimAllWhitespace(s);
    } else {
      TrimEndPadded(TrimStart(s), post);
    }
  }

  /** A string that neither starts nor ends with whitespace is already trimmed. */
  lemma TrimmedAlready(s: string)
    requires s != [] && !IsWhitespace(s[0]) && !IsWhitespace(s[|s| - 1])
    ensures Trim(s) == s
  {
  }

  // ---------------------------------------------------------------------------
  // Searching
  // ---------------------------------------------------------------------------

  /** `hasPrefix`. */
  predicate HasPrefix(s: string, p: string) {
    |p| <= |s| && s[..|p|] == p
  }

  /** `contains` on a string argument: `t` occurs somewhere in `s`. */
  predicate Contains(s: string, t: string) {
    HasPrefix(s, t) || (s != [] && Contains(s[1..], t))
  }

  /** Every character of a contained string is a character of the container. */
  lemma {:induction false} ContainsChars(s: string, t: string, k: nat)
    requires Contains(s, t) && k < |t|
    ensures t[k] in s
  {
    if HasPrefix(s, t) {
      assert s[k] == t[k];
    } else {
      ContainsChars(s[1..], t, k);
    }
  }

  /** A string lacking one of `t`'s characters neither equals nor contains `t`. */
  lemma MissingChar(s: string, t: string, k: nat)
    requires k < |t| && t[k] !in s
    ensures s != t && !Contains(s, t)
  {
    if Contains(s, t) {
      ContainsChars(s, t, k);
    }
  }

  /** A string is contained in itself. */
  lemma ContainsSelf(s: string)
    ensures Contains(s, s)
  {
  }

  // ---------------------------------------------------------------------------
  // Replacing and splitting
  // ---------------------------------------------------------------------------

  /**
   * `replacingOccurrences(of: pat, with: rep)`: non-overlapping occurrences,
   * found from left to right; an empty pattern leaves the text unchanged.
   */
  function ReplaceAll(s: string, pat: string, rep: string): string
    decreases |s|
  {
    if pat == [] then s
    else if HasPrefix(s, pat) then rep + ReplaceAll(s[|pat|..], pat, rep)
    else if s == [] then []
    else [s[0]] + ReplaceAll(s[1..], pat, rep)
  }

  /** Text too short to hold the pattern is not changed. */
  lemma ReplaceAllShort(s: string, pat: string, rep: string)
    requires |s| < |pat|
    ensures ReplaceAll(s, pat, rep) == s
  {
  }

  /**
   * A prefix that cannot start an occurrence (it lacks the pattern's first
   * character) is copied through unchanged.
   */
  lemma {:induction false} ReplaceAllSkip(x: string, y: string, pat: string, rep: string)
    requires pat != [] && pat[0] !in x
    ensures ReplaceAll(x + y, pat, rep) == x + ReplaceAll(y, pat, rep)
  {
    if x != [] {
      assert (x + y)[0] == x[0];
      assert !HasPrefix(x + y, pat);
      assert (x + y)[1..] == x[1..] + y;
      ReplaceAllSkip(x[1..], y, pat, rep);
    } else {
      assert x + y == y;
    }
  }

  /** The longest prefix of `s` free of `sep`. */
  function Word(s: string, sep: char): (w: string)
    ensures |w| <= |s| && w == s[..|w|] && sep !in w
    ensures |w| < |s| ==> s[|w|] == sep
    ensures s != [] && s[0] != sep ==> w != []
  {
    if s == [] || s[0] == sep then [] else [s[0]] + Word(s[1..], sep)
  }

  /**
   * `split(separator:)` with its default `omittingEmptySubsequences: true`:
   * the maximal non-empty runs of characters other than `sep`, in order.
   */
  function Split(s: string, sep: char): (parts: seq<string>)
    ensures forall k :: 0 <= k < |parts| ==> parts[k] != [] && sep !in parts[k]
    ensures parts == [] <==> forall i :: 0 <= i < |s| ==> s[i] == sep
    ensures s != [] && s[0] != sep ==> parts[0] == Word(s, sep)
    ensures Concat(parts) == Without(s, sep)
    decreases |s|
  {
    if s == [] then []
    else if s[0] == sep then
      AllSepTail(s, sep);
      Split(s[1..], sep)
    else
      var w := Word(s, sep);
      var rest := Split(s[|w|..], sep);
      WithoutWord(s, sep);
      ConcatCons(w, rest);
      [w] + rest
  }

  lemma AllSepTail(s: string, sep: char)
    requires s != [] && s[0] == sep
    ensures (forall i :: 0 <= i < |s| ==> s[i] == sep) <==> (forall i :: 0 <= i < |s[1..]| ==> s[1..][i] == sep)
  {
    if forall i :: 0 <= i < |s[1..]| ==> s[1..][i] == sep {
      forall i | 0 <= i < |s| ensures s[i] == sep {
        if i > 0 {
          assert s[i] == s[1..][i - 1];
        }
      }
    }
  }

  /** Removing the separators from a text that starts with a word keeps that word in front. */
  lemma WithoutWord(s: string, sep: char)
    requires s != [] && s[0] != sep
    ensures Without(s, sep) == Word(s, sep) + Without(s[|Word(s, sep)|..], sep)
  {
    var w := Word(s, sep);
    assert s == w + s[|w|..];
    WithoutAppend(w, s[|w|..], sep);
    WithoutFree(w, sep);
  }

  lemma ConcatCons(w: string, rest: seq<string>)
    ensures Concat([w] + rest) == w + Concat(rest)
  {
    assert ([w] + rest)[1..] == rest;
  }

  /** The parts joined back together, with nothing between them. */
  function Concat(parts: seq<string>): string {
    if parts == [] then [] else parts[0] + Concat(parts[1..])
  }

  /** `s` with every occurrence of `sep` removed. */
  function Without(s: string, sep: char): string {
    if s == [] then [] else (if s[0] == sep then [] else [s[0]]) + Without(s[1..], sep)
  }

  lemma {:induction false} WithoutAppend(a: string, b: string, sep: char)
    ensures Without(a + b, sep) == Without(a, sep) + Without(b, sep)
  {
    if a == [] {
      assert a + b == b;
    } else {
      assert (a + b)[0] == a[0];
      assert (a + b)[1..] == a[1..] + b;
      WithoutAppend(a[1..], b, sep);
    }
  }

  lemma {:induction false} WithoutFree(w: string, sep: char)
    requires sep !in w
    ensures Without(w, sep) == w
  {
    if w != [] {
      WithoutFree(w[1..], sep);
    }
  }

  /** A separator ends the first word. */
  lemma {:induction false} WordBeforeSep(a: string, b: string, sep: char)
    ensures Word(a + [sep] + b, sep) == Word(a, sep)
  {
    var s := a + [sep] + b;
    if a == [] || a[0] == sep {
      assert s[0] == sep;
    } else {
      assert s[0] == a[0];
      assert s[1..] == a[1..] + [sep] + b;
      WordBeforeSep(a[1..], b, sep);
    }
  }

  /**
   * Splitting at one separator splits each side on its own. With
   * `Split([], sep) == []` and `SplitSingle` this determines `Split` on every text.
   */
  lemma {:induction false} SplitSep(a: string, b: string, sep: char)
    ensures Split(a + [sep] + b, sep) == Split(a, sep) + Split(b, sep)
    decreases |a|
  {
    var s := a + [sep] + b;
    if a == [] {
      assert s[1..] == b;
    } else if a[0] == sep {
      assert s[0] == sep;
      assert s[1..] == a[1..] + [sep] + b;
      SplitSep(a[1..], b, sep);
    } else {
      var w := Word(a, sep);
      WordBeforeSep(a, b, sep);
      assert s[0] == a[0];
      assert s[|w|..] == a[|w|..] + [sep] + b;
      SplitSep(a[|w|..], b, sep);
    }
  }

  /** A non-empty text without separators splits into itself alone. */
  lemma SplitSingle(s: string, sep: char)
    requires s != [] && sep !in s
    ensures Split(s, sep) == [s]
  {
    assert Word(s, sep) == s;
  }

  // ---------------------------------------------------------------------------
  // Decimal integers
  // ---------------------------------------------------------------------------

  /** The range of Swift's 64-bit `Int`. */
  const MinInt: int := -0x8000_0000_0000_0000
  const MaxInt: int := 0x7FFF_FFFF_FFFF_FFFF

  predicate InIntRange(n: int) { MinInt <= n <= MaxInt }

  predicate IsDigit(c: char) { '0' <= c <= '9' }

  predicate AllDigits(s: string) {
    forall i :: 0 <= i < |s| ==> IsDigit(s[i])
  }

  function DigitValue(c: char): (d: nat)
    requires IsDigit(c)
    ensures d < 10
  {
    c as int - '0' as int
  }

  function DigitChar(d: nat): (c: char)
    requires d < 10
    ensures IsDigit(c) && DigitValue(c) == d
  {
    ('0' as int + d) as char
  }

  /** The value of a string of decimal digits, most significant first. */
  function DigitsValue(s: string): nat
    requires AllDigits(s)
  {
    if s == [] then 0 else DigitsValue(s[..|s| - 1]) * 10 + DigitValue(s[|s| - 1])
  }

  /** A leading zero adds nothing to the value. */
  lemma {:induction false} DigitsValueZeroPrefix(s: string)
    requires AllDigits(s)
    ensures AllDigits(['0'] + s) && DigitsValue(['0'] + s) == DigitsValue(s)
  {
    var t := ['0'] + s;
    if s == [] {
      assert t[..0] == [];
    } else {
      assert t[..|t| - 1] == ['0'] + s[..|s| - 1];
      DigitsValueZeroPrefix(s[..|s| - 1]);
    }
  }

  /** Decimal rendering of a natural number, as string interpolation writes it. */
  function NatToString(n: nat): (r: string)
    ensures r != [] && AllDigits(r)
    ensures DigitsValue(r) == n
    ensures r[0] == '0' ==> n == 0
    ensures n == 0 ==> r == "0"
  {
    if n < 10 then [DigitChar(n)]
    else
      var r := NatToString(n / 10) + [DigitChar(n % 10)];
      assert r[..|r| - 1] == NatToString(n / 10);
      assert r[0] == NatToString(n / 10)[0];
      r
  }

  /** `"\(n)"` for an `Int`: a minus sign for negative values, then the digits. */
  function IntToString(n: int): (r: string)
    ensures r != []
    ensures n >= 0 ==> AllDigits(r)
    ensures n < 0 ==> r[0] == '-' && AllDigits(r[1..])
  {
    if n < 0 then "-" + NatToString(-n) else NatToString(n)
  }

  /** The texts `Int(_:)` reads: an optional `+` or `-`, then at least one decimal digit, and nothing else. */
  predicate IntSyntax(s: string) {
    if s != [] && (s[0] == '+' || s[0] == '-') then |s| >= 2 && AllDigits(s[1..])
    else s != [] && AllDigits(s)
  }

  /** The number such a text denotes, before any range check. */
  function SyntaxValue(s: string): int
    requires IntSyntax(s)
  {
    if s[0] == '-' then -(DigitsValue(s[1..]) as int)
    else if s[0] == '+' then DigitsValue(s[1..])
    else DigitsValue(s)
  }

  /**
   * `Int(s)`: the number a well-formed text denotes, when it fits in 64 bits;
   * `nil` for any other text and for a value outside the range.
   */
  function ParseInt(s: string): (r: Option<int>)
    ensures r.Some? ==> InIntRange(r.value)
    ensures r.Some? <==> IntSyntax(s) && InIntRange(SyntaxValue(s))
    ensures r.Some? ==> r.value == SyntaxValue(s)
  {
    if s == [] then None
    else if s[0] == '+' || s[0] == '-' then
      if |s| == 1 || !AllDigits(s[1..]) then None
      else
        var v: int := if s[0] == '-' then -(DigitsValue(s[1..]) as int) else DigitsValue(s[1..]);
        if InIntRange(v) then Some(v) else None
    else if AllDigits(s) && DigitsValue(s) <= MaxInt then Some(DigitsValue(s))
    else None
  }

  /** Parsing what interpolation wrote gives back the number. */
  lemma ParseIntRoundTrip(n: int)
    requires InIntRange(n)
    ensures ParseInt(IntToString(n)) == Some(n)
  {
    var r := IntToString(n);
    if n < 0 {
      assert r[1..] == NatToString(-n);
    }
  }

  /** Different numbers are written differently. */
  lemma IntToStringInjective(a: int, b: int)
    requires IntToString(a) == IntToString(b)
    ensures a == b
  {
    var s := IntToString(a);
    if a < 0 && b < 0 {
      assert NatToString(-a) == s[1..] == NatToString(-b);
    }
  }
}
