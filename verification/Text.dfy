/** Strings as the Go code uses them: byte-wise order, decimal printing, trimming and splitting. */
module Text {

  datatype Option<+T> = None | Some(value: T)

  // ----- order -----

  /** Go's `<` on strings. */
  predicate LexLess(a: string, b: string) {
    if b == [] then false
    else if a == [] then true
    else a[0] < b[0] || (a[0] == b[0] && LexLess(a[1..], b[1..]))
  }

  /** The first difference decides, and a proper prefix comes first. */
  lemma {:induction false} LexMeaning(a: string, b: string)
    ensures LexLess(a, b) <==>
            exists k :: 0 <= k <= |a| && k < |b| && a[..k] == b[..k] && (k == |a| || a[k] < b[k])
  {
    if a != [] && b != [] {
      LexMeaning(a[1..], b[1..]);
      assert a == [a[0]] + a[1..] && b == [b[0]] + b[1..];
      if LexLess(a, b) && a[0] == b[0] {
        var k :| && 0 <= k <= |a| - 1 && k < |b| - 1 && a[1..][..k] == b[1..][..k]
                 && (k == |a| - 1 || a[1..][k] < b[1..][k]);
        assert a[..k + 1] == [a[0]] + a[1..][..k] && b[..k + 1] == [b[0]] + b[1..][..k];
      } else if LexLess(a, b) {
        assert a[..0] == b[..0];
      }
      if k :| 0 <= k <= |a| && k < |b| && a[..k] == b[..k] && (k == |a| || a[k] < b[k]) {
        if k > 0 {
          assert a[0] == a[..k][0] == b[..k][0] == b[0];
          assert a[1..][..k - 1] == a[..k][1..] && b[1..][..k - 1] == b[..k][1..];
        }
      }
    } else if b != [] {
      assert a[..0] == b[..0];
    }
  }

  /** A common prefix does not matter. */
  lemma {:induction false} LexPrefix(p: string, a: string, b: string)
    ensures LexLess(p + a, p + b) <==> LexLess(a, b)
  {
    if p == [] {
      assert p + a == a && p + b == b;
    } else {
      assert (p + a)[1..] == p[1..] + a && (p + b)[1..] == p[1..] + b;
      LexPrefix(p[1..], a, b);
    }
  }

  /** Once two texts differ before either ends, what follows does not matter. */
  lemma {:induction false} LexDecided(a: string, b: string, x: string, y: string)
    requires !(a <= b) && !(b <= a)
    ensures LexLess(a + x, b + y) <==> LexLess(a, b)
  {
    assert (a + x)[1..] == a[1..] + x && (b + y)[1..] == b[1..] + y;
    if a[0] == b[0] {
      assert a == [a[0]] + a[1..] && b == [b[0]] + b[1..];
      LexDecided(a[1..], b[1..], x, y);
    }
  }

  lemma {:induction false} LexTotal(a: string, b: string)
    ensures LexLess(a, b) || LexLess(b, a) || a == b
  {
    if a != [] && b != [] && a[0] == b[0] {
      LexTotal(a[1..], b[1..]);
      assert a == [a[0]] + a[1..] && b == [b[0]] + b[1..];
    }
  }

  lemma {:induction false} LexAsymmetric(a: string, b: string)
    ensures !(LexLess(a, b) && LexLess(b, a))
  {
    if a != [] && b != [] {
      LexAsymmetric(a[1..], b[1..]);
    }
  }

  lemma {:induction false} LexTransitive(a: string, b: string, c: string)
    requires LexLess(a, b) && LexLess(b, c)
    ensures LexLess(a, c)
  {
    if a != [] && a[0] == b[0] && b[0] == c[0] {
      LexTransitive(a[1..], b[1..], c[1..]);
    }
  }

  // ----- slash-joined keys -----

  predicate Without(s: string, c: char) {
    forall i :: 0 <= i < |s| ==> s[i] != c
  }

  /** A separator that does not occur in the first part splits a joined string in one way only. */
  lemma SplitUnique(a: string, x: string, b: string, y: string, sep: char)
    requires Without(a, sep) && Without(b, sep)
    requires a + [sep] + x == b + [sep] + y
    ensures a == b && x == y
  {
    var s, t := a + [sep] + x, b + [sep] + y;
    assert s[|a|] == sep && t[|b|] == sep;
    assert |a| == |b|;
    assert a == s[..|a|] && b == t[..|b|];
    assert x == s[|a| + 1..] && y == t[|b| + 1..];
  }

  // ----- decimal numbers (fmt's %d) -----

  function Digit(d: nat): char
    requires d < 10
  {
    '0' + d as char
  }

  /** The number a decimal text denotes. */
  function Reading(s: string): int {
    if s == [] then 0 else 10 * Reading(s[..|s| - 1]) + (s[|s| - 1] as int - '0' as int)
  }

  lemma DigitInjective(a: nat, b: nat)
    requires a < 10 && b < 10 && Digit(a) == Digit(b)
    ensures a == b
  {
  }

  function FormatNat(n: nat): (s: string)
    ensures |s| > 0
    ensures forall i :: 0 <= i < |s| ==> '0' <= s[i] <= '9'
  {
    if n < 10 then [Digit(n)] else FormatNat(n / 10) + [Digit(n % 10)]
  }

  lemma {:induction false} FormatNatInjective(m: nat, n: nat)
    requires FormatNat(m) == FormatNat(n)
    ensures m == n
  {
    var s := FormatNat(m);
    assert s[|s| - 1] == Digit(m % 10) == Digit(n % 10);
    DigitInjective(m % 10, n % 10);
    if m >= 10 && n >= 10 {
      assert s[..|s| - 1] == FormatNat(m / 10) == FormatNat(n / 10);
      FormatNatInjective(m / 10, n / 10);
    }
  }

  /** A number prints as the decimal text that denotes it, without leading zeros. */
  lemma {:induction false} FormatNatReads(n: nat)
    ensures Reading(FormatNat(n)) == n
    ensures n > 0 ==> FormatNat(n)[0] != '0'
  {
    if n < 10 {
      assert FormatNat(n)[..0] == [];
    } else {
      FormatNatReads(n / 10);
      assert FormatNat(n)[..|FormatNat(n)| - 1] == FormatNat(n / 10);
    }
  }

  /** The "ready/total" text of a component count. */
  function Ratio(ready: nat, total: nat): (s: string) {
    FormatNat(ready) + "/" + FormatNat(total)
  }

  lemma RatioInjective(r1: nat, t1: nat, r2: nat, t2: nat)
    requires Ratio(r1, t1) == Ratio(r2, t2)
    ensures r1 == r2 && t1 == t2
  {
    assert Without(FormatNat(r1), '/') && Without(FormatNat(r2), '/');
    SplitUnique(FormatNat(r1), FormatNat(t1), FormatNat(r2), FormatNat(t2), '/');
    FormatNatInjective(r1, r2);
    FormatNatInjective(t1, t2);
  }

  /** The text splits at its slash into the two numbers, the ready one first. */
  lemma RatioReads(ready: nat, total: nat)
    ensures var parts := Split(Ratio(ready, total), '/');
            |parts| == 2 && Reading(parts[0]) == ready && Reading(parts[1]) == total
  {
    SplitStep(FormatNat(ready), FormatNat(total), '/');
    SplitOne(FormatNat(total), '/');
    FormatNatReads(ready);
    FormatNatReads(total);
    assert Ratio(ready, total) == FormatNat(ready) + ['/'] + FormatNat(total);
  }

  // ----- strings.TrimSpace and strings.Split -----

  /** Unicode White_Space, which strings.TrimSpace removes. */
  predicate IsSpace(c: char) {
    || '\t' <= c <= '\r'
    || c == ' ' || c == '\U{85}' || c == '\U{A0}' || c == '\U{1680}'
    || '\U{2000}' <= c <= '\U{200A}'
    || c == '\U{2028}' || c == '\U{2029}' || c == '\U{202F}' || c == '\U{205F}' || c == '\U{3000}'
  }

  predicate Blank(s: string) {
    forall i :: 0 <= i < |s| ==> IsSpace(s[i])
  }

  function TrimLeft(s: string): (t: string)
    ensures t != [] ==> !IsSpace(t[0])
    ensures |t| <= |s| && t == s[|s| - |t|..] && Blank(s[..|s| - |t|])
  {
    if s != [] && IsSpace(s[0]) then
      var t := TrimLeft(s[1..]);
      assert s[..|s| - |t|] == [s[0]] + s[1..][..|s| - 1 - |t|];
      t
    else s
  }

  function TrimRight(s: string): (t: string)
    ensures t != [] ==> !IsSpace(t[|t| - 1])
    ensures t <= s && Blank(s[|t|..])
  {
    if s != [] && IsSpace(s[|s| - 1]) then
      var t := TrimRight(s[..|s| - 1]);
      assert s[|t|..] == s[..|s| - 1][|t|..] + [s[|s| - 1]];
      t
    else s
  }

  function TrimSpace(s: string): (t: string)
    ensures Trimmed(t)
    ensures forall c :: c in t ==> c in s
  {
    TrimRight(TrimLeft(s))
  }

  predicate Trimmed(s: string) {
    s != [] ==> !IsSpace(s[0]) && !IsSpace(s[|s| - 1])
  }

  /** Index of the first `sep`, or |s|. */
  function FirstIndex(s: string, sep: char): (i: nat)
    ensures i <= |s| && Without(s[..i], sep)
    ensures i < |s| ==> s[i] == sep
  {
    if s == [] || s[0] == sep then 0 else 1 + FirstIndex(s[1..], sep)
  }

  function Split(s: string, sep: char): (parts: seq<string>)
    ensures |parts| > 0
    ensures forall i :: 0 <= i < |parts| ==> Without(parts[i], sep)
    decreases |s|
  {
    var i := FirstIndex(s, sep);
    if i == |s| then [s] else [s[..i]] + Split(s[i + 1..], sep)
  }

  function Join(parts: seq<string>, sep: char): (s: string)
    requires |parts| > 0
  {
    if |parts| == 1 then parts[0] else parts[0] + [sep] + Join(parts[1..], sep)
  }

  lemma FirstIndexIs(s: string, sep: char, i: nat)
    requires i < |s| && s[i] == sep && Without(s[..i], sep)
    ensures FirstIndex(s, sep) == i
  {
    var j := FirstIndex(s, sep);
    assert j == i;
  }

  lemma {:induction false} SplitJoin(parts: seq<string>, sep: char)
    requires |parts| > 0
    requires forall i :: 0 <= i < |parts| ==> Without(parts[i], sep)
    ensures Split(Join(parts, sep), sep) == parts
  {
    var s := Join(parts, sep);
    if |parts| == 1 {
      var i := FirstIndex(s, sep);
      assert parts == [parts[0]];
    } else {
      assert s[..|parts[0]|] == parts[0];
      FirstIndexIs(s, sep, |parts[0]|);
      assert s[|parts[0]| + 1..] == Join(parts[1..], sep);
      SplitJoin(parts[1..], sep);
    }
  }

  /** Only blanks go: the result is what is left between two blank ends. */
  lemma TrimSpaceCuts(s: string) returns (i: nat, j: nat)
    ensures i <= j <= |s| && TrimSpace(s) == s[i..j]
    ensures forall k :: 0 <= k < i || j <= k < |s| ==> IsSpace(s[k])
  {
    hide IsSpace, TrimLeft, TrimRight;
    var l := TrimLeft(s);
    i := |s| - |l|;
    j := i + |TrimRight(l)|;
    forall k | 0 <= k < i || j <= k < |s| ensures IsSpace(s[k]) {
      if k < i { assert s[..i][k] == s[k]; } else { assert l[j - i..][k - j] == s[k]; }
    }
    hide Blank;
  }

  lemma CutUnique(s: string, i: nat, j: nat, a: nat, b: nat)
    requires i <= j <= |s| && Trimmed(s[i..j]) && forall k :: 0 <= k < i || j <= k < |s| ==> IsSpace(s[k])
    requires a <= b <= |s| && Trimmed(s[a..b]) && forall k :: 0 <= k < a || b <= k < |s| ==> IsSpace(s[k])
    ensures s[i..j] == s[a..b]
  {
    hide IsSpace;
    assert i < j ==> s[i..j][0] == s[i] && s[i..j][j - i - 1] == s[j - 1];
    assert a < b ==> s[a..b][0] == s[a] && s[a..b][b - a - 1] == s[b - 1];
  }

  /** And all of them go: whatever blanks stand around a trimmed text, trimming gives that text. */
  lemma TrimSpacePadded(left: string, s: string, right: string)
    requires Blank(left) && Blank(right) && Trimmed(s)
    ensures TrimSpace(left + s + right) == s
  {
    var all := left + s + right;
    var i, j := TrimSpaceCuts(all);
    assert Trimmed(TrimSpace(all));
    hide IsSpace, TrimSpace;
    assert all[|left|..|left| + |s|] == s;
    hide Trimmed;
    CutUnique(all, i, j, |left|, |left| + |s|);
  }

  /** Splitting takes the text before the first separator, then splits the rest. */
  lemma SplitStep(a: string, rest: string, sep: char)
    requires Without(a, sep)
    ensures Split(a + [sep] + rest, sep) == [a] + Split(rest, sep)
  {
    var s := a + [sep] + rest;
    assert s[..|a|] == a && s[|a|] == sep && s[|a| + 1..] == rest;
    FirstIndexIs(s, sep, |a|);
  }

  lemma SplitOne(a: string, sep: char)
    requires Without(a, sep)
    ensures Split(a, sep) == [a]
  {
    var i := FirstIndex(a, sep);
  }
}
