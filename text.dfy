/** The Python string operations the scripts rely on, written out over
    `seq<char>`: `lower()`, `strip()`, `in`, `startswith`/`endswith`,
    `split(sep)`, `sep.join(...)`, `str(n)` and `c * n`. Case folding and
    whitespace are the ASCII parts of Python's Unicode definitions. */
module Text {
  /** Concatenation regroups; stated once so that proofs over large
      contexts need not show it element by element. */
  lemma ConcatAssoc<T>(a: seq<T>, b: seq<T>, c: seq<T>)
    ensures (a + b) + c == a + (b + c)
  {
  }

  /** `c.lower()` for ASCII: 'A'..'Z' become 'a'..'z', everything else is kept. */
  function LowerChar(c: char): char
  {
    if 'A' <= c <= 'Z' then (c as int + 32) as char else c
  }

  predicate IsUpperChar(c: char) { 'A' <= c <= 'Z' }

  /** No character of `s` is an ASCII capital. */
  predicate IsLowerCase(s: string)
  {
    forall i :: 0 <= i < |s| ==> !IsUpperChar(s[i])
  }

  /** `s.lower()`. */
  function Lower(s: string): (r: string)
    ensures |r| == |s|
    ensures forall i :: 0 <= i < |s| ==> r[i] == LowerChar(s[i])
    ensures IsLowerCase(r)
  {
    seq(|s|, i requires 0 <= i < |s| => LowerChar(s[i]))
  }

  lemma LowerOfLowerCase(s: string)
    requires IsLowerCase(s)
    ensures Lower(s) == s
  {
  }

  lemma LowerConcat(a: string, b: string)
    ensures Lower(a + b) == Lower(a) + Lower(b)
  {
  }

  /** Lower-casing never creates or removes a character that is not a letter,
      so an '@' in the lower-cased text was an '@' before. */
  lemma LowerKeepsAt(s: string, k: int)
    requires 0 <= k < |s|
    ensures (Lower(s)[k] == '@') <==> (s[k] == '@')
  {
  }

  /** Characters Python's `str.strip()` removes that lie in ASCII: space,
      \t \n \v \f \r and the separators \x1c-\x1f. */
  predicate IsSpace(c: char)
  {
    c == ' ' || (9 <= c as int <= 13) || (28 <= c as int <= 31)
  }

  /** The first position at or after `i` that does not hold whitespace. */
  function SpaceEnd(s: string, i: nat): (n: nat)
    requires i <= |s|
    ensures i <= n <= |s|
    ensures forall k :: i <= k < n ==> IsSpace(s[k])
    ensures n < |s| ==> !IsSpace(s[n])
    decreases |s| - i
  {
    if i < |s| && IsSpace(s[i]) then SpaceEnd(s, i + 1) else i
  }

  /** The position just after the last non-whitespace character before `j`. */
  function SpaceStart(s: string, j: nat): (n: nat)
    requires j <= |s|
    ensures n <= j
    ensures forall k :: n <= k < j ==> IsSpace(s[k])
    ensures n > 0 ==> !IsSpace(s[n - 1])
  {
    if j > 0 && IsSpace(s[j - 1]) then SpaceStart(s, j - 1) else j
  }

  /** Length of the run of whitespace that starts `s`. */
  function LeadingSpace(s: string): (n: nat)
    ensures n <= |s|
    ensures forall i :: 0 <= i < n ==> IsSpace(s[i])
    ensures n < |s| ==> !IsSpace(s[n])
  {
    SpaceEnd(s, 0)
  }

  /** Length of the run of whitespace that ends `s`. */
  function TrailingSpace(s: string): (n: nat)
    ensures n <= |s|
    ensures forall i :: |s| - n <= i < |s| ==> IsSpace(s[i])
    ensures n < |s| ==> !IsSpace(s[|s| - 1 - n])
  {
    |s| - SpaceStart(s, |s|)
  }

  /** `s.strip()`: the slice of `s` left after removing the whitespace at
      both ends; it neither starts nor ends with whitespace. */
  function Strip(s: string): (r: string)
    ensures LeadingSpace(s) + |r| <= |s|
    ensures r == s[LeadingSpace(s)..LeadingSpace(s) + |r|]
    ensures forall i :: LeadingSpace(s) + |r| <= i < |s| ==> IsSpace(s[i])
    ensures r == "" || (!IsSpace(r[0]) && !IsSpace(r[|r| - 1]))
  {
    var a := LeadingSpace(s);
    if a == |s| then "" else s[a..|s| - TrailingSpace(s)]
  }

  /** Stripping never drops a non-space character. */
  lemma StripKeeps(s: string, k: int)
    requires 0 <= k < |s| && !IsSpace(s[k])
    ensures LeadingSpace(s) <= k < LeadingSpace(s) + |Strip(s)|
    ensures Strip(s)[k - LeadingSpace(s)] == s[k]
  {
    var a := LeadingSpace(s);
    var t := TrailingSpace(s);
    assert a <= k;
    assert k < |s| - t;
    assert Strip(s) == s[a..|s| - t];
  }

  lemma StripKeepsChar(s: string, c: char)
    requires c in s && !IsSpace(c)
    ensures c in Strip(s)
  {
    var k :| 0 <= k < |s| && s[k] == c;
    StripKeeps(s, k);
    assert Strip(s)[k - LeadingSpace(s)] == c;
  }

  /** A stripped character can only have come from the stripped text. */
  lemma StripSubset(s: string, c: char)
    requires c in Strip(s)
    ensures c in s
  {
    var k :| 0 <= k < |Strip(s)| && Strip(s)[k] == c;
    assert s[LeadingSpace(s) + k] == c;
  }

  /** Stripping lower-case text leaves lower-case text. */
  lemma StripLowerCase(s: string)
    requires IsLowerCase(s)
    ensures IsLowerCase(Strip(s))
  {
    var r := Strip(s);
    forall i | 0 <= i < |r| ensures !IsUpperChar(r[i]) {
      assert r[i] == s[LeadingSpace(s) + i];
    }
  }

  lemma StripIdempotent(s: string)
    ensures Strip(Strip(s)) == Strip(s)
  {
    var r := Strip(s);
    if r != "" {
      assert LeadingSpace(r) == 0;
      assert TrailingSpace(r) == 0;
      assert r[0..|r|] == r;
    }
  }

  /** Text without surrounding whitespace is left alone by `strip()`. */
  lemma StripClean(s: string)
    requires s == "" || (!IsSpace(s[0]) && !IsSpace(s[|s| - 1]))
    ensures Strip(s) == s
  {
    if s != "" {
      assert LeadingSpace(s) == 0 && TrailingSpace(s) == 0;
      assert s[0..|s|] == s;
    }
  }

  /** One leading blank before clean text is removed by `strip()`. */
  lemma StripOneBlank(s: string)
    requires s != "" && !IsSpace(s[0]) && !IsSpace(s[|s| - 1])
    ensures Strip(" " + s) == s
  {
    var t := " " + s;
    assert t[1..] == s;
    assert LeadingSpace(t) == 1;
    assert TrailingSpace(t) == 0;
    assert t[1..|t|] == s;
  }

  /** `s.startswith(p)`. */
  predicate StartsWith(s: string, p: string)
  {
    |p| <= |s| && s[..|p|] == p
  }

  /** `s.endswith(p)`. */
  predicate EndsWith(s: string, p: string)
  {
    |p| <= |s| && s[|s| - |p|..] == p
  }

  /** `needle in hay` on strings: `needle` occurs at some position of `hay`. */
  predicate Contains(hay: string, needle: string)
    decreases |hay|
  {
    StartsWith(hay, needle) || (|hay| > 0 && Contains(hay[1..], needle))
  }

  /** An occurrence at a known position makes `Contains` true. */
  lemma {:induction false} ContainsAt(hay: string, needle: string, i: nat)
    requires i <= |hay| && StartsWith(hay[i..], needle)
    ensures Contains(hay, needle)
    decreases i
  {
    if i > 0 {
      assert hay[1..][i - 1..] == hay[i..];
      ContainsAt(hay[1..], needle, i - 1);
    }
  }

  /** `Contains` names a position where the needle starts. */
  lemma {:induction false} ContainsWitness(hay: string, needle: string) returns (i: nat)
    requires Contains(hay, needle)
    ensures i + |needle| <= |hay| && hay[i..i + |needle|] == needle
    decreases |hay|
  {
    if StartsWith(hay, needle) {
      i := 0;
    } else {
      var j := ContainsWitness(hay[1..], needle);
      i := j + 1;
      assert hay[1..][j..j + |needle|] == hay[i..i + |needle|];
    }
  }

  lemma ContainsInPrefix(a: string, b: string, needle: string)
    requires Contains(a, needle)
    ensures Contains(a + b, needle)
  {
    var i := ContainsWitness(a, needle);
    assert (a + b)[i..][..|needle|] == a[i..i + |needle|];
    ContainsAt(a + b, needle, i);
  }

  lemma ContainsInSuffix(a: string, b: string, needle: string)
    requires Contains(b, needle)
    ensures Contains(a + b, needle)
  {
    var i := ContainsWitness(b, needle);
    assert (a + b)[|a| + i..][..|needle|] == b[i..i + |needle|];
    ContainsAt(a + b, needle, |a| + i);
  }

  /** For a one-character needle, `Contains` is plain membership. */
  lemma ContainsChar(hay: string, c: char)
    ensures Contains(hay, [c]) <==> c in hay
  {
    if c in hay {
      var k :| 0 <= k < |hay| && hay[k] == c;
      assert hay[k..][..1] == [c];
      ContainsAt(hay, [c], k);
    }
    if Contains(hay, [c]) {
      var i := ContainsWitness(hay, [c]);
      assert hay[i] == c;
    }
  }

  /** Case-insensitive `needle in hay`, as `needle.lower() in hay.lower()`. */
  predicate ContainsIgnoringCase(hay: string, needle: string)
  {
    Contains(Lower(hay), Lower(needle))
  }

  /** Position of the first occurrence of `sep` in `s`, as `s.find(sep)`;
      `IndexOfFirst` shows it is the first one, and -1 means there is none. */
  function IndexOf(s: string, sep: string): (r: int)
    requires |sep| > 0
    ensures -1 <= r <= |s|
    ensures r >= 0 ==> r + |sep| <= |s| && s[r..r + |sep|] == sep
    decreases |s|
  {
    if |s| < |sep| then -1
    else if s[..|sep|] == sep then 0
    else
      var k := IndexOf(s[1..], sep);
      if k == -1 then -1 else k + 1
  }

  lemma {:induction false} IndexOfFirst(s: string, sep: string)
    requires |sep| > 0
    ensures IndexOf(s, sep) >= 0 ==> forall j :: 0 <= j < IndexOf(s, sep) ==> !StartsWith(s[j..], sep)
    ensures IndexOf(s, sep) == -1 ==> !Contains(s, sep)
    decreases |s|
  {
    if |s| < |sep| {
      NoRoom(s, sep);
    } else if s[..|sep|] != sep {
      IndexOfFirst(s[1..], sep);
      var k := IndexOf(s[1..], sep);
      if k != -1 {
        forall j | 0 <= j < k + 1 ensures !StartsWith(s[j..], sep) {
          if j > 0 { assert s[j..] == s[1..][j - 1..]; }
        }
      }
    }
  }

  lemma {:induction false} NoRoom(s: string, sep: string)
    requires |s| < |sep|
    ensures !Contains(s, sep)
    decreases |s|
  {
    if |s| > 0 { NoRoom(s[1..], sep); }
  }

  /** The first occurrence of a one-character separator is found. */
  lemma IndexOfChar(s: string, c: char, i: nat)
    requires i < |s| && s[i] == c && forall j :: 0 <= j < i ==> s[j] != c
    ensures IndexOf(s, [c]) == i
  {
    assert s[i..][..1] == [c];
    ContainsAt(s, [c], i);
    IndexOfFirst(s, [c]);
    var r := IndexOf(s, [c]);
    assert s[r..r + 1][0] == s[r];
  }

  /** A one-character separator that does not occur is not found. */
  lemma IndexOfAbsent(s: string, c: char)
    requires c !in s
    ensures IndexOf(s, [c]) == -1
  {
    ContainsChar(s, c);
    var r := IndexOf(s, [c]);
    assert r >= 0 ==> s[r..r + 1][0] == s[r];
  }

  /** Splitting "b,c" when neither side holds the separator character. */
  lemma SplitTwo(b: string, c: string, sep: char)
    requires sep !in b && sep !in c
    ensures Split(b + [sep] + c, [sep]) == [b, c]
  {
    var s := b + [sep] + c;
    assert s[|b|] == sep;
    IndexOfChar(s, sep, |b|);
    assert s[..|b|] == b;
    assert s[|b| + 1..] == c;
    IndexOfAbsent(c, sep);
  }

  /** `s.split(sep)` for a non-empty separator: the pieces between the
      occurrences of `sep` found from left to right. */
  function Split(s: string, sep: string): (parts: seq<string>)
    requires |sep| > 0
    ensures |parts| >= 1
    decreases |s|
  {
    var i := IndexOf(s, sep);
    if i == -1 then [s] else [s[..i]] + Split(s[i + |sep|..], sep)
  }

  /** `sep.join(parts)`. */
  function Join(parts: seq<string>, sep: string): string
  {
    if |parts| == 0 then ""
    else if |parts| == 1 then parts[0]
    else parts[0] + sep + Join(parts[1..], sep)
  }

  lemma {:induction false} JoinAppend(parts: seq<string>, p: string, sep: string)
    requires |parts| > 0
    ensures Join(parts + [p], sep) == Join(parts, sep) + sep + p
  {
    if |parts| == 1 {
      assert parts + [p] == [parts[0], p];
    } else {
      assert (parts + [p])[1..] == parts[1..] + [p];
      JoinAppend(parts[1..], p, sep);
    }
  }

  lemma JoinCons(p: string, ps: seq<string>, sep: string)
    requires |ps| > 0
    ensures Join([p] + ps, sep) == p + sep + Join(ps, sep)
  {
    assert ([p] + ps)[1..] == ps;
  }

  /** A join starts with its first part. */
  lemma JoinStartsWith(parts: seq<string>, sep: string)
    requires |parts| > 0
    ensures StartsWith(Join(parts, sep), parts[0])
  {
    if |parts| > 1 {
      var rest := parts[0] + sep + Join(parts[1..], sep);
      assert rest[..|parts[0]|] == parts[0];
    }
  }

  /** Splitting and re-joining gives the original text back. */
  lemma {:induction false} SplitJoin(s: string, sep: string)
    requires |sep| > 0
    ensures Join(Split(s, sep), sep) == s
    decreases |s|
  {
    var i := IndexOf(s, sep);
    if i != -1 {
      var rest := s[i + |sep|..];
      var ps := Split(rest, sep);
      assert Split(s, sep) == [s[..i]] + ps;
      SplitJoin(rest, sep);
      JoinCons(s[..i], ps, sep);
      assert s == s[..i] + s[i..i + |sep|] + rest;
    }
  }

  /** No piece of a split contains the separator. */
  lemma {:induction false} SplitPiecesFree(s: string, sep: string)
    requires |sep| > 0
    ensures forall p :: p in Split(s, sep) ==> !Contains(p, sep)
    decreases |s|
  {
    var i := IndexOf(s, sep);
    if i != -1 {
      SplitPiecesFree(s[i + |sep|..], sep);
      IndexOfFirst(s, sep);
      PrefixBeforeFirst(s, sep, i);
    } else {
      IndexOfFirst(s, sep);
    }
  }

  /** The text before the first occurrence of `sep` does not contain it. */
  lemma PrefixBeforeFirst(s: string, sep: string, i: int)
    requires |sep| > 0 && 0 <= i <= |s|
    requires forall j :: 0 <= j < i ==> !StartsWith(s[j..], sep)
    ensures !Contains(s[..i], sep)
  {
    if Contains(s[..i], sep) {
      var j := ContainsWitness(s[..i], sep);
      SliceStartsWith(s, i, j, sep);
      assert false;
    }
  }

  lemma SliceStartsWith(s: string, i: int, j: nat, sep: string)
    requires j + |sep| <= i <= |s| && s[..i][j..j + |sep|] == sep
    ensures StartsWith(s[j..], sep)
  {
    assert s[j..][..|sep|] == s[..i][j..j + |sep|];
  }

  /** `str(n)` for a natural number. */
  function NatToString(n: nat): (r: string)
    ensures |r| >= 1
    ensures forall i :: 0 <= i < |r| ==> '0' <= r[i] <= '9'
    decreases n
  {
    if n < 10 then [DigitChar(n)] else NatToString(n / 10) + [DigitChar(n % 10)]
  }

  function DigitChar(d: nat): (c: char)
    requires d < 10
    ensures '0' <= c <= '9'
  {
    ('0' as int + d) as char
  }

  /** The number a string of decimal digits denotes. */
  function DigitsValue(s: string): nat
    requires forall i :: 0 <= i < |s| ==> '0' <= s[i] <= '9'
  {
    if s == [] then 0 else 10 * DigitsValue(s[..|s| - 1]) + (s[|s| - 1] as int - '0' as int)
  }

  /** `str(n)` can be read back as `n`. */
  lemma {:induction false} NatToStringValue(n: nat)
    ensures DigitsValue(NatToString(n)) == n
    decreases n
  {
    if n >= 10 {
      NatToStringValue(n / 10);
      var s := NatToString(n);
      assert s[..|s| - 1] == NatToString(n / 10);
    }
  }

  /** `str(i)` for a Python int, with a leading '-' when negative. */
  function IntToString(i: int): string
  {
    if i < 0 then "-" + NatToString(-i) else NatToString(i)
  }

  /** `c * n` for a one-character string. */
  function Repeat(c: char, n: nat): (r: string)
    ensures |r| == n
    ensures forall i :: 0 <= i < n ==> r[i] == c
  {
    seq(n, _ => c)
  }

  /** The first `n` elements of `xs`, or all of them: `xs[:n]`. */
  function Take<T>(xs: seq<T>, n: nat): (r: seq<T>)
    ensures |r| <= n && |r| <= |xs|
    ensures |xs| <= n ==> r == xs
    ensures |xs| > n ==> |r| == n
    ensures forall i :: 0 <= i < |r| ==> r[i] == xs[i]
  {
    if |xs| <= n then xs else xs[..n]
  }

  lemma TakeSnoc<T>(xs: seq<T>, x: T, n: nat)
    ensures Take(xs + [x], n) == if |xs| < n then xs + [x] else Take(xs, n)
  {
    if |xs| >= n {
      assert (xs + [x])[..n] == Take(xs, n);
    }
  }

  lemma TakeFull<T>(xs: seq<T>, ys: seq<T>, n: nat)
    requires xs <= ys && |xs| >= n
    ensures Take(ys, n) == Take(xs, n)
  {
    assert ys[..n] == xs[..n];
  }
}
