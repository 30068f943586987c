/** JavaScript string operations the page and the relay rely on, stated over
    Dafny strings (sequences of Unicode scalar values). */
module Text {

  /** `String.prototype.length` counts UTF-16 code units: a scalar value above
      U+FFFF is stored as a surrogate pair and counts twice. */
  function Utf16Length(s: string): (n: nat)
    ensures |s| <= n <= 2 * |s|
  {
    if s == [] then 0
    else (if s[0] as int > 0xFFFF then 2 else 1) + Utf16Length(s[1..])
  }

  /** Text in the Basic Multilingual Plane has one code unit per character. */
  lemma {:induction false} Utf16LengthOfBmp(s: string)
    requires forall i :: 0 <= i < |s| ==> s[i] as int <= 0xFFFF
    ensures Utf16Length(s) == |s|
  {
    if s != [] {
      assert forall i :: 0 <= i < |s[1..]| ==> s[1..][i] == s[i + 1];
      Utf16LengthOfBmp(s[1..]);
    }
  }

  /** The characters matched by the regular-expression class `\s` and removed
      by `String.prototype.trim`: WhiteSpace and LineTerminator of ECMAScript. */
  predicate IsWhitespace(c: char)
  {
    c == '\t' || c == '\n' || c == '\U{B}' || c == '\U{C}' || c == '\r' ||
    c == ' ' || c == '\U{A0}' || c == '\U{1680}' || ('\U{2000}' <= c <= '\U{200A}') ||
    c == '\U{2028}' || c == '\U{2029}' || c == '\U{202F}' || c == '\U{205F}' ||
    c == '\U{3000}' || c == '\U{FEFF}'
  }

  /** The line terminators, the characters `.` does not match in a regular
      expression without the `s` flag. */
  predicate IsLineTerminator(c: char)
  {
    c == '\n' || c == '\r' || c == '\U{2028}' || c == '\U{2029}'
  }

  predicate AllWhitespace(s: string)
  {
    forall i :: 0 <= i < |s| ==> IsWhitespace(s[i])
  }

  /** Leading whitespace removed: what is dropped is whitespace, what is kept
      is a suffix of `s` that is empty or starts with a non-whitespace character. */
  function TrimStart(s: string): (r: string)
    ensures |r| <= |s| && r == s[|s| - |r|..]
    ensures AllWhitespace(s[..|s| - |r|])
    ensures r == [] || !IsWhitespace(r[0])
  {
    if s != [] && IsWhitespace(s[0]) then TrimStart(s[1..]) else s
  }

  /** Trailing whitespace removed: the result is a prefix of `s` that is empty
      or ends with a non-whitespace character, and what is dropped is whitespace. */
  function TrimEnd(s: string): (r: string)
    ensures |r| <= |s| && r == s[..|r|]
    ensures AllWhitespace(s[|r|..])
    ensures r == [] || !IsWhitespace(r[|r| - 1])
  {
    if s != [] && IsWhitespace(s[|s| - 1]) then TrimEnd(s[..|s| - 1]) else s
  }

  /** `String.prototype.trim`: the result neither starts nor ends with
      whitespace. */
  function Trim(s: string): (r: string)
    ensures r == [] || (!IsWhitespace(r[0]) && !IsWhitespace(r[|r| - 1]))
  {
    TrimEnd(TrimStart(s))
  }

  /** What `trim` removes is whitespace, cut from either end only. */
  lemma TrimCutsWhitespace(s: string)
    ensures exists i, j :: 0 <= i <= j <= |s| && Trim(s) == s[i..j] &&
                           AllWhitespace(s[..i]) && AllWhitespace(s[j..])
  {
    var t := TrimStart(s);
    var r := TrimEnd(t);
    var i := |s| - |t|;
    assert r == s[i..i + |r|];
    assert s[i + |r|..] == t[|r|..];
  }

  /** Whitespace around a string is exactly what `trim` removes. */
  lemma {:induction false} TrimPadded(a: string, s: string, b: string)
    requires AllWhitespace(a) && AllWhitespace(b)
    requires s == [] || (!IsWhitespace(s[0]) && !IsWhitespace(s[|s| - 1]))
    ensures Trim(a + s + b) == s
  {
    if a != [] {
      assert (a + s + b)[1..] == a[1..] + s + b;
      TrimPadded(a[1..], s, b);
    } else if s == [] {
      assert a + s + b == b;
      assert TrimStart(b) == [];
    } else {
      assert a + s + b == s + b;
      assert TrimStart(s + b) == s + b;
      TrimEndPadded(s, b);
    }
  }

  lemma {:induction false} TrimEndPadded(s: string, b: string)
    requires AllWhitespace(b)
    requires s == [] || !IsWhitespace(s[|s| - 1])
    ensures TrimEnd(s + b) == s
  {
    if b != [] {
      assert (s + b)[..|s + b| - 1] == s + b[..|b| - 1];
      TrimEndPadded(s, b[..|b| - 1]);
    } else {
      assert s + b == s;
    }
  }

  /** The character mapping of `String.prototype.toLowerCase` on ASCII
      letters: an upper-case letter moves 32 code points down the table to its
      lower-case partner, every other character is kept. */
  function LowerChar(c: char): (d: char)
    ensures 'A' <= c <= 'Z' ==> 'a' <= d <= 'z' && d as int == c as int + 32
    ensures !('A' <= c <= 'Z') ==> d == c
  {
    if 'A' <= c <= 'Z' then (c as int - 'A' as int + 'a' as int) as char else c
  }

  /** No upper-case ASCII letter occurs in `s`. */
  predicate NoUpper(s: string)
  {
    forall i :: 0 <= i < |s| ==> !('A' <= s[i] <= 'Z')
  }

  /** `String.prototype.toLowerCase` on ASCII letters: the result has the
      same length, has no upper-case ASCII letter left, and differs from `s`
      exactly at its upper-case ASCII letters, each replaced by its lower-case
      partner. Every other character, ASCII or not, is kept. */
  function Lower(s: string): (r: string)
    ensures |r| == |s| && NoUpper(r)
    ensures forall i :: 0 <= i < |s| && 'A' <= s[i] <= 'Z' ==> r[i] as int == s[i] as int + 32
    ensures forall i :: 0 <= i < |s| && !('A' <= s[i] <= 'Z') ==> r[i] == s[i]
  {
    seq(|s|, i requires 0 <= i < |s| => LowerChar(s[i]))
  }

  /** Lower-casing works piecewise: it commutes with concatenation. */
  lemma LowerConcat(a: string, b: string)
    ensures Lower(a + b) == Lower(a) + Lower(b)
  {
    var l, r := Lower(a + b), Lower(a) + Lower(b);
    forall i | 0 <= i < |l|
      ensures l[i] == r[i]
    {
      if i < |a| {
        assert (a + b)[i] == a[i];
      } else {
        assert (a + b)[i] == b[i - |a|];
      }
    }
  }

  /** Text without upper-case letters is left as it is. */
  lemma LowerKeepsLowerCase(s: string)
    requires NoUpper(s)
    ensures Lower(s) == s
  {
  }

  /** Lower-casing twice is lower-casing once. */
  lemma LowerIdempotent(s: string)
    ensures Lower(Lower(s)) == Lower(s)
  {
    LowerKeepsLowerCase(Lower(s));
  }

  /** `p` occurs in `s` starting at index `i`. */
  predicate OccursAt(s: string, p: string, i: nat)
  {
    i + |p| <= |s| && s[i..i + |p|] == p
  }

  /** `String.prototype.endsWith`. */
  predicate EndsWith(s: string, suffix: string)
  {
    |s| >= |suffix| && s[|s| - |suffix|..] == suffix
  }

  /** `String.prototype.includes`. */
  predicate Contains(s: string, p: string)
  {
    exists i :: 0 <= i <= |s| - |p| && OccursAt(s, p, i)
  }

  lemma ContainsAt(s: string, p: string, i: nat)
    requires OccursAt(s, p, i)
    ensures Contains(s, p)
  {
  }

  /** An occurrence of a longer pattern is an occurrence of every infix of it. */
  lemma {:induction false} ContainsInfix(s: string, p: string, j: nat, k: nat)
    requires j <= k <= |p|
    requires Contains(s, p)
    ensures Contains(s, p[j..k])
  {
    var i :| 0 <= i <= |s| - |p| && OccursAt(s, p, i);
    forall m | 0 <= m < k - j
      ensures s[i + j..i + k][m] == p[j..k][m]
    {
      assert p[j + m] == s[i..i + |p|][j + m];
    }
    assert OccursAt(s, p[j..k], i + j);
  }

  /** `Array.prototype.filter(Boolean)` on strings: drops the empty ones. */
  function NonEmpty(parts: seq<string>): (r: seq<string>)
    ensures forall x :: x in r <==> x in parts && x != []
    ensures |r| <= |parts|
  {
    if parts == [] then []
    else if parts[0] == [] then NonEmpty(parts[1..])
    else [parts[0]] + NonEmpty(parts[1..])
  }

  /** Filtering keeps the order: filtering two lists one after the other is
      filtering their concatenation. */
  lemma {:induction false} NonEmptyConcat(a: seq<string>, b: seq<string>)
    ensures NonEmpty(a + b) == NonEmpty(a) + NonEmpty(b)
  {
    if a == [] {
      assert a + b == b;
    } else {
      assert (a + b)[0] == a[0];
      assert (a + b)[1..] == a[1..] + b;
      NonEmptyConcat(a[1..], b);
    }
  }

  /** `Array.prototype.join(sep)`. */
  function Join(parts: seq<string>, sep: string): (r: string)
    ensures parts == [] ==> r == []
    ensures |parts| == 1 ==> r == parts[0]
  {
    if parts == [] then []
    else if |parts| == 1 then parts[0]
    else parts[0] + sep + Join(parts[1..], sep)
  }

  /** Joining the non-empty ones of two strings. */
  lemma JoinNonEmptyPair(a: string, b: string, sep: string)
    ensures Join(NonEmpty([a, b]), sep) == if a != [] && b != [] then a + sep + b else a + b
  {
    assert [a, b][1..] == [b];
    assert [b][1..] == [];
    if a != [] && b != [] {
      assert NonEmpty([a, b]) == [a, b];
      assert [a, b][1..] == [b];
    } else if a != [] {
      assert NonEmpty([a, b]) == [a];
      assert a + b == a;
    } else if b != [] {
      assert NonEmpty([a, b]) == [b];
      assert a + b == b;
    } else {
      assert NonEmpty([a, b]) == [];
    }
  }

  /** The middle part of a concatenation occurs right after the first part. */
  lemma OccursInConcat(a: string, b: string, c: string)
    ensures OccursAt(a + b + c, b, |a|)
  {
    assert (a + b + c)[|a|..|a| + |b|] == b;
  }
}
