/** Character and string helpers shared by the habit-logging modules: the white space
    that JavaScript's `String.prototype.trim` removes, ASCII case mapping, the
    regular-expression class `\w`, `Array.prototype.join` and a code-point string order
    standing in for `localeCompare`. */
module Text {

  /** The white-space characters `trim` removes: tab, vertical tab, form feed, the
      byte-order mark, the space separators of Unicode category Zs (space, no-break
      space, U+1680, U+2000 to U+200A, U+202F, U+205F, U+3000) and the line
      terminators (line feed, carriage return, U+2028, U+2029). */
  predicate IsSpace(c: char) {
    c == ' ' || c == '\t' || c == '\n' || c == '\r' || c == '\U{000B}' || c == '\U{000C}'
    || c == '\U{00A0}' || c == '\U{FEFF}' || c == '\U{1680}' || '\U{2000}' <= c <= '\U{200A}'
    || c == '\U{202F}' || c == '\U{205F}' || c == '\U{3000}' || c == '\U{2028}' || c == '\U{2029}'
  }

  /** A string that `trim` reduces to "" (JavaScript's `!s.trim()`). */
  predicate IsBlank(s: string) {
    forall i :: 0 <= i < |s| ==> IsSpace(s[i])
  }

  /** Neither end of `s` is white space. */
  predicate Unpadded(s: string) {
    s == [] || (!IsSpace(s[0]) && !IsSpace(s[|s| - 1]))
  }

  /** `trim` at the start: drops leading white space. */
  function TrimStart(s: string): (r: string)
    ensures |r| <= |s|
  {
    if s != [] && IsSpace(s[0]) then TrimStart(s[1..]) else s
  }

  /** `trim` at the end: drops trailing white space. */
  function TrimEnd(s: string): (r: string)
    ensures |r| <= |s|
  {
    if s != [] && IsSpace(s[|s| - 1]) then TrimEnd(s[..|s| - 1]) else s
  }

  /** TrimStart keeps a suffix that does not start with white space, and drops only
      white space. */
  lemma {:induction false} TrimStartSpec(s: string)
    ensures TrimStart(s) == s[|s| - |TrimStart(s)|..]
    ensures IsBlank(s[..|s| - |TrimStart(s)|])
    ensures TrimStart(s) == [] || !IsSpace(TrimStart(s)[0])
    decreases |s|
  {
    if s != [] && IsSpace(s[0]) {
      TrimStartSpec(s[1..]);
      var r := TrimStart(s);
      var k := |s| - |r|;
      assert s[1..][..|s| - 1 - |r|] == s[1..k];
      forall i | 0 <= i < k ensures IsSpace(s[..k][i]) {
        if i > 0 { assert s[..k][i] == s[1..k][i - 1]; }
      }
    } else {
      assert s[..0] == [];
    }
  }

  /** TrimEnd keeps a prefix that does not end with white space, and drops only white
      space. */
  lemma {:induction false} TrimEndSpec(s: string)
    ensures TrimEnd(s) == s[..|TrimEnd(s)|]
    ensures IsBlank(s[|TrimEnd(s)|..])
    ensures TrimEnd(s) == [] || !IsSpace(TrimEnd(s)[|TrimEnd(s)| - 1])
    decreases |s|
  {
    if s != [] && IsSpace(s[|s| - 1]) {
      var p := s[..|s| - 1];
      TrimEndSpec(p);
      var r := TrimEnd(s);
      assert p[..|r|] == s[..|r|];
      forall i | 0 <= i < |s| - |r| ensures IsSpace(s[|r|..][i]) {
        if i < |s| - 1 - |r| { assert s[|r|..][i] == p[|r|..][i]; }
      }
    } else {
      assert s[|s|..] == [];
    }
  }

  /** `String.prototype.trim`: `r` has white space at neither end, and it is empty
      exactly when `s` is all white space (TrimIsInfix says what was removed). */
  function Trim(s: string): (r: string)
    ensures |r| <= |s| && Unpadded(r)
    ensures r == [] <==> IsBlank(s)
  {
    TrimBlank(s);
    TrimEnd(TrimStart(s))
  }

  lemma TrimBlank(s: string)
    ensures TrimEnd(TrimStart(s)) == [] <==> IsBlank(s)
    ensures Unpadded(TrimEnd(TrimStart(s)))
  {
    var t := TrimStart(s);
    var r := TrimEnd(t);
    TrimStartSpec(s);
    TrimEndSpec(t);
    var a := |s| - |t|;
    if r == [] {
      assert t == [];
      assert s[..a] == s;
    } else {
      assert r[0] == t[0] && s[a] == t[0];
    }
  }

  /** What `trim` removes is white space on either side of its result: the result is the
      slice `s[a..a + |Trim(s)|]` and everything outside that slice is white space. */
  lemma TrimIsInfix(s: string) returns (a: nat)
    ensures a + |Trim(s)| <= |s| && s[a..a + |Trim(s)|] == Trim(s)
    ensures IsBlank(s[..a]) && IsBlank(s[a + |Trim(s)|..])
  {
    var t := TrimStart(s);
    var r := TrimEnd(t);
    TrimStartSpec(s);
    TrimEndSpec(t);
    assert r == Trim(s);
    a := |s| - |t|;
    assert IsBlank(s[..a]);
    assert t == s[a..];
    assert r == t[..|r|] && IsBlank(t[|r|..]);
    assert t[..|r|] == s[a..a + |r|];
    assert t[|r|..] == s[a + |r|..];
  }

  lemma {:induction false} TrimStartOfBlankPrefix(a: string, s: string)
    requires IsBlank(a)
    ensures TrimStart(a + s) == TrimStart(s)
    decreases |a|
  {
    if a != [] {
      assert (a + s)[0] == a[0] && IsSpace(a[0]);
      assert IsBlank(a[1..]) by {
        forall i | 0 <= i < |a| - 1 ensures IsSpace(a[1..][i]) { assert a[1..][i] == a[i + 1]; }
      }
      assert (a + s)[1..] == a[1..] + s;
      TrimStartOfBlankPrefix(a[1..], s);
    } else {
      assert a + s == s;
    }
  }

  lemma {:induction false} TrimEndOfBlankSuffix(s: string, b: string)
    requires IsBlank(b)
    ensures TrimEnd(s + b) == TrimEnd(s)
    decreases |b|
  {
    if b != [] {
      assert (s + b)[|s + b| - 1] == b[|b| - 1] && IsSpace(b[|b| - 1]);
      assert IsBlank(b[..|b| - 1]) by {
        var b' := b[..|b| - 1];
        forall i | 0 <= i < |b'| ensures IsSpace(b'[i]) { assert b'[i] == b[i]; }
      }
      assert (s + b)[..|s + b| - 1] == s + b[..|b| - 1];
      TrimEndOfBlankSuffix(s, b[..|b| - 1]);
    } else {
      assert s + b == s;
    }
  }

  lemma {:induction false} TrimStartAppend(s: string, b: string)
    requires !IsBlank(s)
    ensures TrimStart(s + b) == TrimStart(s) + b
    decreases |s|
  {
    if IsSpace(s[0]) {
      assert (s + b)[1..] == s[1..] + b;
      assert !IsBlank(s[1..]) by {
        var i :| 0 <= i < |s| && !IsSpace(s[i]);
        assert s[1..][i - 1] == s[i];
      }
      TrimStartAppend(s[1..], b);
    }
  }

  /** Surrounding white space does not change what `trim` returns. */
  lemma TrimIgnoresPadding(a: string, s: string, b: string)
    requires IsBlank(a) && IsBlank(b)
    ensures Trim(a + s + b) == Trim(s)
  {
    assert a + s + b == a + (s + b);
    TrimStartOfBlankPrefix(a, s + b);
    if IsBlank(s) {
      assert IsBlank(s + b) by {
        forall i | 0 <= i < |s + b| ensures IsSpace((s + b)[i]) {
          if i < |s| { assert (s + b)[i] == s[i]; } else { assert (s + b)[i] == b[i - |s|]; }
        }
      }
    } else {
      TrimStartAppend(s, b);
      TrimEndOfBlankSuffix(TrimStart(s), b);
    }
  }

  lemma TrimOfUnpadded(s: string)
    requires Unpadded(s)
    ensures Trim(s) == s
  {
  }

  /** Trimming twice is trimming once. */
  lemma TrimIdempotent(s: string)
    ensures Trim(Trim(s)) == Trim(s)
  {
    TrimOfUnpadded(Trim(s));
  }

  // ---------------------------------------------------------------- case mapping

  function LowerChar(c: char): char {
    if 'A' <= c <= 'Z' then (c as int + 32) as char else c
  }

  function UpperChar(c: char): char {
    if 'a' <= c <= 'z' then (c as int - 32) as char else c
  }

  /** `String.prototype.toLowerCase`, on ASCII letters. */
  function Lower(s: string): (r: string)
    ensures |r| == |s| && forall i :: 0 <= i < |s| ==> r[i] == LowerChar(s[i])
  {
    seq(|s|, i requires 0 <= i < |s| => LowerChar(s[i]))
  }

  predicate IsLower(s: string) {
    forall i :: 0 <= i < |s| ==> !('A' <= s[i] <= 'Z')
  }

  lemma LowerIsLower(s: string)
    ensures IsLower(Lower(s)) && Lower(Lower(s)) == Lower(s)
  {
  }

  lemma LowerOfLower(s: string)
    requires IsLower(s)
    ensures Lower(s) == s
  {
  }

  lemma {:induction false} TrimStartLower(s: string)
    ensures TrimStart(Lower(s)) == Lower(TrimStart(s))
    decreases |s|
  {
    if s != [] {
      assert Lower(s)[1..] == Lower(s[1..]);
      TrimStartLower(s[1..]);
    }
  }

  lemma {:induction false} TrimEndLower(s: string)
    ensures TrimEnd(Lower(s)) == Lower(TrimEnd(s))
    decreases |s|
  {
    if s != [] {
      assert Lower(s)[..|s| - 1] == Lower(s[..|s| - 1]);
      TrimEndLower(s[..|s| - 1]);
    }
  }

  /** Lower-casing does not move the white-space boundary, so the two commute. */
  lemma TrimLowerCommute(s: string)
    ensures Trim(Lower(s)) == Lower(Trim(s))
  {
    TrimStartLower(s);
    TrimEndLower(TrimStart(s));
  }

  /** The key `s.trim().toLowerCase()` is already trimmed and lower case. */
  lemma NormalisedKeyIsFixed(s: string)
    ensures Trim(Lower(Trim(s))) == Lower(Trim(s))
    ensures Lower(Lower(Trim(s))) == Lower(Trim(s))
  {
    TrimLowerCommute(Trim(s));
    TrimIdempotent(s);
    LowerIsLower(Trim(s));
  }

  // ---------------------------------------------------------------- regular expressions

  /** The regular-expression class `\w`. */
  predicate IsWordChar(c: char) {
    'a' <= c <= 'z' || 'A' <= c <= 'Z' || '0' <= c <= '9' || c == '_'
  }

  predicate IsWord(s: string) {
    forall i :: 0 <= i < |s| ==> IsWordChar(s[i])
  }

  // ---------------------------------------------------------------- join

  /** `Array.prototype.join(sep)` over strings. */
  function Join(xs: seq<string>, sep: string): string
  {
    if |xs| == 0 then "" else if |xs| == 1 then xs[0] else xs[0] + sep + Join(xs[1..], sep)
  }

  function TotalLength(xs: seq<string>): nat
  {
    if xs == [] then 0 else |xs[0]| + TotalLength(xs[1..])
  }

  /** `n` parts are held together by exactly `n - 1` separators. */
  lemma {:induction false} JoinLength(xs: seq<string>, sep: string)
    requires xs != []
    ensures |Join(xs, sep)| == TotalLength(xs) + (|xs| - 1) * |sep|
    decreases |xs|
  {
    if |xs| > 1 {
      JoinLength(xs[1..], sep);
    }
  }

  /** Joining one more part appends the separator and that part. */
  lemma {:induction false} JoinSnoc(xs: seq<string>, x: string, sep: string)
    requires xs != []
    ensures Join(xs + [x], sep) == Join(xs, sep) + sep + x
    decreases |xs|
  {
    if |xs| == 1 {
      assert (xs + [x])[1..] == [x];
    } else {
      assert (xs + [x])[1..] == xs[1..] + [x];
      JoinSnoc(xs[1..], x, sep);
    }
  }

  // ---------------------------------------------------------------- string order

  /** Code-point lexicographic order: `a` sorts strictly before `b`. */
  predicate Less(a: string, b: string)
    decreases |a|
  {
    if a == [] then b != []
    else if b == [] then false
    else a[0] < b[0] || (a[0] == b[0] && Less(a[1..], b[1..]))
  }

  lemma {:induction false} LessIrreflexive(a: string)
    ensures !Less(a, a)
    decreases |a|
  {
    if a != [] { LessIrreflexive(a[1..]); }
  }

  lemma {:induction false} LessTransitive(a: string, b: string, c: string)
    requires Less(a, b) && Less(b, c)
    ensures Less(a, c)
    decreases |a|
  {
    if a != [] && b != [] && c != [] && a[0] == b[0] == c[0] {
      LessTransitive(a[1..], b[1..], c[1..]);
    }
  }

  lemma {:induction false} LessTotal(a: string, b: string)
    ensures a == b || Less(a, b) || Less(b, a)
    decreases |a|
  {
    if a != [] && b != [] && a[0] == b[0] {
      LessTotal(a[1..], b[1..]);
      if a[1..] == b[1..] {
        assert a == [a[0]] + a[1..] && b == [b[0]] + b[1..];
      }
    }
  }

  /** `a` sorts no later than `b`. */
  predicate NotAfter(a: string, b: string) {
    !Less(b, a)
  }

  lemma NotAfterTotal(a: string, b: string)
    ensures NotAfter(a, b) || NotAfter(b, a)
  {
    LessTotal(a, b);
    if a == b { LessIrreflexive(a); }
    else if Less(a, b) && Less(b, a) { LessTransitive(a, b, a); LessIrreflexive(a); }
  }

  lemma NotAfterTransitive(a: string, b: string, c: string)
    requires NotAfter(a, b) && NotAfter(b, c)
    ensures NotAfter(a, c)
  {
    if Less(c, a) {
      LessTotal(a, b);
      if a == b {
      } else if Less(a, b) {
        LessTransitive(c, a, b);
      }
    }
  }
}
