/** String operations of the JavaScript runtime that the core relies on:
    `trim`, `substring`, `split`, `join`, `includes`, `toLowerCase` and
    the `<` / `>` comparison of strings. A string is a sequence of chars. */
module Text {

  /** The WhiteSpace and LineTerminator code points of ECMAScript, which is
      what `String.prototype.trim`, `parseInt`, `parseFloat` and `Number`
      skip. */
  predicate IsSpace(c: char) {
    || c == '\t' || c == '\n' || c == '\U{000B}' || c == '\U{000C}' || c == '\r'
    || c == ' ' || c == '\U{00A0}' || c == '\U{1680}'
    || ('\U{2000}' <= c <= '\U{200A}')
    || c == '\U{2028}' || c == '\U{2029}' || c == '\U{202F}' || c == '\U{205F}'
    || c == '\U{3000}' || c == '\U{FEFF}'
  }

  /** A string made of white space only (the empty string included). */
  predicate IsBlank(s: string) {
    forall i :: 0 <= i < |s| ==> IsSpace(s[i])
  }

  lemma BlankConcat(a: string, b: string)
    requires IsBlank(a) && IsBlank(b)
    ensures IsBlank(a + b)
  {
    forall i | 0 <= i < |a + b|
      ensures IsSpace((a + b)[i])
    {
      if i >= |a| {
        assert (a + b)[i] == b[i - |a|];
      }
    }
  }

  /** `s.trimStart()`: the suffix left after dropping leading white space. */
  function TrimStart(s: string): (r: string)
    ensures |r| <= |s| && r == s[|s| - |r|..]
    ensures IsBlank(s[..|s| - |r|])
    ensures r == [] || !IsSpace(r[0])
  {
    if s != [] && IsSpace(s[0]) then
      var r := TrimStart(s[1..]);
      assert s[..|s| - |r|] == [s[0]] + s[1..][..|s| - 1 - |r|];
      BlankConcat([s[0]], s[1..][..|s| - 1 - |r|]);
      r
    else s
  }

  /** `s.trimEnd()`: the prefix left after dropping trailing white space. */
  function TrimEnd(s: string): (r: string)
    ensures |r| <= |s| && r == s[..|r|]
    ensures IsBlank(s[|r|..])
    ensures r == [] || !IsSpace(r[|r| - 1])
  {
    if s != [] && IsSpace(s[|s| - 1]) then
      var r := TrimEnd(s[..|s| - 1]);
      assert s[|r|..] == s[..|s| - 1][|r|..] + [s[|s| - 1]];
      BlankConcat(s[..|s| - 1][|r|..], [s[|s| - 1]]);
      r
    else s
  }

  /** `s.trim()`. */
  function Trim(s: string): (r: string)
    ensures IsTrimmed(r)
  {
    var t := TrimStart(s);
    var r := TrimEnd(t);
    assert r != [] ==> r[0] == t[0];
    r
  }

  /** A string with no white space at either end, i.e. one `trim` leaves alone. */
  predicate IsTrimmed(s: string) {
    s == [] || (!IsSpace(s[0]) && !IsSpace(s[|s| - 1]))
  }

  /** `trim` cuts out one contiguous piece `s[i..j]` of its input,
      everything around that piece is white space, and the piece itself is
      trimmed. */
  lemma TrimIsSlice(s: string) returns (i: nat, j: nat)
    ensures i <= j <= |s| && Trim(s) == s[i..j]
    ensures IsBlank(s[..i]) && IsBlank(s[j..])
    ensures IsTrimmed(Trim(s))
  {
    var t := TrimStart(s);
    i := |s| - |t|;
    var r := TrimEnd(t);
    j := i + |r|;
    PrefixOfSuffix(s, t, r);
    assert Trim(s) == r == s[i..j];
    assert IsBlank(s[..i]);
    assert IsBlank(t[|r|..]) && t[|r|..] == s[j..];
  }

  /** A prefix `r` of a suffix `t` of `s` is a slice of `s`, and what
      follows `r` in `t` is what follows it in `s`. */
  lemma PrefixOfSuffix(s: string, t: string, r: string)
    requires |t| <= |s| && t == s[|s| - |t|..]
    requires |r| <= |t| && r == t[..|r|]
    ensures r == s[|s| - |t|..|s| - |t| + |r|]
    ensures t[|r|..] == s[|s| - |t| + |r|..]
  {
  }

  /** A line is skipped by the upload exactly when it trims to nothing. */
  lemma TrimEmptyIffBlank(s: string)
    ensures Trim(s) == [] <==> IsBlank(s)
  {
    var t := TrimStart(s);
    if Trim(s) == [] {
      assert s == s[..|s| - |t|] + t;
      assert IsBlank(t[0..]);
    }
    if IsBlank(s) {
      TrimStartBlank(s);
    }
  }

  /** `trim` gives back a trimmed string followed by white-space padding. */
  lemma TrimPadded(s: string, pad: string)
    requires IsTrimmed(s) && IsBlank(pad)
    ensures Trim(s + pad) == s
  {
    if s == [] {
      assert s + pad == pad;
      TrimStartBlank(pad);
    } else {
      assert (s + pad)[0] == s[0];
      TrimEndPadded(s, pad);
    }
  }

  lemma {:induction false} TrimStartBlank(s: string)
    requires IsBlank(s)
    ensures TrimStart(s) == []
  {
    if s != [] {
      TrimStartBlank(s[1..]);
    }
  }

  lemma {:induction false} TrimEndPadded(s: string, pad: string)
    requires IsTrimmed(s) && IsBlank(pad)
    ensures TrimEnd(s + pad) == s
    decreases |pad|
  {
    if pad == [] {
      assert s + pad == s;
    } else {
      var p := pad[..|pad| - 1];
      assert (s + pad)[..|s + pad| - 1] == s + p;
      TrimEndPadded(s, p);
    }
  }

  /** `s.substring(a, b)` for 0 <= a <= b: both ends are clamped to the
      length, so a short line yields short or empty fields. */
  function Substring(s: string, a: nat, b: nat): (r: string)
    requires a <= b
    ensures |r| == Min(b, |s|) - Min(a, |s|)
    ensures b <= |s| ==> r == s[a..b]
  {
    s[Min(a, |s|)..Min(b, |s|)]
  }

  function Min(x: int, y: int): int {
    if x <= y then x else y
  }

  /** `parts.join(sep)`. */
  function Join(parts: seq<string>, sep: string): string
  {
    if parts == [] then []
    else if |parts| == 1 then parts[0]
    else parts[0] + sep + Join(parts[1..], sep)
  }

  /** `s.split(sep)` for a one-character separator: there is always at
      least one piece and no piece contains the separator. */
  function Split(s: string, sep: char): (parts: seq<string>)
    ensures |parts| >= 1
    ensures forall k :: 0 <= k < |parts| ==> sep !in parts[k]
  {
    if s == [] then [[]]
    else
      var rest := Split(s[1..], sep);
      if s[0] == sep then [[]] + rest
      else [[s[0]] + rest[0]] + rest[1..]
  }

  /** Joining the pieces of a split with the separator gives the string
      back. */
  lemma {:induction false} SplitJoin(s: string, sep: char)
    ensures Join(Split(s, sep), [sep]) == s
  {
    if s != [] {
      var rest := Split(s[1..], sep);
      SplitJoin(s[1..], sep);
      if s[0] != sep {
        var parts := [[s[0]] + rest[0]] + rest[1..];
        assert parts[1..] == rest[1..];
        if |rest| > 1 {
          assert Join(rest, [sep]) == rest[0] + [sep] + Join(rest[1..], [sep]);
        }
      }
    }
  }

  /** Splitting a string that does not contain the separator gives the
      string itself. */
  lemma {:induction false} SplitNoSeparator(s: string, sep: char)
    requires sep !in s
    ensures Split(s, sep) == [s]
  {
    if s != [] {
      SplitNoSeparator(s[1..], sep);
      assert [s[0]] + s[1..] == s;
    }
  }

  /** Splitting distributes over a separator: the pieces of `a + sep + b`
      are the pieces of `a` followed by the pieces of `b`. */
  lemma {:induction false} SplitAtSeparator(a: string, sep: char, b: string)
    ensures Split(a + [sep] + b, sep) == Split(a, sep) + Split(b, sep)
  {
    var s := a + [sep] + b;
    if a == [] {
      assert s[1..] == b;
    } else {
      assert s[1..] == a[1..] + [sep] + b;
      SplitAtSeparator(a[1..], sep, b);
    }
  }

  /** The last piece of a split, what `split(sep).pop()` yields: the
      suffix after the last separator, or the whole string when it has
      none. */
  lemma SplitLast(s: string, sep: char)
    ensures var parts := Split(s, sep); var p := parts[|parts| - 1];
      && |p| <= |s| && p == s[|s| - |p|..]
      && (|parts| == 1 <==> sep !in s)
      && (|parts| == 1 ==> p == s)
      && (|parts| > 1 ==> |p| < |s| && s[|s| - |p| - 1] == sep)
  {
    SplitLastSuffix(s, sep);
    SplitSingle(s, sep);
  }

  lemma SplitLastSuffix(s: string, sep: char)
    ensures var parts := Split(s, sep); var p := parts[|parts| - 1];
      && |p| <= |s| && p == s[|s| - |p|..]
      && (|parts| == 1 ==> p == s)
      && (|parts| > 1 ==> |p| < |s| && s[|s| - |p| - 1] == sep)
  {
    var parts := Split(s, sep);
    var p := parts[|parts| - 1];
    SplitJoin(s, sep);
    if |parts| > 1 {
      JoinLast(parts, [sep]);
      var front := Join(parts[..|parts| - 1], [sep]) + [sep];
      assert s == front + p;
      assert s[|s| - |p|..] == p;
      assert s[|s| - |p| - 1] == front[|front| - 1];
    }
  }

  /** Joining splits off the last piece after the last separator. */
  lemma {:induction false} JoinLast(parts: seq<string>, sep: string)
    requires |parts| > 1
    ensures Join(parts, sep) == Join(parts[..|parts| - 1], sep) + sep + parts[|parts| - 1]
  {
    var n := |parts|;
    if n > 2 {
      JoinLast(parts[1..], sep);
      assert parts[1..][..n - 2] == parts[..n - 1][1..];
      assert parts[1..][n - 2] == parts[n - 1];
    } else {
      assert parts[..1] == [parts[0]];
    }
  }

  lemma {:induction false} SplitSingle(s: string, sep: char)
    ensures |Split(s, sep)| == 1 <==> sep !in s
  {
    if s != [] {
      SplitSingle(s[1..], sep);
      assert s == [s[0]] + s[1..];
    }
  }



  /** `s.includes(sub)`. */
  predicate Contains(s: string, sub: string) {
    exists i | 0 <= i <= |s| - |sub| :: OccursAt(s, sub, i)
  }

  predicate OccursAt(s: string, sub: string, i: nat)
    requires i + |sub| <= |s|
  {
    s[i..i + |sub|] == sub
  }

  /** A string without a given character contains no substring that starts
      with it. */
  lemma NotContainsByFirstChar(s: string, sub: string)
    requires sub != [] && sub[0] !in s
    ensures !Contains(s, sub)
  {
    forall i | 0 <= i <= |s| - |sub|
      ensures !OccursAt(s, sub, i)
    {
      assert s[i..i + |sub|][0] == s[i];
    }
  }

  /** `s.toLowerCase()` on the ASCII letters. */
  function ToLower(s: string): (r: string)
    ensures |r| == |s|
    ensures forall i :: 0 <= i < |s| ==> r[i] == LowerChar(s[i])
  {
    seq(|s|, i requires 0 <= i < |s| => LowerChar(s[i]))
  }

  function LowerChar(c: char): char {
    if 'A' <= c <= 'Z' then (c as int - 'A' as int + 'a' as int) as char else c
  }

  /** JavaScript's `a < b` on strings: lexicographic by character. */
  predicate Less(a: string, b: string) {
    if a == [] then b != []
    else if b == [] then false
    else if a[0] != b[0] then a[0] < b[0]
    else Less(a[1..], b[1..])
  }

  /** `<` on strings is a strict total order: of two different strings
      exactly one is less than the other. */
  lemma {:induction false} LessTotal(a: string, b: string)
    ensures a != b ==> (Less(a, b) <==> !Less(b, a))
    ensures !Less(a, a)
  {
    if a != [] && b != [] {
      LessTotal(a[1..], b[1..]);
      if a[0] == b[0] {
        assert a == [a[0]] + a[1..];
        assert b == [b[0]] + b[1..];
      }
    } else if a != [] {
      LessTotal(a[1..], a[1..]);
    }
  }
}
