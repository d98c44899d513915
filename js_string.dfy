/** Strings and lists with the meaning of the JavaScript built-ins the front end
    relies on: the `\s` character class and `String.prototype.trim`,
    `String.prototype.split` on one character, `Array.prototype.join`,
    `Array.prototype.filter` and `Array.prototype.map`. */
module JsString {

  /** LineTerminator: what `.` refuses to match and where `$` matches in multiline mode. */
  predicate IsLineTerminator(c: char) {
    c == '\n' || c == '\r' || c == '\U{2028}' || c == '\U{2029}'
  }

  /** The `\s` class, which is also the set `trim` removes: WhiteSpace (TAB, VT, FF,
      SP, NBSP, ZWNBSP and the space separators) plus LineTerminator. */
  predicate IsWhitespace(c: char) {
    || IsLineTerminator(c)
    || c == '\t' || c == '\U{000B}' || c == '\U{000C}' || c == ' '
    || c == '\U{00A0}' || c == '\U{1680}' || ('\U{2000}' <= c <= '\U{200A}')
    || c == '\U{202F}' || c == '\U{205F}' || c == '\U{3000}' || c == '\U{FEFF}'
  }

  /** Every line terminator is whitespace too, so `\s+` runs on across line ends. */
  lemma LineTerminatorIsWhitespace(c: char)
    requires IsLineTerminator(c)
    ensures IsWhitespace(c)
  {
  }

  predicate AllWhitespace(s: string) {
    forall i :: 0 <= i < |s| ==> IsWhitespace(s[i])
  }

  /** The number of occurrences of `c` in `s`. */
  function Count(s: string, c: char): nat {
    if s == [] then 0 else (if s[0] == c then 1 else 0) + Count(s[1..], c)
  }

  lemma {:induction false} CountConcat(a: string, b: string, c: char)
    ensures Count(a + b, c) == Count(a, c) + Count(b, c)
  {
    if a == [] {
      assert a + b == b;
    } else {
      assert (a + b)[1..] == a[1..] + b;
      CountConcat(a[1..], b, c);
    }
  }

  lemma {:induction false} CountZero(s: string, c: char)
    ensures Count(s, c) == 0 <==> c !in s
  {
    if s != [] {
      CountZero(s[1..], c);
      assert c in s <==> s[0] == c || c in s[1..];
    }
  }

  // ---------------------------------------------------------------- trim

  /** The length of the run of whitespace at the start of `s`. */
  function LeadingWhitespace(s: string): (n: nat)
    ensures n <= |s| && forall i :: 0 <= i < n ==> IsWhitespace(s[i])
    ensures n < |s| ==> !IsWhitespace(s[n])
  {
    if s != [] && IsWhitespace(s[0]) then
      1 + LeadingWhitespace(s[1..])
    else 0
  }

  /** The length of the run of whitespace at the end of `s`. */
  function TrailingWhitespace(s: string): (n: nat)
    ensures n <= |s| && forall i :: |s| - n <= i < |s| ==> IsWhitespace(s[i])
    ensures n < |s| ==> !IsWhitespace(s[|s| - n - 1])
  {
    if s != [] && IsWhitespace(s[|s| - 1]) then
      1 + TrailingWhitespace(s[..|s| - 1])
    else 0
  }

  function TrimStart(s: string): string {
    s[LeadingWhitespace(s)..]
  }

  function TrimEnd(s: string): string {
    s[..|s| - TrailingWhitespace(s)]
  }

  /** `s.trim()`: `s` with its leading and trailing whitespace removed; the result
      is empty exactly when `s` is all whitespace. */
  function Trim(s: string): (r: string)
    ensures r == [] <==> AllWhitespace(s)
    ensures r != [] ==> !IsWhitespace(r[0]) && !IsWhitespace(r[|r| - 1])
  {
    var t := TrimStart(s);
    var k := LeadingWhitespace(s);
    assert AllWhitespace(s) ==> k == |s|;
    assert k == |s| ==> s == s[..k];
    assert t != [] ==> t[0] == s[k];
    assert t != [] ==> TrailingWhitespace(t) < |t|;
    TrimEnd(t)
  }

  /** What `trim` returns is a contiguous piece of `s` with only whitespace around it. */
  lemma TrimIsInfix(s: string) returns (k: nat)
    ensures k + |Trim(s)| <= |s| && Trim(s) == s[k..k + |Trim(s)|]
    ensures AllWhitespace(s[..k]) && AllWhitespace(s[k + |Trim(s)|..])
  {
    k := LeadingWhitespace(s);
    var t := s[k..];
    var n := |t| - TrailingWhitespace(t);
    assert Trim(s) == t[..n];
    assert t[..n] == s[k..k + n];
    assert t[n..] == s[k + n..];
  }

  lemma TrimKeepsOut(s: string, c: char)
    requires c !in s
    ensures c !in Trim(s)
  {
    var k := TrimIsInfix(s);
    forall i | 0 <= i < |Trim(s)| ensures Trim(s)[i] != c {
      assert Trim(s)[i] == s[k + i];
    }
  }

  lemma {:induction false} LeadingWhitespaceSnoc(s: string, c: char)
    ensures LeadingWhitespace(s + [c]) ==
      if LeadingWhitespace(s) < |s| then LeadingWhitespace(s)
      else if IsWhitespace(c) then |s| + 1 else |s|
  {
    if s == [] {
      assert s + [c] == [c];
    } else {
      assert (s + [c])[1..] == s[1..] + [c];
      LeadingWhitespaceSnoc(s[1..], c);
    }
  }

  lemma {:induction false} TrailingWhitespaceCons(c: char, s: string)
    ensures TrailingWhitespace([c] + s) ==
      if TrailingWhitespace(s) < |s| then TrailingWhitespace(s)
      else if IsWhitespace(c) then |s| + 1 else |s|
  {
    if s == [] {
      assert [c] + s == [c];
    } else {
      assert ([c] + s)[..|s|] == [c] + s[..|s| - 1];
      TrailingWhitespaceCons(c, s[..|s| - 1]);
    }
  }

  /** Whitespace added at either end does not change what `trim` returns. */
  lemma TrimConsWhitespace(c: char, s: string)
    requires IsWhitespace(c)
    ensures Trim([c] + s) == Trim(s)
  {
    assert ([c] + s)[1..] == s;
    assert TrimStart([c] + s) == TrimStart(s) by {
      var k := LeadingWhitespace(s);
      assert ([c] + s)[k + 1..] == s[k..];
    }
  }

  lemma TrimSnocWhitespace(s: string, c: char)
    requires IsWhitespace(c)
    ensures Trim(s + [c]) == Trim(s)
  {
    LeadingWhitespaceSnoc(s, c);
    var k := LeadingWhitespace(s);
    if k < |s| {
      assert TrimStart(s + [c]) == TrimStart(s) + [c] by {
        assert (s + [c])[k..] == s[k..] + [c];
      }
      TrimEndSnocWhitespace(TrimStart(s), c);
    } else {
      assert TrimStart(s + [c]) == [] && TrimStart(s) == [];
    }
  }

  lemma TrimEndSnocWhitespace(t: string, c: char)
    requires IsWhitespace(c)
    ensures TrimEnd(t + [c]) == TrimEnd(t)
  {
    assert (t + [c])[..|t|] == t;
    assert TrailingWhitespace(t + [c]) == TrailingWhitespace(t) + 1;
  }

  // ---------------------------------------------------------------- split and join

  /** `s.split(sep)`: the pieces of `s` between occurrences of `sep`; there is one
      more piece than there are separators, so even `""` gives one piece. */
  function Split(s: string, sep: char): (r: seq<string>)
    ensures |r| == Count(s, sep) + 1
  {
    if s == [] then [[]]
    else
      var rest := Split(s[1..], sep);
      if s[0] == sep then [[]] + rest else [[s[0]] + rest[0]] + rest[1..]
  }

  /** No piece of a split holds the separator. */
  lemma {:induction false} SplitPiecesLackSeparator(s: string, sep: char)
    ensures forall i :: 0 <= i < |Split(s, sep)| ==> sep !in Split(s, sep)[i]
  {
    if s != [] {
      SplitPiecesLackSeparator(s[1..], sep);
      var rest := Split(s[1..], sep);
      if s[0] != sep {
        assert sep !in [s[0]] + rest[0];
      }
    }
  }

  /** Splitting a string that starts with `c`. */
  lemma SplitCons(c: char, s: string, sep: char)
    ensures Split([c] + s, sep) ==
      if c == sep then [[]] + Split(s, sep)
      else [[c] + Split(s, sep)[0]] + Split(s, sep)[1..]
  {
    assert ([c] + s)[1..] == s;
  }

  /** `xs.join(sep)`; the empty list joins to `""`. */
  function Join(xs: seq<string>, sep: string): string {
    if |xs| == 0 then []
    else if |xs| == 1 then xs[0]
    else xs[0] + sep + Join(xs[1..], sep)
  }

  /** The total number of occurrences of `c` in the strings of `xs`. */
  function CountAll(xs: seq<string>, c: char): nat {
    if xs == [] then 0 else Count(xs[0], c) + CountAll(xs[1..], c)
  }

  lemma {:induction false} CountAllAbsent(xs: seq<string>, c: char)
    requires forall i :: 0 <= i < |xs| ==> c !in xs[i]
    ensures CountAll(xs, c) == 0
  {
    if xs != [] {
      CountZero(xs[0], c);
      CountAllAbsent(xs[1..], c);
    }
  }

  /** A character in neither the pieces nor the separator is not in the joined string. */
  lemma {:induction false} JoinAbsent(xs: seq<string>, sep: string, c: char)
    requires c !in sep
    requires forall i :: 0 <= i < |xs| ==> c !in xs[i]
    ensures c !in Join(xs, sep)
  {
    if |xs| > 1 {
      JoinAbsent(xs[1..], sep, c);
    }
  }

  /** Joining adds exactly one separator between neighbouring pieces. */
  lemma {:induction false} CountJoin(xs: seq<string>, sep: string, c: char)
    requires |xs| >= 1
    ensures Count(Join(xs, sep), c) == CountAll(xs, c) + (|xs| - 1) * Count(sep, c)
  {
    if |xs| > 1 {
      CountJoin(xs[1..], sep, c);
      CountConcat(xs[0] + sep, Join(xs[1..], sep), c);
      CountConcat(xs[0], sep, c);
    } else {
      assert xs[1..] == [];
    }
  }

  /** Joining pieces that do not contain the separator and splitting again gives the pieces back. */
  lemma {:induction false} SplitJoin(xs: seq<string>, sep: char)
    requires |xs| >= 1
    requires forall i :: 0 <= i < |xs| ==> sep !in xs[i]
    ensures Split(Join(xs, [sep]), sep) == xs
  {
    SplitNoSeparator(xs[0], sep);
    if |xs| > 1 {
      SplitJoin(xs[1..], sep);
      SplitAtSeparator(xs[0], Join(xs[1..], [sep]), sep);
      assert [xs[0]] + xs[1..] == xs;
    }
  }

  /** Splitting and joining again with the same separator gives the string back. */
  lemma {:induction false} JoinSplit(s: string, sep: char)
    ensures Join(Split(s, sep), [sep]) == s
  {
    if s != [] {
      var rest := Split(s[1..], sep);
      JoinSplit(s[1..], sep);
      if s[0] == sep {
        assert Join([[]] + rest, [sep]) == [] + [sep] + Join(rest, [sep]) by {
          assert ([[]] + rest)[1..] == rest;
        }
        assert s == [s[0]] + s[1..];
      } else {
        JoinCons(s[0], rest, [sep]);
        assert s == [s[0]] + s[1..];
      }
    }
  }

  /** A non-empty text in front of another is its first character in front of the rest. */
  lemma ConsSplit(a: string, b: string)
    requires a != []
    ensures a + b == [a[0]] + (a[1..] + b)
  {
    assert a == [a[0]] + a[1..];
  }

  lemma JoinCons(c: char, xs: seq<string>, sep: string)
    requires |xs| >= 1
    ensures Join([[c] + xs[0]] + xs[1..], sep) == [c] + Join(xs, sep)
  {
    var ys := [[c] + xs[0]] + xs[1..];
    if |xs| > 1 {
      assert ys[1..] == xs[1..];
    }
  }

  lemma {:induction false} SplitNoSeparator(s: string, sep: char)
    requires sep !in s
    ensures Split(s, sep) == [s]
  {
    if s != [] {
      SplitNoSeparator(s[1..], sep);
      assert s == [s[0]] + s[1..];
    }
  }

  /** A separator between two strings separates their pieces. */
  lemma {:induction false} SplitAtSeparator(a: string, b: string, sep: char)
    ensures Split(a + [sep] + b, sep) == Split(a, sep) + Split(b, sep)
  {
    if a == [] {
      assert a + [sep] + b == [sep] + b;
      SplitCons(sep, b, sep);
    } else {
      var c, a' := a[0], a[1..];
      var t := a' + [sep] + b;
      assert a + [sep] + b == [c] + t;
      assert a == [c] + a';
      SplitAtSeparator(a', b, sep);
      SplitCons(c, t, sep);
      SplitCons(c, a', sep);
      ConsPiece(c, sep, Split(a', sep), Split(b, sep));
    }
  }

  /** What `SplitCons` does to a list of pieces commutes with appending more pieces. */
  lemma ConsPiece(c: char, sep: char, sa: seq<string>, sb: seq<string>)
    requires |sa| >= 1
    ensures (if c == sep then [[]] + (sa + sb) else [[c] + (sa + sb)[0]] + (sa + sb)[1..])
         == (if c == sep then [[]] + sa else [[c] + sa[0]] + sa[1..]) + sb
  {
    if c != sep {
      assert (sa + sb)[1..] == sa[1..] + sb;
    }
  }

  /** Extending the last piece commutes with what `SplitCons` does to the first. */
  lemma SnocPiece(d: char, sep: char, st: seq<string>, c: char)
    requires |st| >= 1
    ensures var ext := st[..|st| - 1] + [st[|st| - 1] + [c]];
      var sa := if d == sep then [[]] + st else [[d] + st[0]] + st[1..];
      (if d == sep then [[]] + ext else [[d] + ext[0]] + ext[1..])
        == sa[..|sa| - 1] + [sa[|sa| - 1] + [c]]
  {
    var ext := st[..|st| - 1] + [st[|st| - 1] + [c]];
    if d != sep {
      if |st| == 1 {
        assert ext == [st[0] + [c]];
        assert [d] + (st[0] + [c]) == ([d] + st[0]) + [c];
      } else {
        assert ext[0] == st[0];
        assert ext[1..] == st[1..|st| - 1] + [st[|st| - 1] + [c]];
      }
    }
  }

  /** A character other than the separator extends the last piece. */
  lemma {:induction false} SplitSnoc(a: string, c: char, sep: char)
    requires c != sep
    ensures var sa := Split(a, sep);
      Split(a + [c], sep) == sa[..|sa| - 1] + [sa[|sa| - 1] + [c]]
  {
    if a == [] {
      var e: string := [];
      assert a + [c] == [c] + e;
      SplitCons(c, e, sep);
      assert Split(e, sep) == [e];
    } else {
      var d, a' := a[0], a[1..];
      assert a + [c] == [d] + (a' + [c]);
      assert a == [d] + a';
      SplitSnoc(a', c, sep);
      SplitCons(d, a' + [c], sep);
      SplitCons(d, a', sep);
      SnocPiece(d, sep, Split(a', sep), c);
    }
  }

  // ---------------------------------------------------------------- arrays

  /** `xs.filter(p)`: the elements that satisfy `p`, in their original order. */
  function Filter<T>(p: T -> bool, xs: seq<T>): (r: seq<T>)
    ensures |r| <= |xs|
    ensures forall i :: 0 <= i < |r| ==> p(r[i])
  {
    if xs == [] then []
    else if p(xs[0]) then [xs[0]] + Filter(p, xs[1..])
    else Filter(p, xs[1..])
  }

  /** `filter` keeps exactly the elements that satisfy `p`. */
  lemma {:induction false} FilterMembers<T>(p: T -> bool, xs: seq<T>)
    ensures forall i :: 0 <= i < |Filter(p, xs)| ==> Filter(p, xs)[i] in xs
    ensures forall i :: 0 <= i < |xs| && p(xs[i]) ==> xs[i] in Filter(p, xs)
  {
    if xs != [] {
      FilterMembers(p, xs[1..]);
      assert forall i :: 1 <= i < |xs| ==> xs[i] == xs[1..][i - 1];
    }
  }

  lemma {:induction false} FilterConcat<T>(p: T -> bool, xs: seq<T>, ys: seq<T>)
    ensures Filter(p, xs + ys) == Filter(p, xs) + Filter(p, ys)
  {
    if xs == [] {
      assert xs + ys == ys;
    } else {
      assert (xs + ys)[1..] == xs[1..] + ys;
      FilterConcat(p, xs[1..], ys);
    }
  }

  /** `xs.map(f)`. */
  function Map<T, U>(f: T -> U, xs: seq<T>): (r: seq<U>)
    ensures |r| == |xs|
    ensures forall i :: 0 <= i < |xs| ==> r[i] == f(xs[i])
  {
    if xs == [] then [] else [f(xs[0])] + Map(f, xs[1..])
  }

  lemma MapConcat<T, U>(f: T -> U, xs: seq<T>, ys: seq<T>)
    ensures Map(f, xs + ys) == Map(f, xs) + Map(f, ys)
  {
  }
}
