/** The browser code editor of the linear-algebra lesson: a text area with a line
    gutter, a "run" button that posts the code to the Python runner, a "format"
    button that rewrites the code with three regular-expression replacements, and
    a Tab key that inserts two spaces. The runner's reply arrives as a value. */
module CodeEditor {
  import opened JsString

  const FirstLine: string := "# Escribe tu código Python aquí"
  const SecondLine: string := "print(\"Hola desde GLYNNE\")"
  const InitialCode: string := FirstLine + "\n" + SecondLine

  const EmptyCodeWarning: string := "⚠️ Escribe algo de código antes de ejecutar."
  const RunningNotice: string := "⌛ Ejecutando código..."
  const NoOutputNotice: string := "✅ Ejecución completada (sin salida)"
  const ErrorPrefix: string := "❌ Error: "
  const CopiedNotice: string := "📋 Código copiado al portapapeles"
  const SavedNotice: string := "💾 Código guardado (simulado)"
  const FormattedNotice: string := "✨ Código formateado"

  // ------------------------------------------------------------ the line gutter

  /** `Array.from({length: code.split('\n').length}, (_, i) => i + 1)`: one number
      per line, counting from 1. */
  function LineNumbers(code: string): (r: seq<int>)
    ensures |r| == Count(code, '\n') + 1
    ensures forall i :: 0 <= i < |r| ==> r[i] == i + 1
  {
    seq(|Split(code, '\n')|, i => i + 1)
  }

  // ------------------------------------------------- `.replace(/\s+$/gm, '')`

  /** Where `$` holds in multiline mode: at the end of the input or just before a
      line terminator. */
  predicate LineEndAt(s: string, k: nat)
    requires k <= |s|
  {
    k == |s| || IsLineTerminator(s[k])
  }

  /** Backtracking of `\s+` from a run of `n` whitespace characters: the longest
      `k` in `1..n` at which `$` holds, or 0 when there is none. */
  function LastLineEnd(s: string, n: nat): (k: nat)
    requires n <= |s|
    ensures k <= n
    ensures k > 0 ==> LineEndAt(s, k)
    ensures forall j :: k < j <= n && j > 0 ==> !LineEndAt(s, j)
    decreases n
  {
    if n == 0 then 0 else if LineEndAt(s, n) then n else LastLineEnd(s, n - 1)
  }

  /** The length of the match of `\s+$` (multiline) tried at the start of `s`, 0 when
      the match fails there. */
  function TrailingMatch(s: string): (m: nat)
    ensures m <= LeadingWhitespace(s) && AllWhitespace(s[..m])
    ensures m > 0 ==> LineEndAt(s, m)
    ensures forall j :: m < j <= LeadingWhitespace(s) ==> !LineEndAt(s, j)
  {
    var w := LeadingWhitespace(s);
    var m := LastLineEnd(s, w);
    assert s[..m] == s[..w][..m];
    m
  }

  /** The global replacement scans left to right: where the pattern matches, the
      match is dropped and scanning resumes after it; elsewhere one character is
      kept. */
  function StripTrailingWhitespace(s: string): string
    decreases |s|
  {
    if s == [] then []
    else
      var m := TrailingMatch(s);
      if m > 0 then StripTrailingWhitespace(s[m..]) else [s[0]] + StripTrailingWhitespace(s[1..])
  }

  /** No line ends in whitespace and neither does the text: every whitespace
      character is followed by a character that is not a line terminator. */
  predicate NoTrailingWhitespace(s: string) {
    forall i :: 0 <= i < |s| && IsWhitespace(s[i]) ==> i + 1 < |s| && !IsLineTerminator(s[i + 1])
  }

  predicate IsVisible(c: char) {
    !IsWhitespace(c)
  }

  /** The characters that are not whitespace, in order. */
  function Visible(s: string): string {
    Filter(IsVisible, s)
  }

  /** A failed match one character into a whitespace run stays failed one
      character further on. */
  lemma NoMatchShifts(s: string)
    requires |s| > 0 && IsWhitespace(s[0]) && TrailingMatch(s) == 0
    ensures |s| > 1 && !IsLineTerminator(s[1])
    ensures TrailingMatch(s[1..]) == 0
  {
    var w := LeadingWhitespace(s);
    assert w >= 1;
    assert !LineEndAt(s, 1);
    var t := s[1..];
    var k := TrailingMatch(t);
    if k > 0 {
      assert LeadingWhitespace(t) == w - 1;
      assert LineEndAt(s, k + 1);
      assert false;
    }
  }

  lemma {:induction false} StripLeavesNoTrailingWhitespace(s: string)
    ensures NoTrailingWhitespace(StripTrailingWhitespace(s))
    ensures StripTrailingWhitespace(s) != [] && |s| > 0 && TrailingMatch(s) == 0 ==>
              StripTrailingWhitespace(s)[0] == s[0]
    decreases |s|
  {
    if s != [] {
      var m := TrailingMatch(s);
      if m > 0 {
        StripLeavesNoTrailingWhitespace(s[m..]);
      } else {
        var rest := StripTrailingWhitespace(s[1..]);
        StripLeavesNoTrailingWhitespace(s[1..]);
        if IsWhitespace(s[0]) {
          NoMatchShifts(s);
          assert rest == [s[1]] + StripTrailingWhitespace(s[2..]) by {
            assert s[1..][1..] == s[2..];
          }
        }
        var r := [s[0]] + rest;
        forall i | 0 <= i < |r| && IsWhitespace(r[i])
          ensures i + 1 < |r| && !IsLineTerminator(r[i + 1])
        {
          if i > 0 {
            assert r[i] == rest[i - 1];
          }
        }
      }
    }
  }

  lemma {:induction false} AllWhitespaceInvisible(s: string)
    requires AllWhitespace(s)
    ensures Visible(s) == []
    decreases |s|
  {
    if s != [] {
      AllWhitespaceInvisible(s[1..]);
    }
  }

  /** Only whitespace is removed: the other characters survive, in order. */
  lemma {:induction false} StripKeepsVisible(s: string)
    ensures Visible(StripTrailingWhitespace(s)) == Visible(s)
    decreases |s|
  {
    if s != [] {
      var m := TrailingMatch(s);
      if m > 0 {
        StripKeepsVisible(s[m..]);
        VisibleAfterWhitespace(s, m);
      } else {
        StripKeepsVisible(s[1..]);
        VisibleCons(s[0], s[1..]);
        VisibleCons(s[0], StripTrailingWhitespace(s[1..]));
        assert s == [s[0]] + s[1..];
      }
    }
  }

  lemma VisibleAfterWhitespace(s: string, m: nat)
    requires m <= |s| && AllWhitespace(s[..m])
    ensures Visible(s[m..]) == Visible(s)
  {
    assert s == s[..m] + s[m..];
    FilterConcat(IsVisible, s[..m], s[m..]);
    AllWhitespaceInvisible(s[..m]);
  }

  lemma VisibleCons(c: char, t: string)
    ensures Visible([c] + t) == (if IsVisible(c) then [c] else []) + Visible(t)
  {
    assert ([c] + t)[1..] == t;
  }

  /** Text with no trailing whitespace is left alone. */
  lemma StripIdentity(s: string)
    requires NoTrailingWhitespace(s)
    ensures StripTrailingWhitespace(s) == s
  {
    StripLocal(s, []);
    assert s + [] == s;
  }

  lemma NoTrailingWhitespaceTail(s: string)
    requires s != [] && NoTrailingWhitespace(s)
    ensures NoTrailingWhitespace(s[1..])
  {
    forall i | 0 <= i < |s[1..]| && IsWhitespace(s[1..][i])
      ensures i + 1 < |s[1..]| && !IsLineTerminator(s[1..][i + 1])
    {
      assert s[1..][i] == s[i + 1];
    }
  }

  /** After text without trailing whitespace the pattern cannot match: every
      whitespace run in it is followed by a character that is not a line end. */
  lemma NoMatchAfterClean(a: string, b: string)
    requires a != [] && NoTrailingWhitespace(a)
    ensures TrailingMatch(a + b) == 0
  {
    var s := a + b;
    var w := LeadingWhitespace(s);
    assert s[|a| - 1] == a[|a| - 1];
    assert !IsWhitespace(a[|a| - 1]);
    assert w < |a|;
    forall j | 0 < j <= w
      ensures !LineEndAt(s, j)
    {
      assert s[j - 1] == a[j - 1];
      assert s[j] == a[j];
    }
  }

  /** The replacement works locally: a clean prefix is kept as it is, and the rest
      is processed on its own. */
  lemma {:induction false} StripLocal(a: string, b: string)
    requires NoTrailingWhitespace(a)
    ensures StripTrailingWhitespace(a + b) == a + StripTrailingWhitespace(b)
    decreases |a|
  {
    if a == [] {
      assert a + b == b;
    } else {
      var c, x := a[0], a[1..] + b;
      ConsSplit(a, b);
      NoMatchAfterClean(a, b);
      NoTrailingWhitespaceTail(a);
      StripLocal(a[1..], b);
      StripKeepsFirst(c, x);
      ConsSplit(a, StripTrailingWhitespace(b));
    }
  }

  /** Where the pattern matches, the match is dropped. */
  lemma StripDropsMatch(s: string)
    requires TrailingMatch(s) > 0
    ensures StripTrailingWhitespace(s) == StripTrailingWhitespace(s[TrailingMatch(s)..])
  {
  }

  /** Where the pattern does not match, the first character is kept. */
  lemma StripKeepsFirst(c: char, x: string)
    requires TrailingMatch([c] + x) == 0
    ensures StripTrailingWhitespace([c] + x) == [c] + StripTrailingWhitespace(x)
  {
    assert ([c] + x)[1..] == x;
  }

  /** Text that is all whitespace, the end of the code included, disappears. */
  lemma StripAllWhitespace(w: string)
    requires AllWhitespace(w)
    ensures StripTrailingWhitespace(w) == []
  {
    if w != [] {
      assert LeadingWhitespace(w) == |w|;
      assert LineEndAt(w, |w|);
      assert w[TrailingMatch(w)..] == [];
    }
  }

  /** Whitespace before a line terminator whose line has visible content is
      removed; the terminator, the line's indentation and its first visible
      character are kept. With `w` holding line terminators this drops blank lines,
      except that a blank first line stays as an empty one: the terminator at
      position `|w|` always survives. */
  lemma StripDropsBeforeLineEnd(w: string, t: char, indent: string, c: char, rest: string)
    requires AllWhitespace(w) && IsLineTerminator(t) && IsVisible(c)
    requires forall i :: 0 <= i < |indent| ==> IsWhitespace(indent[i]) && !IsLineTerminator(indent[i])
    ensures StripTrailingWhitespace(w + [t] + indent + [c] + rest) ==
              [t] + indent + [c] + StripTrailingWhitespace(rest)
  {
    var u := [t] + indent + [c] + rest;
    StripKeepsIndentedLine(t, indent, c, rest);
    AppendAssoc4(w, [t], indent, [c], rest);
    if w != [] {
      MatchBeforeLineEnd(w, t, indent, c, rest);
      StripDropsMatch(w + u);
      DropPrefix(w, u);
    } else {
      assert w + u == u;
    }
  }

  /** The match of a whitespace run that ends in a line terminator, indentation and
      a visible character stops just before that terminator. */
  lemma MatchBeforeLineEnd(w: string, t: char, indent: string, c: char, rest: string)
    requires w != [] && AllWhitespace(w) && IsLineTerminator(t) && IsVisible(c)
    requires forall i :: 0 <= i < |indent| ==> IsWhitespace(indent[i]) && !IsLineTerminator(indent[i])
    ensures TrailingMatch(w + ([t] + indent + [c] + rest)) == |w|
  {
    var s := w + ([t] + indent + [c] + rest);
    var e := |w| + 1 + |indent|;
    assert s[|w|] == t && s[e] == c;
    assert forall i :: 0 <= i < |w| ==> s[i] == w[i];
    assert forall i :: 0 <= i < |indent| ==> s[|w| + 1 + i] == indent[i];
    assert LeadingWhitespace(s) == e;
    forall j | |w| < j <= e
      ensures !LineEndAt(s, j)
    {
      if j < e {
        assert s[j] == indent[j - |w| - 1];
      }
    }
    assert LineEndAt(s, |w|);
  }

  lemma AppendAssoc4(a: string, b: string, c: string, d: string, e: string)
    ensures a + b + c + d + e == a + (b + c + d + e)
  {
  }

  lemma DropPrefix(w: string, u: string)
    ensures (w + u)[|w|..] == u
  {
  }

  /** A line with visible content keeps its line terminator and its indentation. */
  lemma StripKeepsIndentedLine(t: char, indent: string, c: char, rest: string)
    requires IsLineTerminator(t) && IsVisible(c)
    requires forall i :: 0 <= i < |indent| ==> IsWhitespace(indent[i]) && !IsLineTerminator(indent[i])
    ensures StripTrailingWhitespace([t] + indent + [c] + rest) == [t] + indent + [c] + StripTrailingWhitespace(rest)
  {
    var a := [t] + indent + [c];
    forall i | 0 <= i < |a| && IsWhitespace(a[i])
      ensures i + 1 < |a| && !IsLineTerminator(a[i + 1])
    {
      if i + 1 < |a| - 1 {
        assert a[i + 1] == indent[i];
      }
    }
    StripLocal(a, rest);
  }

  lemma StripIdempotent(s: string)
    ensures StripTrailingWhitespace(StripTrailingWhitespace(s)) == StripTrailingWhitespace(s)
  {
    StripLeavesNoTrailingWhitespace(s);
    StripIdentity(StripTrailingWhitespace(s));
  }

  // ------------------------------------------------------ `.replace(/\t/g, '  ')`

  /** Every tab becomes two spaces; nothing else changes. */
  function TabsToSpaces(s: string): (r: string)
    ensures '\t' !in r
    ensures |r| == |s| + Count(s, '\t')
    decreases |s|
  {
    if s == [] then []
    else (if s[0] == '\t' then "  " else [s[0]]) + TabsToSpaces(s[1..])
  }

  lemma {:induction false} TabsToSpacesIdentity(s: string)
    requires '\t' !in s
    ensures TabsToSpaces(s) == s
    decreases |s|
  {
    if s != [] {
      TabsToSpacesIdentity(s[1..]);
    }
  }

  lemma {:induction false} TabsKeepVisible(s: string)
    ensures Visible(TabsToSpaces(s)) == Visible(s)
    decreases |s|
  {
    if s != [] {
      TabsKeepVisible(s[1..]);
      var head := if s[0] == '\t' then "  " else [s[0]];
      assert s == [s[0]] + s[1..];
      FilterConcat(IsVisible, [s[0]], s[1..]);
      FilterConcat(IsVisible, head, TabsToSpaces(s[1..]));
      if s[0] == '\t' {
        AllWhitespaceInvisible(head);
      }
    }
  }

  /** A tab is whitespace that is not a line terminator and so are two spaces, so
      trailing-whitespace-free text stays so. */
  lemma {:induction false} TabsKeepNoTrailingWhitespace(s: string)
    requires NoTrailingWhitespace(s)
    ensures NoTrailingWhitespace(TabsToSpaces(s))
    ensures s != [] ==>
      (TabsToSpaces(s) != [] && (IsLineTerminator(TabsToSpaces(s)[0]) <==> IsLineTerminator(s[0])))
    decreases |s|
  {
    if s != [] {
      assert NoTrailingWhitespace(s[1..]) by {
        forall i | 0 <= i < |s[1..]| && IsWhitespace(s[1..][i])
          ensures i + 1 < |s[1..]| && !IsLineTerminator(s[1..][i + 1])
        {
          assert s[1..][i] == s[i + 1];
        }
      }
      TabsKeepNoTrailingWhitespace(s[1..]);
      var head := if s[0] == '\t' then "  " else [s[0]];
      var rest := TabsToSpaces(s[1..]);
      var r := head + rest;
      forall i | 0 <= i < |r| && IsWhitespace(r[i])
        ensures i + 1 < |r| && !IsLineTerminator(r[i + 1])
      {
        if i >= |head| {
          assert r[i] == rest[i - |head|];
          assert i + 1 < |r| ==> r[i + 1] == rest[i + 1 - |head|];
        } else if i + 1 == |head| {
          assert IsWhitespace(s[0]);
          assert |s| > 1 && !IsLineTerminator(s[1]);
          assert r[i + 1] == rest[0];
        }
      }
    }
  }

  // -------------------------------------------------- `.replace(/\n{3,}/g, '\n\n')`

  /** The number of newlines `s` starts with. */
  function NewlineRun(s: string): (n: nat)
    ensures n <= |s|
    ensures forall i :: 0 <= i < n ==> s[i] == '\n'
    ensures n < |s| ==> s[n] != '\n'
  {
    if s == [] || s[0] != '\n' then 0 else 1 + NewlineRun(s[1..])
  }

  /** Every run of three or more newlines becomes exactly two. */
  function CollapseNewlines(s: string): (r: string)
    ensures forall i :: 0 <= i < |r| ==> r[i] == '\n' || r[i] in s
    decreases |s|
  {
    if s == [] then []
    else
      var n := NewlineRun(s);
      if n >= 3 then "\n\n" + CollapseNewlines(s[n..])
      else [s[0]] + CollapseNewlines(s[1..])
  }

  /** No three newlines in a row. */
  predicate NoBlankLineRuns(s: string) {
    forall i :: 0 <= i && i + 2 < |s| ==> !(s[i] == '\n' && s[i + 1] == '\n' && s[i + 2] == '\n')
  }

  /** No two newlines in a row. */
  predicate NoAdjacentNewlines(s: string) {
    forall i :: 0 <= i && i + 1 < |s| ==> !(s[i] == '\n' && s[i + 1] == '\n')
  }

  /** Putting one character in front of text without blank-line runs. */
  lemma ConsKeepsRunsShort(c: char, rest: string)
    requires NoBlankLineRuns(rest) && (c == '\n' ==> NewlineRun(rest) <= 1)
    ensures NoBlankLineRuns([c] + rest)
    ensures NewlineRun([c] + rest) == if c == '\n' then 1 + NewlineRun(rest) else 0
  {
    var r := [c] + rest;
    assert r[1..] == rest;
    forall i | 0 <= i && i + 2 < |r|
      ensures !(r[i] == '\n' && r[i + 1] == '\n' && r[i + 2] == '\n')
    {
      if i >= 1 {
        assert r[i] == rest[i - 1] && r[i + 1] == rest[i] && r[i + 2] == rest[i + 1];
      } else if c == '\n' {
        assert r[1] == rest[0] && r[2] == rest[1];
      }
    }
  }

  /** The replacement never leaves three newlines in a row, and a leading run of
      newlines is kept when it is short and cut to two when it is not. */
  lemma {:induction false} CollapseBoundsRuns(s: string)
    ensures NoBlankLineRuns(CollapseNewlines(s))
    ensures NewlineRun(CollapseNewlines(s)) == if NewlineRun(s) >= 3 then 2 else NewlineRun(s)
    decreases |s|
  {
    if s != [] {
      var n := NewlineRun(s);
      if n >= 3 {
        var rest := CollapseNewlines(s[n..]);
        CollapseBoundsRuns(s[n..]);
        ConsKeepsRunsShort('\n', rest);
        ConsKeepsRunsShort('\n', "\n" + rest);
        assert CollapseNewlines(s) == ['\n'] + ("\n" + rest);
      } else {
        var rest := CollapseNewlines(s[1..]);
        CollapseBoundsRuns(s[1..]);
        assert s[0] == '\n' ==> NewlineRun(s[1..]) == n - 1;
        ConsKeepsRunsShort(s[0], rest);
      }
    }
  }

  lemma {:induction false} CollapseIdentity(s: string)
    requires NoAdjacentNewlines(s)
    ensures CollapseNewlines(s) == s
    decreases |s|
  {
    if s != [] {
      assert NewlineRun(s) < 2;
      assert NoAdjacentNewlines(s[1..]) by {
        forall i | 0 <= i && i + 1 < |s[1..]|
          ensures !(s[1..][i] == '\n' && s[1..][i + 1] == '\n')
        {
          assert s[1..][i] == s[i + 1] && s[1..][i + 1] == s[i + 2];
        }
      }
      CollapseIdentity(s[1..]);
    }
  }

  // --------------------------------------------------------------- `formatCode`

  /** The three replacements, in the order the button applies them. */
  function FormatCode(s: string): (r: string)
    ensures '\t' !in r
    ensures NoBlankLineRuns(r)
  {
    var t := TabsToSpaces(StripTrailingWhitespace(s));
    CollapseBoundsRuns(t);
    var r := CollapseNewlines(t);
    assert forall i :: 0 <= i < |r| ==> r[i] != '\t';
    r
  }

  lemma NoTrailingWhitespaceNoAdjacentNewlines(s: string)
    requires NoTrailingWhitespace(s)
    ensures NoAdjacentNewlines(s)
  {
    forall i | 0 <= i && i + 1 < |s|
      ensures !(s[i] == '\n' && s[i + 1] == '\n')
    {
      if s[i] == '\n' {
        assert IsWhitespace(s[i]);
      }
    }
  }

  /** After the first replacement no whitespace precedes a line terminator, so no
      two newlines are adjacent and the third replacement never finds three in a
      row. */
  lemma CollapseIsInert(s: string)
    ensures FormatCode(s) == TabsToSpaces(StripTrailingWhitespace(s))
    ensures NoTrailingWhitespace(FormatCode(s))
  {
    var t := StripTrailingWhitespace(s);
    StripLeavesNoTrailingWhitespace(s);
    TabsKeepNoTrailingWhitespace(t);
    NoTrailingWhitespaceNoAdjacentNewlines(TabsToSpaces(t));
    CollapseIdentity(TabsToSpaces(t));
  }

  /** Formatting removes, replaces or collapses whitespace only. */
  lemma FormatKeepsVisible(s: string)
    ensures Visible(FormatCode(s)) == Visible(s)
  {
    CollapseIsInert(s);
    StripKeepsVisible(s);
    TabsKeepVisible(StripTrailingWhitespace(s));
  }

  /** Pressing "format" twice does what pressing it once does. */
  lemma FormatIdempotent(s: string)
    ensures FormatCode(FormatCode(s)) == FormatCode(s)
  {
    var f := FormatCode(s);
    CollapseIsInert(s);
    CollapseIsInert(f);
    StripIdentity(f);
    TabsToSpacesIdentity(f);
  }

  // ---------------------------------------------------------------- the Tab key

  /** `code.substring(0, start) + '  ' + code.substring(end)` and the caret at
      `start + 2`: the selection is replaced by two spaces. */
  function InsertIndent(code: string, start: nat, end: nat): (r: (string, nat))
    requires start <= end <= |code|
    ensures |r.0| == |code| - (end - start) + 2
    ensures r.1 == start + 2 && r.0[start..r.1] == "  "
    ensures r.0[..start] + code[start..end] + r.0[r.1..] == code
  {
    var r := code[..start] + "  " + code[end..];
    assert r[..start] == code[..start] && r[start + 2..] == code[end..];
    assert code == code[..start] + code[start..end] + code[end..];
    (r, start + 2)
  }

  // ------------------------------------------------------------ the editor state

  /** The gutter the page starts with, `[1, 2]`, matches the initial code. */
  lemma InitialCodeHasTwoLines()
    ensures LineNumbers(InitialCode) == [1, 2]
  {
    TwoLines(FirstLine, SecondLine);
  }

  lemma TwoLines(a: string, b: string)
    requires '\n' !in a && '\n' !in b
    ensures LineNumbers(a + "\n" + b) == [1, 2]
  {
    SplitNoSeparator(a, '\n');
    SplitNoSeparator(b, '\n');
    SplitAtSeparator(a, b, '\n');
    assert a + "\n" + b == a + ['\n'] + b;
  }

  /** What the Python runner answers: a JSON reply (`output` is `""` when it is
      missing or empty) or a failed request with its error message. */
  datatype RunReply = Replied(output: string) | Failed(message: string)

  class Editor {
    var code: string
    var output: string
    var loading: bool
    var lineNumbers: seq<int>
    /** Where the caret is put after a Tab: `selectionStart = selectionEnd`. */
    var caret: nat

    /** The gutter shows one number per line of the code, as the effect on `code`
        keeps it after every render. */
    predicate Valid()
      reads this
    {
      lineNumbers == LineNumbers(code)
    }

    constructor ()
      ensures Valid()
      ensures code == InitialCode && output == [] && !loading && lineNumbers == [1, 2]
    {
      code := InitialCode;
      output := [];
      loading := false;
      caret := 0;
      InitialCodeHasTwoLines();
      lineNumbers := [1, 2];
    }

    /** Typing in the text area. */
    method SetCode(value: string)
      modifies this`code, this`lineNumbers
      ensures code == value && Valid()
    {
      code := value;
      lineNumbers := LineNumbers(code);
    }

    /** `runCode` up to the request: code that is only whitespace is not sent and
        a warning is shown; otherwise the code is sent and the editor waits. */
    method RunCode() returns (sent: bool)
      requires Valid()
      modifies this`output, this`loading
      ensures Valid()
      ensures sent <==> !AllWhitespace(code)
      ensures !sent ==> output == EmptyCodeWarning && loading == old(loading)
      ensures sent ==> output == RunningNotice && loading
    {
      if Trim(code) == [] {
        output := EmptyCodeWarning;
        return false;
      }
      loading := true;
      output := RunningNotice;
      return true;
    }

    /** `runCode` once the runner has answered. */
    method FinishRun(reply: RunReply)
      requires Valid()
      modifies this`output, this`loading
      ensures Valid()
      ensures !loading
      ensures reply.Replied? && reply.output != [] ==> output == reply.output
      ensures reply.Replied? && reply.output == [] ==> output == NoOutputNotice
      ensures reply.Failed? ==> output == ErrorPrefix + reply.message
    {
      match reply {
        case Replied(text) =>
          output := if text != [] then text else NoOutputNotice;
        case Failed(message) =>
          output := ErrorPrefix + message;
      }
      loading := false;
    }

    /** `copyCode`; the clipboard write is not modelled. */
    method CopyCode()
      requires Valid()
      modifies this`output
      ensures Valid()
      ensures output == CopiedNotice
    {
      output := CopiedNotice;
    }

    method SaveCode()
      requires Valid()
      modifies this`output
      ensures Valid()
      ensures output == SavedNotice
    {
      output := SavedNotice;
    }

    method ClearCode()
      modifies this`code, this`output, this`lineNumbers
      ensures code == [] && output == [] && Valid() && lineNumbers == [1]
    {
      code := [];
      output := [];
      lineNumbers := LineNumbers(code);
    }

    /** `formatCode`: the code is replaced by its formatted form. */
    method Format()
      modifies this`code, this`output, this`lineNumbers
      ensures code == FormatCode(old(code)) && Valid()
      ensures output == FormattedNotice
    {
      code := FormatCode(code);
      lineNumbers := LineNumbers(code);
      output := FormattedNotice;
    }

    /** `handleKeyDown`: Tab without Shift replaces the selection by two spaces and
        puts the caret after them; every other key is left to the text area.
        `selectionStart <= selectionEnd <= |code|` is what a text area reports. */
    method KeyDown(key: string, shift: bool, selectionStart: nat, selectionEnd: nat)
      requires Valid() && selectionStart <= selectionEnd <= |code|
      modifies this`code, this`caret, this`lineNumbers
      ensures Valid()
      ensures key == "Tab" && !shift ==>
        (code, caret) == InsertIndent(old(code), selectionStart, selectionEnd)
      ensures !(key == "Tab" && !shift) ==>
        code == old(code) && caret == old(caret) && lineNumbers == old(lineNumbers)
    {
      if key == "Tab" && !shift {
        var indented := InsertIndent(code, selectionStart, selectionEnd);
        code := indented.0;
        caret := indented.1;
        lineNumbers := LineNumbers(code);
      }
    }
  }
}
