/** The CSV analysis page: a form that sends a description and a file to the
    profiling service, a report formatter that turns the service's `*bold*` text
    and line breaks into HTML, and three collapsible result sections of which at
    most one is open. The profiling itself is done by the external service. */
module AnalysisPanel {
  import opened Wrappers
  import opened JsString

  const StrongOpen: string := "<strong>"
  const StrongClose: string := "</strong>"
  const LineBreak: string := "<br />"

  const MissingInputError: string := "Por favor ingresa una descripción y selecciona un archivo."
  const UnknownError: string := "Error desconocido"
  const ReportSection: string := "informe"

  // ------------------------------------------------- `.replace(/\*(.*?)\*/g, ...)`

  /** Where the lazy `(.*?)\*` that follows an opening `*` stops: the offset of the
      first `*` in `s` when no line terminator comes before it (`.` does not match
      one), and `None` when the line ends first. */
  function ClosingStar(s: string): (r: Option<nat>)
    ensures r.Some? ==> r.value < |s| && s[r.value] == '*'
  {
    if s == [] then None
    else if s[0] == '*' then Some(0)
    else if IsLineTerminator(s[0]) then None
    else
      match ClosingStar(s[1..])
      case Some(j) => Some(j + 1)
      case None => None
  }

  /** The closing star is the first star on the line, and there is none exactly when
      every star comes after a line terminator. */
  lemma {:induction false} ClosingStarIsFirstOnLine(s: string)
    ensures var r := ClosingStar(s);
      && (r.Some? ==> forall k :: 0 <= k < r.value ==> s[k] != '*' && !IsLineTerminator(s[k]))
      && (r.None? ==> forall k :: 0 <= k < |s| && s[k] == '*' ==>
                        exists j :: 0 <= j < k && IsLineTerminator(s[j]))
    decreases |s|
  {
    if s != [] && s[0] != '*' && !IsLineTerminator(s[0]) {
      ClosingStarIsFirstOnLine(s[1..]);
      assert forall k :: 1 <= k < |s| ==> s[k] == s[1..][k - 1];
      var r := ClosingStar(s[1..]);
      if r.None? {
        forall k | 0 <= k < |s| && s[k] == '*'
          ensures exists j :: 0 <= j < k && IsLineTerminator(s[j])
        {
          assert s[1..][k - 1] == '*';
          var j :| 0 <= j < k - 1 && IsLineTerminator(s[1..][j]);
          assert IsLineTerminator(s[j + 1]);
        }
      }
    }
  }

  /** The global replacement scans left to right: an `*` with a closing `*` later on
      its line becomes `<strong>`, the text between, `</strong>`, and scanning
      resumes after the closing `*`; every other character is kept. */
  function Embolden(s: string): string
    decreases |s|
  {
    if s == [] then []
    else if s[0] == '*' then
      match ClosingStar(s[1..])
      case Some(j) => StrongOpen + s[1..j + 1] + StrongClose + Embolden(s[j + 2..])
      case None => "*" + Embolden(s[1..])
    else [s[0]] + Embolden(s[1..])
  }

  /** `.replace(/\n/g, '<br />')`. */
  function BreakLines(s: string): (r: string)
    ensures '\n' !in r
    ensures |r| == |s| + 5 * Count(s, '\n')
    decreases |s|
  {
    if s == [] then []
    else (if s[0] == '\n' then LineBreak else [s[0]]) + BreakLines(s[1..])
  }

  /** `formatText`: a missing or empty report is `""`; otherwise the bold markers
      are replaced first and the newlines second. No HTML escaping is done. */
  function FormatText(text: Option<string>): string {
    if text.None? || text.value == [] then [] else BreakLines(Embolden(text.value))
  }

  /** Text on one line without stars: the closing star, if any, is the one after it. */
  predicate PlainLineText(m: string) {
    '*' !in m && forall k :: 0 <= k < |m| ==> !IsLineTerminator(m[k])
  }

  lemma {:induction false} ClosingStarAfterPlain(m: string, rest: string)
    requires PlainLineText(m)
    ensures ClosingStar(m + "*" + rest) == Some(|m|)
    decreases |m|
  {
    var t := m + "*" + rest;
    if m == [] {
      assert t[0] == '*';
    } else {
      assert t[0] == m[0] && t[1..] == m[1..] + "*" + rest;
      ClosingStarAfterPlain(m[1..], rest);
    }
  }

  lemma {:induction false} NoClosingStarBeforeLineEnd(m: string, rest: string)
    requires PlainLineText(m)
    requires rest == [] || IsLineTerminator(rest[0])
    ensures ClosingStar(m + rest) == None
    decreases |m|
  {
    var t := m + rest;
    if m == [] {
      assert t == rest;
    } else {
      assert t[0] == m[0] && t[1..] == m[1..] + rest;
      NoClosingStarBeforeLineEnd(m[1..], rest);
    }
  }

  /** A pair of stars around text on one line becomes a bold element. */
  lemma EmboldenPair(m: string, rest: string)
    requires PlainLineText(m)
    ensures Embolden("*" + m + "*" + rest) == StrongOpen + m + StrongClose + Embolden(rest)
  {
    var s := "*" + m + "*" + rest;
    assert s[0] == '*' && s[1..] == m + "*" + rest;
    ClosingStarAfterPlain(m, rest);
    assert s[1..|m| + 1] == m;
    assert s[|m| + 2..] == rest;
  }

  /** A star with no partner before the end of its line stays a literal star. */
  lemma EmboldenUnpaired(m: string, rest: string)
    requires PlainLineText(m)
    requires rest == [] || IsLineTerminator(rest[0])
    ensures Embolden("*" + m + rest) == "*" + Embolden(m + rest)
  {
    var s := "*" + m + rest;
    var t := m + rest;
    assert s == ['*'] + t;
    assert s[0] == '*' && s[1..] == t;
    NoClosingStarBeforeLineEnd(m, rest);
  }

  /** Text without stars before a star is kept as it is, bold element or not: the
      scan only changes what starts at a star. */
  lemma {:induction false} EmboldenPlainPrefix(m: string, s: string)
    requires '*' !in m
    ensures Embolden(m + s) == m + Embolden(s)
    decreases |m|
  {
    if m == [] {
      assert m + s == s;
    } else {
      ConsSplit(m, s);
      EmboldenPlainPrefix(m[1..], s);
      EmboldenKeepsFirst(m[0], m[1..] + s);
      ConsSplit(m, Embolden(s));
    }
  }

  lemma EmboldenKeepsFirst(c: char, x: string)
    requires c != '*'
    ensures Embolden([c] + x) == [c] + Embolden(x)
  {
    assert ([c] + x)[1..] == x;
  }

  /** Without stars the first replacement does nothing. */
  lemma {:induction false} EmboldenIdentity(s: string)
    requires '*' !in s
    ensures Embolden(s) == s
    decreases |s|
  {
    if s != [] {
      EmboldenIdentity(s[1..]);
    }
  }

  lemma {:induction false} BreakLinesIdentity(s: string)
    requires '\n' !in s
    ensures BreakLines(s) == s
    decreases |s|
  {
    if s != [] {
      BreakLinesIdentity(s[1..]);
    }
  }

  /** Text with neither stars nor newlines is shown as it is. */
  lemma FormatTextPlain(s: string)
    requires '*' !in s && '\n' !in s
    ensures FormatText(Some(s)) == s
  {
    EmboldenIdentity(s);
    BreakLinesIdentity(s);
  }

  lemma FormatTextEmpty()
    ensures FormatText(None) == [] && FormatText(Some([])) == []
  {
  }

  /** New characters come only from the two tags. */
  lemma {:induction false} EmboldenKeepsOut(s: string, c: char)
    requires c !in s && c !in StrongOpen && c !in StrongClose
    ensures c !in Embolden(s)
    decreases |s|
  {
    if s != [] {
      if s[0] == '*' {
        match ClosingStar(s[1..])
        case Some(j) =>
          EmboldenKeepsOut(s[j + 2..], c);
          assert s == s[..1] + s[1..j + 1] + s[j + 1..];
        case None =>
          EmboldenKeepsOut(s[1..], c);
      } else {
        EmboldenKeepsOut(s[1..], c);
      }
    }
  }

  /** The search for a closing star never looks past a line terminator. */
  lemma {:induction false} ClosingStarStopsAtLineEnd(u: string, c: char, b: string)
    requires IsLineTerminator(c)
    ensures ClosingStar(u + [c] + b) == ClosingStar(u)
    decreases |u|
  {
    var t := u + [c] + b;
    if u == [] {
      assert t[0] == c;
    } else {
      assert t[0] == u[0] && t[1..] == u[1..] + [c] + b;
      ClosingStarStopsAtLineEnd(u[1..], c, b);
    }
  }

  /** No bold element reaches across a line terminator: the text before and after
      one is formatted on its own. */
  lemma {:induction false} EmboldenAtLineTerminator(a: string, c: char, b: string)
    requires IsLineTerminator(c)
    ensures Embolden(a + [c] + b) == Embolden(a) + [c] + Embolden(b)
    decreases |a|, 1
  {
    var s := a + [c] + b;
    if a == [] {
      assert s == [c] + b && s[1..] == b;
    } else if a[0] == '*' {
      StarAtLineTerminator(a, c, b);
    } else {
      assert s[0] == a[0] && s[1..] == a[1..] + [c] + b;
      EmboldenAtLineTerminator(a[1..], c, b);
    }
  }

  /** A star whose partner is `j` characters further on the line opens a bold element. */
  lemma EmboldenStarPaired(x: string, j: nat)
    requires ClosingStar(x) == Some(j)
    ensures Embolden(['*'] + x) == StrongOpen + x[..j] + StrongClose + Embolden(x[j + 1..])
  {
    var s := ['*'] + x;
    assert s[1..] == x;
    assert s[1..j + 1] == x[..j];
    assert s[j + 2..] == x[j + 1..];
  }

  lemma EmboldenStarLone(x: string)
    requires ClosingStar(x) == None
    ensures Embolden(['*'] + x) == "*" + Embolden(x)
  {
    assert (['*'] + x)[1..] == x;
  }

  lemma BoldAssoc(p: string, e: string, c: char, f: string)
    ensures p + (e + [c] + f) == (p + e) + [c] + f
  {
  }

  lemma {:induction false} StarAtLineTerminator(a: string, c: char, b: string)
    requires IsLineTerminator(c) && a != [] && a[0] == '*'
    ensures Embolden(a + [c] + b) == Embolden(a) + [c] + Embolden(b)
    decreases |a|, 0
  {
    var x := a[1..];
    var y := x + [c] + b;
    assert a == ['*'] + x;
    assert a + [c] + b == ['*'] + y;
    ClosingStarStopsAtLineEnd(x, c, b);
    match ClosingStar(x)
    case Some(j) =>
      var rest := x[j + 1..];
      assert y[..j] == x[..j];
      assert y[j + 1..] == rest + [c] + b;
      EmboldenStarPaired(x, j);
      EmboldenStarPaired(y, j);
      EmboldenAtLineTerminator(rest, c, b);
      BoldAssoc(StrongOpen + x[..j] + StrongClose, Embolden(rest), c, Embolden(b));
    case None =>
      EmboldenStarLone(x);
      EmboldenStarLone(y);
      EmboldenAtLineTerminator(x, c, b);
      BoldAssoc("*", Embolden(x), c, Embolden(b));
  }

  /** Bold markers are paired within each line: the lines of the result are the
      lines of the input, each formatted on its own. */
  lemma {:induction false} EmboldenLineByLine(s: string)
    ensures Split(Embolden(s), '\n') == Map(Embolden, Split(s, '\n'))
    decreases |s|
  {
    if '\n' !in s {
      SplitNoSeparator(s, '\n');
      EmboldenKeepsOut(s, '\n');
      SplitNoSeparator(Embolden(s), '\n');
    } else {
      var i :| 0 <= i < |s| && s[i] == '\n';
      var a, b := s[..i], s[i + 1..];
      assert s == a + ['\n'] + b;
      EmboldenAtLineTerminator(a, '\n', b);
      EmboldenLineByLine(a);
      EmboldenLineByLine(b);
      SplitAtSeparator(a, b, '\n');
      SplitAtSeparator(Embolden(a), Embolden(b), '\n');
      MapConcat(Embolden, Split(a, '\n'), Split(b, '\n'));
    }
  }

  /** The second replacement puts `<br />` between the lines. */
  lemma {:induction false} BreakLinesJoinsLines(s: string)
    ensures BreakLines(s) == Join(Split(s, '\n'), LineBreak)
    decreases |s|
  {
    if s != [] {
      var rest := Split(s[1..], '\n');
      BreakLinesJoinsLines(s[1..]);
      if s[0] == '\n' {
        assert Join([[]] + rest, LineBreak) == [] + LineBreak + Join(rest, LineBreak) by {
          assert ([[]] + rest)[1..] == rest;
        }
      } else {
        JoinCons(s[0], rest, LineBreak);
      }
    }
  }

  /** `formatText` of a non-empty report: each line has its bold markers replaced
      on its own, and the lines are joined by one `<br />` per input newline. */
  lemma FormatTextLines(s: string)
    requires s != []
    ensures var lines := Map(Embolden, Split(s, '\n'));
      && FormatText(Some(s)) == Join(lines, LineBreak)
      && |lines| == Count(s, '\n') + 1
      && forall i :: 0 <= i < |lines| ==> '\n' !in lines[i]
  {
    var lines := Map(Embolden, Split(s, '\n'));
    EmboldenLineByLine(s);
    BreakLinesJoinsLines(Embolden(s));
    SplitPiecesLackSeparator(Embolden(s), '\n');
    assert FormatText(Some(s)) == BreakLines(Embolden(s));
    assert |lines| == |Split(s, '\n')|;
  }

  // ------------------------------------------------------------------- the page

  /** `Error ${res.status}: ${res.statusText}`. */
  function HttpErrorMessage(status: nat, statusText: string): string {
    "Error " + Decimal(status) + ": " + statusText
  }

  /** `${n}` for a status code: its decimal digits, most significant first, with
      no leading zero. */
  function Decimal(n: nat): (r: string)
    ensures |r| >= 1
    ensures forall i :: 0 <= i < |r| ==> '0' <= r[i] <= '9'
    ensures r[0] == '0' <==> n == 0
    decreases n
  {
    var digit := ('0' as int + n % 10) as char;
    if n < 10 then [digit] else Decimal(n / 10) + [digit]
  }

  /** The number a string of decimal digits denotes. */
  function DecimalValue(s: string): nat {
    if s == [] then 0
    else 10 * DecimalValue(s[..|s| - 1]) + DigitValue(s[|s| - 1])
  }

  function DigitValue(c: char): nat {
    if '0' <= c <= '9' then c as int - '0' as int else 0
  }

  /** The digits read back as the status code. */
  lemma {:induction false} DecimalRoundTrip(n: nat)
    ensures DecimalValue(Decimal(n)) == n
    decreases n
  {
    var r := Decimal(n);
    if n < 10 {
      assert r[..0] == [];
    } else {
      DecimalRoundTrip(n / 10);
      assert r[..|r| - 1] == Decimal(n / 10);
    }
  }

  /** What the analysis request ends with: the service's result, a reply with a
      failure status, or a request that failed with an error message. */
  datatype Outcome = Analysed(report: Report) | HttpFailure(status: nat, statusText: string) | Failed(message: string)

  /** The parts of the service's result the page reads as text. */
  datatype Report = Report(informe: Option<string>)

  /** `toggleSection`: the section closes when it is the open one and opens otherwise. */
  function Toggled(active: Option<string>, section: string): (r: Option<string>)
    ensures r == Some(section) <==> active != Some(section)
    ensures r != Some(section) ==> r.None?
  {
    if active == Some(section) then None else Some(section)
  }

  /** Toggling the same section twice leaves it open only if it was open. */
  lemma ToggleTwice(active: Option<string>, section: string)
    ensures Toggled(Toggled(active, section), section) ==
      (if active == Some(section) then Some(section) else None)
  {
  }

  class Panel {
    var descripcion: string
    /** The name of the chosen file; `None` when none is chosen. */
    var file: Option<string>
    var loading: bool
    var resultado: Option<Report>
    var error: Option<string>
    var activeSection: Option<string>

    constructor ()
      ensures descripcion == [] && file.None? && !loading && resultado.None? && error.None?
      ensures activeSection == Some(ReportSection)
    {
      descripcion := [];
      file := None;
      loading := false;
      resultado := None;
      error := None;
      activeSection := Some(ReportSection);
    }

    method ToggleSection(section: string)
      modifies this`activeSection
      ensures activeSection == Toggled(old(activeSection), section)
    {
      activeSection := if activeSection == Some(section) then None else Some(section);
    }

    /** `handleSubmit` up to the request: without a file or a description the
        error is set and nothing else changes; otherwise the old result and error
        are cleared, the report section is opened and the form waits. */
    method Submit() returns (sent: bool)
      modifies this`error, this`loading, this`resultado, this`activeSection
      ensures sent <==> file.Some? && descripcion != []
      ensures !sent ==> (error == Some(MissingInputError) && loading == old(loading)
        && resultado == old(resultado) && activeSection == old(activeSection))
      ensures sent ==> error.None? && loading && resultado.None? && activeSection == Some(ReportSection)
    {
      if file.None? || descripcion == [] {
        error := Some(MissingInputError);
        return false;
      }
      error := None;
      loading := true;
      resultado := None;
      activeSection := Some(ReportSection);
      return true;
    }

    /** `handleSubmit` once the request has ended; `loading` is cleared in every case. */
    method FinishSubmit(outcome: Outcome)
      modifies this`error, this`loading, this`resultado, this`activeSection
      ensures !loading
      ensures outcome.Analysed? ==> (resultado == Some(outcome.report)
        && activeSection == Some(ReportSection) && error == old(error))
      ensures outcome.HttpFailure? ==>
        error == Some(HttpErrorMessage(outcome.status, outcome.statusText))
        && resultado == old(resultado) && activeSection == old(activeSection)
      ensures outcome.Failed? ==>
        error == Some(if outcome.message != [] then outcome.message else UnknownError)
        && resultado == old(resultado) && activeSection == old(activeSection)
    {
      match outcome {
        case Analysed(report) =>
          resultado := Some(report);
          activeSection := Some(ReportSection);
        case HttpFailure(status, statusText) =>
          error := Some(HttpErrorMessage(status, statusText));
        case Failed(message) =>
          error := Some(if message != [] then message else UnknownError);
      }
      loading := false;
    }
  }
}
