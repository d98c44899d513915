/** The department showcase of the menu page: five departments, each with a key,
    a display name and a text; a button per department selects it by key, and
    the selected department's text is shown paragraph by paragraph. */
module SalesAgents {
  import opened Wrappers
  import opened JsString

  /** A department button: its key and its display name. Its text is `Text(key)`. */
  datatype Department = Department(key: string, name: string)

  const VentasText1: string := "En los departamentos de ventas tradicionales, el seguimiento manual de prospectos, la mala calificación de leads y la pérdida de oportunidades son problemas comunes. Estos obstáculos ralentizan el crecimiento y generan costos innecesarios."
  const VentasText2: string := "GLYNNE automatiza tu funnel de ventas con scoring inteligente, CRM con inteligencia artificial y bots de seguimiento proactivos. Esto significa que tus equipos se enfocan solo en prospectos de alto valor mientras la IA gestiona tareas repetitivas."
  const VentasText3: string := "Desde la auditoría del proceso actual hasta la integración con sistemas como HubSpot o Salesforce, implementamos predicción con modelos LLM y orquestamos workflows automatizados para aumentar tu conversión hasta en un 40%."

  const RhText1: string := "La selección de talento y el onboarding pueden volverse cuellos de botella si no están optimizados. Reclutar lleva semanas, los procesos son inconsistentes y la rotación aumenta."
  const RhText2: string := "Con GLYNNE, implementamos reclutamiento basado en IA, onboarding guiado por agentes inteligentes y monitoreo de clima laboral en tiempo real. Esto permite identificar problemas antes de que se agraven."
  const RhText3: string := "Desde formularios inteligentes hasta flujos con LLMs y herramientas como n8n, tu departamento de RR.HH. pasa de ser reactivo a ser predictivo. Reducimos el tiempo de contratación a la mitad y mejoramos la retención notablemente."

  const SoporteText1: string := "El soporte técnico suele ser un punto crítico: tickets desordenados, respuestas tardías y clientes frustrados. Una experiencia deficiente puede costarte clientes."
  const SoporteText2: string := "GLYNNE transforma tu soporte con clasificación automática de solicitudes, respuestas contextuales con modelos LLM y dashboards de métricas en tiempo real."
  const SoporteText3: string := "Conectamos plataformas como Zendesk o Freshdesk, automatizamos respuestas frecuentes y damos trazabilidad total al flujo de atención. El resultado: un 60% menos en tiempos de resolución y un mejor NPS."

  const OperacionesText1: string := "Los procesos operativos suelen estar fragmentados entre herramientas, departamentos y personas. Esto genera errores humanos, retrabajo y una falta crítica de trazabilidad."
  const OperacionesText2: string := "Automatizamos y orquestamos tus flujos operativos usando tecnologías como Supabase, LangChain y n8n. Implementamos validaciones automáticas, alertas inteligentes y pipelines que se adaptan al cambio."
  const OperacionesText3: string := "Así, GLYNNE convierte operaciones caóticas en sistemas resilientes, escalables y trazables. Donde antes había desorden, ahora hay eficiencia y control."

  const FinanzasText1: string := "El análisis financiero manual no solo es lento, también propenso a errores. Las proyecciones pueden estar desactualizadas y los informes llegan tarde, limitando la toma de decisiones."
  const FinanzasText2: string := "GLYNNE introduce predicción de flujo de caja con IA, generación automática de reportes y monitoreo en tiempo real de KPIs financieros clave."
  const FinanzasText3: string := "Integramos con ERPs y CRMs para automatizar conciliaciones, detectar anomalías y prever riesgos. Así, el área financiera se convierte en un motor estratégico, no solo operativo."

  /** The template literals: a line break, then three paragraphs separated by an
      empty line. */
  function Content(p1: string, p2: string, p3: string): string {
    "\n" + p1 + "\n\n" + p2 + "\n\n" + p3
  }

  const Departments: seq<Department> := [
    Department("ventas", "Ventas"),
    Department("rh", "Recursos Humanos"),
    Department("soporte", "Soporte"),
    Department("operaciones", "Operaciones"),
    Department("finanzas", "Finanzas")
  ]

  /** The `content` of the department with the given key. */
  function Text(key: string): string {
    if key == "ventas" then Content(VentasText1, VentasText2, VentasText3)
    else if key == "rh" then Content(RhText1, RhText2, RhText3)
    else if key == "soporte" then Content(SoporteText1, SoporteText2, SoporteText3)
    else if key == "operaciones" then Content(OperacionesText1, OperacionesText2, OperacionesText3)
    else if key == "finanzas" then Content(FinanzasText1, FinanzasText2, FinanzasText3)
    else []
  }

  /** The department selected when the page opens. */
  const InitialKey: string := "ventas"

  // ------------------------------------------------------------------- lookup

  /** `departments.find(dep => dep.key === key)`: the first department with the
      key, `None` (JavaScript's `undefined`) when there is none. */
  function Find(depts: seq<Department>, key: string): (r: Option<Department>)
    ensures r.None? <==> forall i :: 0 <= i < |depts| ==> depts[i].key != key
    ensures r.Some? ==> exists i :: 0 <= i < |depts| && depts[i] == r.value && r.value.key == key
                          && forall j :: 0 <= j < i ==> depts[j].key != key
  {
    if depts == [] then None
    else if depts[0].key == key then Some(depts[0])
    else
      var r := Find(depts[1..], key);
      assert forall i :: 1 <= i < |depts| ==> depts[i] == depts[1..][i - 1];
      r
  }

  /** No two departments share a key. */
  predicate DistinctKeys(depts: seq<Department>) {
    forall i, j :: 0 <= i < j < |depts| ==> depts[i].key != depts[j].key
  }

  lemma KeysDistinct()
    ensures DistinctKeys(Departments)
  {
    var keys := ["ventas", "rh", "soporte", "operaciones", "finanzas"];
    assert forall i :: 0 <= i < 5 ==> Departments[i].key == keys[i];
    assert forall i, j :: 0 <= i < j < 5 ==> keys[i] != keys[j] by {
      assert keys[0][0] == 'v' && keys[1][0] == 'r' && keys[2][0] == 's';
      assert keys[3][0] == 'o' && keys[4][0] == 'f';
    }
  }

  /** With distinct keys, looking up a department's key finds that department. */
  lemma FindOwnKey(depts: seq<Department>, i: nat)
    requires DistinctKeys(depts) && i < |depts|
    ensures Find(depts, depts[i].key) == Some(depts[i])
  {
    var r := Find(depts, depts[i].key);
    var j :| 0 <= j < |depts| && depts[j] == r.value && r.value.key == depts[i].key
             && forall j' :: 0 <= j' < j ==> depts[j'].key != depts[i].key;
    assert j == i;
  }

  /** Every button selects its own department, and the initial key is one of
      them, so the page always has a department to show. */
  lemma EveryKeyFindsItsDepartment()
    ensures forall i :: 0 <= i < |Departments| ==> Find(Departments, Departments[i].key) == Some(Departments[i])
    ensures Find(Departments, InitialKey) == Some(Departments[0])
  {
    KeysDistinct();
    forall i | 0 <= i < |Departments|
      ensures Find(Departments, Departments[i].key) == Some(Departments[i])
    {
      FindOwnKey(Departments, i);
    }
    assert Departments[0].key == InitialKey;
  }

  // --------------------------------------------------------------- paragraphs

  /** `p => p.trim()` as a filter: a line with something other than whitespace. */
  predicate IsNonBlank(line: string) {
    Trim(line) != []
  }

  /** The lines that are not blank, each trimmed. */
  function Paragraphise(lines: seq<string>): seq<string> {
    Map(Trim, Filter(IsNonBlank, lines))
  }

  /** `content.trim().split('\n').filter(p => p.trim()).map(p => p.trim())`. */
  function Paragraphs(content: string): seq<string> {
    Paragraphise(Split(Trim(content), '\n'))
  }

  /** Every paragraph shown is non-empty, starts and ends with a character other
      than whitespace, and is on one line. */
  lemma ParagraphsWellFormed(content: string)
    ensures forall i :: 0 <= i < |Paragraphs(content)| ==>
      var p := Paragraphs(content)[i];
      p != [] && !IsWhitespace(p[0]) && !IsWhitespace(p[|p| - 1]) && '\n' !in p
  {
    var lines := Split(Trim(content), '\n');
    var kept := Filter(IsNonBlank, lines);
    FilterMembers(IsNonBlank, lines);
    SplitPiecesLackSeparator(Trim(content), '\n');
    forall i | 0 <= i < |kept|
      ensures '\n' !in Trim(kept[i])
    {
      var k :| 0 <= k < |lines| && lines[k] == kept[i];
      TrimKeepsOut(kept[i], '\n');
    }
  }

  lemma ParagraphiseConcat(a: seq<string>, b: seq<string>)
    ensures Paragraphise(a + b) == Paragraphise(a) + Paragraphise(b)
  {
    FilterConcat(IsNonBlank, a, b);
    MapConcat(Trim, Filter(IsNonBlank, a), Filter(IsNonBlank, b));
  }

  /** Lines that trim to the same text make the same paragraphs. */
  lemma ParagraphiseSameTrim(x: string, y: string)
    requires Trim(x) == Trim(y)
    ensures Paragraphise([x]) == Paragraphise([y])
  {
    assert [x][1..] == [] && [y][1..] == [];
  }

  lemma ParagraphiseEmptyLine()
    ensures Paragraphise([[]]) == []
  {
    var e: string := [];
    assert [e][1..] == [];
    assert Trim(e) == [];
  }

  /** Removing one whitespace character from the front of the text does not change
      its non-blank lines. */
  lemma LinesConsWhitespace(c: char, s: string)
    requires IsWhitespace(c)
    ensures Paragraphise(Split([c] + s, '\n')) == Paragraphise(Split(s, '\n'))
  {
    var rest := Split(s, '\n');
    assert ([c] + s)[1..] == s;
    if c == '\n' {
      assert Split([c] + s, '\n') == [[]] + rest;
      ParagraphiseConcat([[]], rest);
      ParagraphiseEmptyLine();
    } else {
      assert Split([c] + s, '\n') == [[c] + rest[0]] + rest[1..];
      assert rest == [rest[0]] + rest[1..];
      ParagraphiseConcat([[c] + rest[0]], rest[1..]);
      ParagraphiseConcat([rest[0]], rest[1..]);
      TrimConsWhitespace(c, rest[0]);
      ParagraphiseSameTrim([c] + rest[0], rest[0]);
    }
  }

  lemma LinesSnocWhitespace(s: string, c: char)
    requires IsWhitespace(c)
    ensures Paragraphise(Split(s + [c], '\n')) == Paragraphise(Split(s, '\n'))
  {
    if c == '\n' {
      LinesSnocNewline(s);
    } else {
      LinesSnocSpace(s, c);
    }
  }

  lemma LinesSnocNewline(s: string)
    ensures Paragraphise(Split(s + ['\n'], '\n')) == Paragraphise(Split(s, '\n'))
  {
    var sa := Split(s, '\n');
    var e: string := [];
    SplitAtSeparator(s, e, '\n');
    assert s + ['\n'] == s + ['\n'] + e;
    assert Split(e, '\n') == [e];
    ParagraphiseConcat(sa, [e]);
    ParagraphiseEmptyLine();
    assert Paragraphise(sa) + [] == Paragraphise(sa);
  }

  lemma LinesSnocSpace(s: string, c: char)
    requires IsWhitespace(c) && c != '\n'
    ensures Paragraphise(Split(s + [c], '\n')) == Paragraphise(Split(s, '\n'))
  {
    var sa := Split(s, '\n');
    SplitSnoc(s, c, '\n');
    TrimSnocWhitespace(sa[|sa| - 1], c);
    ParagraphiseLastLine(sa, sa[|sa| - 1] + [c]);
  }

  /** Replacing the last line by one that trims to the same text keeps the paragraphs. */
  lemma ParagraphiseLastLine(lines: seq<string>, x: string)
    requires |lines| >= 1 && Trim(x) == Trim(lines[|lines| - 1])
    ensures Paragraphise(lines[..|lines| - 1] + [x]) == Paragraphise(lines)
  {
    var init, last := lines[..|lines| - 1], lines[|lines| - 1];
    assert lines == init + [last];
    ParagraphiseConcat(init, [x]);
    ParagraphiseConcat(init, [last]);
    ParagraphiseSameTrim(x, last);
  }

  lemma TrimOfTrimmed(s: string)
    requires s == [] || (!IsWhitespace(s[0]) && !IsWhitespace(s[|s| - 1]))
    ensures Trim(s) == s
  {
    if s != [] {
      assert LeadingWhitespace(s) == 0;
      assert TrailingWhitespace(s) == 0;
    }
  }

  /** The outer `trim` makes no difference: the paragraphs are exactly the
      non-blank lines of the text, in order, each trimmed. */
  lemma {:induction false} ParagraphsAreNonBlankLines(content: string)
    ensures Paragraphs(content) == Paragraphise(Split(content, '\n'))
    decreases |content|
  {
    if content != [] {
      var n := |content|;
      if IsWhitespace(content[0]) {
        assert content == [content[0]] + content[1..];
        TrimConsWhitespace(content[0], content[1..]);
        LinesConsWhitespace(content[0], content[1..]);
        ParagraphsAreNonBlankLines(content[1..]);
      } else if IsWhitespace(content[n - 1]) {
        assert content == content[..n - 1] + [content[n - 1]];
        TrimSnocWhitespace(content[..n - 1], content[n - 1]);
        LinesSnocWhitespace(content[..n - 1], content[n - 1]);
        ParagraphsAreNonBlankLines(content[..n - 1]);
      } else {
        TrimOfTrimmed(content);
      }
    }
  }

  /** A line without a newline, a newline, then the rest. */
  lemma SplitFirstLine(a: string, b: string)
    requires '\n' !in a
    ensures Split(a + "\n" + b, '\n') == [a] + Split(b, '\n')
  {
    assert a + "\n" + b == a + ['\n'] + b;
    SplitAtSeparator(a, b, '\n');
    SplitNoSeparator(a, '\n');
  }

  lemma SplitContent(p1: string, p2: string, p3: string)
    requires '\n' !in p1 && '\n' !in p2 && '\n' !in p3
    ensures Split(Content(p1, p2, p3), '\n') == [[], p1, [], p2, [], p3]
  {
    var e: string := [];
    var t3 := e + "\n" + p3;
    var t2 := p2 + "\n" + t3;
    var t1 := e + "\n" + t2;
    var t0 := p1 + "\n" + t1;
    assert Content(p1, p2, p3) == e + "\n" + t0;
    SplitNoSeparator(p3, '\n');
    SplitFirstLine(e, p3);
    assert Split(t3, '\n') == [e, p3];
    SplitFirstLine(p2, t3);
    assert Split(t2, '\n') == [p2, e, p3];
    SplitFirstLine(e, t2);
    assert Split(t1, '\n') == [e, p2, e, p3];
    SplitFirstLine(p1, t1);
    assert Split(t0, '\n') == [p1, e, p2, e, p3];
    SplitFirstLine(e, t0);
  }

  /** A text made of three one-line paragraphs is shown as those three. */
  lemma ContentParagraphs(p1: string, p2: string, p3: string)
    requires p1 != [] && p2 != [] && p3 != []
    requires '\n' !in p1 && '\n' !in p2 && '\n' !in p3
    requires Trim(p1) == p1 && Trim(p2) == p2 && Trim(p3) == p3
    ensures Paragraphs(Content(p1, p2, p3)) == [p1, p2, p3]
  {
    ParagraphsAreNonBlankLines(Content(p1, p2, p3));
    SplitContent(p1, p2, p3);
    ParagraphiseContentLines(p1, p2, p3);
  }

  lemma ParagraphiseContentLines(p1: string, p2: string, p3: string)
    requires p1 != [] && p2 != [] && p3 != []
    requires Trim(p1) == p1 && Trim(p2) == p2 && Trim(p3) == p3
    ensures Paragraphise([[], p1, [], p2, [], p3]) == [p1, p2, p3]
  {
    var e: string := [];
    var l2 := [e, p2, e, p3];
    ParagraphiseLastTwo(p2, p3);
    ParagraphiseBlankThenLineCons(p1, l2);
    assert [e, p1] + l2 == [e, p1, e, p2, e, p3];
    assert [p1] + [p2, p3] == [p1, p2, p3];
  }

  lemma ParagraphiseLastTwo(p2: string, p3: string)
    requires p2 != [] && p3 != []
    requires Trim(p2) == p2 && Trim(p3) == p3
    ensures Paragraphise([[], p2, [], p3]) == [p2, p3]
  {
    var e: string := [];
    ParagraphiseBlankThenLineCons(p2, [e, p3]);
    ParagraphiseBlankThenLine(p3);
    assert [e, p2] + [e, p3] == [e, p2, e, p3];
    assert [p2] + [p3] == [p2, p3];
  }

  lemma ParagraphiseBlankThenLineCons(p: string, rest: seq<string>)
    requires p != [] && Trim(p) == p
    ensures Paragraphise([[], p] + rest) == [p] + Paragraphise(rest)
  {
    var e: string := [];
    assert [e, p] + rest == [e] + ([p] + rest);
    ParagraphiseBlankCons([p] + rest);
    ParagraphiseLineCons(p, rest);
  }

  lemma ParagraphiseBlankCons(rest: seq<string>)
    ensures Paragraphise([[]] + rest) == Paragraphise(rest)
  {
    var e: string := [];
    ParagraphiseConcat([e], rest);
    ParagraphiseEmptyLine();
  }

  lemma ParagraphiseLineCons(p: string, rest: seq<string>)
    requires p != [] && Trim(p) == p
    ensures Paragraphise([p] + rest) == [p] + Paragraphise(rest)
  {
    ParagraphiseConcat([p], rest);
    ParagraphiseSingle(p);
  }

  lemma ParagraphiseBlankThenLine(p: string)
    requires p != [] && Trim(p) == p
    ensures Paragraphise([[], p]) == [p]
  {
    var e: string := [];
    assert [e, p] == [e] + [p];
    ParagraphiseBlankCons([p]);
    ParagraphiseSingle(p);
  }

  lemma ParagraphiseSingle(p: string)
    requires p != [] && Trim(p) == p
    ensures Paragraphise([p]) == [p]
  {
    assert [p][1..] == [];
  }
}
