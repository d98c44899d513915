/** The chart data of the analysis dashboard: one bar chart per numeric column
    (its five summary statistics) and one per categorical column (its frequency
    table), read off the profile the analysis service returns. A JSON object is
    a sequence of key/value entries in the order `Object.entries` lists them. */
module Charts {
  import opened Wrappers
  import opened JsString

  /** The summary a profile gives for a numeric column. */
  datatype NumericStats = NumericStats(min: real, max: real, media: real, mediana: real, desviacion: real)

  /** The part of the profile the charts read. An absent object is `None`. */
  datatype Contenido = Contenido(
    distribucionesNumericas: Option<seq<(string, NumericStats)>>,
    distribucionesCategoricas: Option<seq<(string, seq<(string, real)>)>>)

  /** The dashboard's `data`; the charts read only `contenido`. */
  datatype Payload = Payload(contenido: Option<Contenido>)

  /** A chart.js dataset; `seriesLabel` is its `label`. */
  datatype Dataset = Dataset(seriesLabel: string, data: seq<real>, backgroundColor: string)

  datatype Chart = Chart(col: string, labels: seq<string>, datasets: seq<Dataset>)

  /** What the dashboard's chart part shows: the empty notice, the two lists of
      charts, or the `TypeError` that reading a field of an absent `contenido`
      raises. The payload is taken to carry `perfil` and `contenido.muestra`, which
      the rest of the page reads. */
  datatype Dashboard = EmptyNotice | Charts(numeric: seq<Chart>, categorical: seq<Chart>) | MissingContenido

  const NumericColor: string := "rgba(59,130,246,0.6)"
  const CategoricalColor: string := "rgba(16,185,129,0.6)"
  const StatLabels: seq<string> := ["Min", "Max", "Media", "Mediana", "Desviación"]

  /** The statistic a label names: an independent reading of the label row. */
  function StatNamed(stats: NumericStats, name: string): Option<real> {
    if name == "Min" then Some(stats.min)
    else if name == "Max" then Some(stats.max)
    else if name == "Media" then Some(stats.media)
    else if name == "Mediana" then Some(stats.mediana)
    else if name == "Desviación" then Some(stats.desviacion)
    else None
  }

  /** One numeric chart: the five statistics under their five labels, in one
      dataset named after the column. */
  function NumericChart(col: string, stats: NumericStats): (r: Chart)
    ensures r.col == col && r.labels == StatLabels
    ensures |r.datasets| == 1 && r.datasets[0].seriesLabel == col
    ensures r.datasets[0].backgroundColor == NumericColor
    ensures |r.datasets[0].data| == |r.labels| == 5
    ensures forall k :: 0 <= k < 5 ==> StatNamed(stats, r.labels[k]) == Some(r.datasets[0].data[k])
  {
    Chart(col, StatLabels,
      [Dataset(col, [stats.min, stats.max, stats.media, stats.mediana, stats.desviacion], NumericColor)])
  }

  function Keys<V>(entries: seq<(string, V)>): (r: seq<string>)
    ensures |r| == |entries| && forall k :: 0 <= k < |r| ==> r[k] == entries[k].0
  {
    Map((e: (string, V)) => e.0, entries)
  }

  function Values<V>(entries: seq<(string, V)>): (r: seq<V>)
    ensures |r| == |entries| && forall k :: 0 <= k < |r| ==> r[k] == entries[k].1
  {
    Map((e: (string, V)) => e.1, entries)
  }

  /** Pairing labels with values index by index. */
  function Zip<V>(labels: seq<string>, values: seq<V>): (r: seq<(string, V)>)
    requires |labels| == |values|
    ensures |r| == |labels| && forall k :: 0 <= k < |r| ==> r[k] == (labels[k], values[k])
  {
    seq(|labels|, k requires 0 <= k < |labels| => (labels[k], values[k]))
  }

  /** One categorical chart: the categories as labels and their frequencies as
      the data, in one dataset named after the column. */
  function CategoricalChart(col: string, dist: seq<(string, real)>): (r: Chart)
    ensures r.col == col && |r.datasets| == 1 && r.datasets[0].seriesLabel == col
    ensures r.datasets[0].backgroundColor == CategoricalColor
    ensures |r.labels| == |r.datasets[0].data| == |dist|
    ensures Zip(r.labels, r.datasets[0].data) == dist
  {
    Chart(col, Keys(dist), [Dataset(col, Values(dist), CategoricalColor)])
  }

  /** `Object.entries(x || {}).map(...)` for the numeric distributions. */
  function NumericCharts(dists: Option<seq<(string, NumericStats)>>): (r: seq<Chart>)
    ensures dists.None? ==> r == []
    ensures dists.Some? ==> |r| == |dists.value|
    ensures dists.Some? ==> forall i :: 0 <= i < |r| ==> r[i] == NumericChart(dists.value[i].0, dists.value[i].1)
  {
    var entries := if dists.Some? then dists.value else [];
    Map((e: (string, NumericStats)) => NumericChart(e.0, e.1), entries)
  }

  function CategoricalCharts(dists: Option<seq<(string, seq<(string, real)>)>>): (r: seq<Chart>)
    ensures dists.None? ==> r == []
    ensures dists.Some? ==> |r| == |dists.value|
    ensures dists.Some? ==> forall i :: 0 <= i < |r| ==> r[i] == CategoricalChart(dists.value[i].0, dists.value[i].1)
  {
    var entries := if dists.Some? then dists.value else [];
    Map((e: (string, seq<(string, real)>)) => CategoricalChart(e.0, e.1), entries)
  }

  /** `AnalisisDashboard`: without data only the notice is shown. */
  function ShowDashboard(data: Option<Payload>): (r: Dashboard)
    ensures r.EmptyNotice? <==> data.None?
    ensures r.MissingContenido? <==> data.Some? && data.value.contenido.None?
  {
    match data
    case None => EmptyNotice
    case Some(p) =>
      match p.contenido
      case None => MissingContenido
      case Some(c) => Charts(NumericCharts(c.distribucionesNumericas), CategoricalCharts(c.distribucionesCategoricas))
  }

  /** Every chart is named after its column, the columns appear in entry order,
      and every dataset is labelled with the column of its chart. */
  lemma ChartsFollowEntries(c: Contenido)
    ensures var d := ShowDashboard(Some(Payload(Some(c))));
      && d.Charts?
      && Map((ch: Chart) => ch.col, d.numeric) ==
           (if c.distribucionesNumericas.Some? then Keys(c.distribucionesNumericas.value) else [])
      && Map((ch: Chart) => ch.col, d.categorical) ==
           (if c.distribucionesCategoricas.Some? then Keys(c.distribucionesCategoricas.value) else [])
      && (forall i :: 0 <= i < |d.numeric| ==>
            |d.numeric[i].datasets| == 1 && d.numeric[i].datasets[0].seriesLabel == d.numeric[i].col)
      && (forall i :: 0 <= i < |d.categorical| ==>
            |d.categorical[i].datasets| == 1 && d.categorical[i].datasets[0].seriesLabel == d.categorical[i].col)
  {
  }
}
