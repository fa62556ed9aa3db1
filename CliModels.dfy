/**
 * The model helpers of the command line: the table `display_models` shows
 * after its installed, source and limit filters, and the guards around
 * installing and uninstalling a model. The installed state of the model
 * manager is the predicate `installed`.
 */
module CliModels {
  import opened Wrappers
  import opened Text
  import opened Seqs
  import opened Sorting

  /**
   * A model handed to `display_models`: a `ModelInfo` object (its source
   * and type already as strings, `None` for a missing type) or a dictionary
   * (`None` for a missing key).
   */
  datatype ListedModel =
    | Info(id: string, name: string, source: string, modelType: Option<string>, sizes: seq<string>)
    | Dict(did: Option<string>, dname: Option<string>, dsource: Option<string>, dtype: Option<string>,
           dmodelType: Option<string>, dsizes: Option<seq<string>>)

  /** The dictionary each model becomes before the filters. */
  datatype Row = Row(id: string, name: string, source: string, kind: string, installed: bool, sizes: seq<string>)

  /** The type of a dictionary: `type`, else `model_type`, else 'N/A'; a present key wins even when empty. */
  function DictType(dtype: Option<string>, dmodelType: Option<string>): (t: string)
    ensures dtype.Some? ==> t == dtype.value
    ensures dtype.None? && dmodelType.Some? ==> t == dmodelType.value
    ensures dtype.None? && dmodelType.None? ==> t == "N/A"
  {
    if dtype.Some? then dtype.value else dmodelType.GetOr("N/A")
  }

  function ToRow(installed: string -> bool, m: ListedModel): Row {
    match m
    case Info(id, name, source, modelType, sizes) =>
      Row(id, name, source, if modelType.Some? && modelType.value != [] then modelType.value else "N/A", installed(id), sizes)
    case Dict(did, dname, dsource, dtype, dmodelType, dsizes) =>
      Row(did.GetOr(""), dname.GetOr(""), dsource.GetOr("unknown"), DictType(dtype, dmodelType),
        installed(did.GetOr("")), dsizes.GetOr([]))
  }

  /** A dictionary without a source is listed with source 'unknown'. */
  lemma DictDefaults(installed: string -> bool, m: ListedModel)
    requires m.Dict?
    ensures m.dsource.None? ==> ToRow(installed, m).source == "unknown"
    ensures ToRow(installed, m).installed == installed(m.did.GetOr(""))
    ensures ToRow(installed, m).kind == DictType(m.dtype, m.dmodelType)
  {
  }

  /** The filters: installed only, and a source compared without regard to case. */
  predicate Keep(installedOnly: bool, source: Option<string>, r: Row) {
    (!installedOnly || r.installed) &&
    (source.None? || source.value == [] || Lower(r.source) == Lower(source.value))
  }

  /** `ToRow`, `Keep` and `Cells` as the function values the loops map and filter with. */
  function RowOf(installed: string -> bool): ListedModel -> Row {
    m => ToRow(installed, m)
  }

  function KeepOf(installedOnly: bool, source: Option<string>): Row -> bool {
    r => Keep(installedOnly, source, r)
  }

  function CellsOf(showSizes: bool): Row -> seq<string> {
    r => Cells(showSizes, r)
  }

  /** What `display_models` shows. */
  datatype Display = NoModels | NoMatches | Table(header: seq<string>, rows: seq<seq<string>>)

  const Tick := "✓"
  const Cross := "✗"

  /** The sizes cell: the sizes joined by ", ", or "N/A" for none. */
  function SizesCell(sizes: seq<string>): (cell: string)
    ensures sizes == [] ==> cell == "N/A"
    ensures |sizes| == 1 ==> cell == sizes[0]
  {
    if sizes == [] then "N/A" else Join(sizes, ", ")
  }

  function Header(showSizes: bool): seq<string> {
    ["ID", "Name", "Source"] + (if showSizes then ["Sizes"] else []) + ["Type", "Installed"]
  }

  /** The cells of one table row, in the column order of the header. */
  function Cells(showSizes: bool, r: Row): seq<string> {
    [r.id, r.name, r.source] + (if showSizes then [SizesCell(r.sizes)] else []) + [r.kind, if r.installed then Tick else Cross]
  }

  /** Each row has a cell per column: id, name, source, the sizes when shown, type, and ✓ or ✗. */
  lemma CellsLayout(showSizes: bool, r: Row)
    ensures var cells := Cells(showSizes, r);
      |cells| == |Header(showSizes)| && cells[..3] == [r.id, r.name, r.source] &&
      cells[|cells| - 2] == r.kind && cells[|cells| - 1] == (if r.installed then Tick else Cross) &&
      (showSizes ==> cells[3] == SizesCell(r.sizes) && Header(showSizes)[3] == "Sizes")
  {
  }

  /** The rows that survive the filters and the limit, in input order. */
  function Selected(models: seq<ListedModel>, installed: string -> bool, installedOnly: bool,
                    source: Option<string>, limit: Option<int>): seq<Row> {
    var kept := Filter(MapSeq(models, RowOf(installed)), KeepOf(installedOnly, source));
    if limit.Some? then SliceTo(kept, limit.value) else kept
  }

  /**
   * The filter loop over the models: each model becomes a row, and the rows
   * `keep` accepts are listed in input order. `DisplayModels` runs it with
   * `RowOf` and `KeepOf`; they are parameters so that the loop's proof does
   * not unfold them.
   */
  method FilterRows(models: seq<ListedModel>, toRow: ListedModel -> Row, keep: Row -> bool)
    returns (filtered: seq<Row>)
    ensures filtered == Filter(MapSeq(models, toRow), keep)
  {
    filtered := [];
    var i := 0;
    while i < |models|
      invariant 0 <= i <= |models|
      invariant filtered == Filter(MapSeq(models[..i], toRow), keep)
    {
      var row := toRow(models[i]);
      MapSeqAppend(models[..i], models[i], toRow);
      FilterAppend(MapSeq(models[..i], toRow), [row], keep);
      assert models[..i + 1] == models[..i] + [models[i]];
      if keep(row) {
        filtered := filtered + [row];
      }
      i := i + 1;
    }
    assert models[..i] == models;
  }

  /** The loop that adds the table rows: the cells of each row, in order. */
  method TableRows(filtered: seq<Row>, cells: Row -> seq<string>) returns (rows: seq<seq<string>>)
    ensures rows == MapSeq(filtered, cells)
  {
    rows := [];
    var i := 0;
    while i < |filtered|
      invariant 0 <= i <= |filtered|
      invariant rows == MapSeq(filtered[..i], cells)
    {
      MapSeqAppend(filtered[..i], filtered[i], cells);
      assert filtered[..i + 1] == filtered[..i] + [filtered[i]];
      rows := rows + [cells(filtered[i])];
      i := i + 1;
    }
    assert filtered[..i] == filtered;
  }

  /** `display_models(models, installed_only, source, limit, show_sizes)` */
  method DisplayModels(models: seq<ListedModel>, installed: string -> bool, installedOnly: bool,
                       source: Option<string>, limit: Option<int>, showSizes: bool)
    returns (d: Display)
    ensures models == [] ==> d == NoModels
    ensures models != [] && Selected(models, installed, installedOnly, source, limit) == [] ==> d == NoMatches
    ensures models != [] && Selected(models, installed, installedOnly, source, limit) != [] ==>
      d == Table(Header(showSizes), MapSeq(Selected(models, installed, installedOnly, source, limit), CellsOf(showSizes)))
  {
    if models == [] {
      return NoModels;
    }
    var filtered := FilterRows(models, RowOf(installed), KeepOf(installedOnly, source));
    if limit.Some? {
      filtered := SliceTo(filtered, limit.value);
    }
    if filtered == [] {
      return NoMatches;
    }
    var rows := TableRows(filtered, CellsOf(showSizes));
    d := Table(Header(showSizes), rows);
  }

  /**
   * A listed row passes the filters, and with no limit every model that
   * passes them is listed; the limit keeps the first rows.
   */
  lemma SelectedExactly(models: seq<ListedModel>, installed: string -> bool, installedOnly: bool,
                        source: Option<string>, limit: Option<int>, r: Row)
    ensures r in Selected(models, installed, installedOnly, source, limit) ==>
      Keep(installedOnly, source, r) && exists m :: m in models && ToRow(installed, m) == r
    ensures limit.None? ==>
      (r in Selected(models, installed, installedOnly, source, limit) <==>
       Keep(installedOnly, source, r) && exists m :: m in models && ToRow(installed, m) == r)
    ensures limit.Some? && limit.value >= 0 ==> |Selected(models, installed, installedOnly, source, limit)| <= limit.value
  {
    var rows := MapSeq(models, RowOf(installed));
    var kept := Filter(rows, KeepOf(installedOnly, source));
    if r in Selected(models, installed, installedOnly, source, limit) {
      assert r in kept;
      var k :| 0 <= k < |rows| && rows[k] == r;
      MapSeqAt(models, RowOf(installed), k);
      assert models[k] in models;
    }
    if Keep(installedOnly, source, r) && exists m :: m in models && ToRow(installed, m) == r {
      var m :| m in models && ToRow(installed, m) == r;
      var k :| 0 <= k < |models| && models[k] == m;
      MapSeqAt(models, RowOf(installed), k);
      assert rows[k] == r;
      FilterKeeps(rows, KeepOf(installedOnly, source), r);
    }
  }

  /** The source filter ignores case: "Ollama" selects what "ollama" selects. */
  lemma SourceFilterIgnoresCase(installedOnly: bool, a: string, b: string, r: Row)
    requires Lower(a) == Lower(b)
    ensures Keep(installedOnly, Some(a), r) == Keep(installedOnly, Some(b), r)
  {
  }

  /**
   * `install_model_with_progress`: whether it succeeds and whether it called
   * the manager's install; `attempt` is what that call returns, `None` when
   * it raises.
   */
  function InstallWithProgress(force: bool, isInstalled: bool, attempt: Option<bool>): (r: (bool, bool))
    ensures !force && isInstalled ==> r == (false, false)
    ensures force || !isInstalled ==> r.1 && (r.0 <==> attempt == Some(true))
  {
    if !force && isInstalled then (false, false)
    else (attempt == Some(true), true)
  }

  /** `uninstall_model_with_progress`: the same guard, on a model that is not installed. */
  function UninstallWithProgress(isInstalled: bool, attempt: Option<bool>): (r: (bool, bool))
    ensures !isInstalled ==> r == (false, false)
    ensures isInstalled ==> r.1 && (r.0 <==> attempt == Some(true))
  {
    if !isInstalled then (false, false) else (attempt == Some(true), true)
  }
}
