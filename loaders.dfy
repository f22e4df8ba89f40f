/**
 * The spreadsheet loaders of the processors module: load_produtividade,
 * load_etit, load_residencial_indicadores and load_toa_indicadores. Each
 * takes the workbook as its sheet names plus a reader from sheet name to
 * frame, and applies the rules of the Filters module in the source's order.
 * A KeyError or IndexError the source would raise is an Err result; the
 * source's `return pd.DataFrame()` is an Ok frame without columns.
 */
module Loaders {
  import opened Wrappers
  import opened Text
  import opened Seqs
  import opened Frames
  import opened Filters
  import opened Workbook

  /** The coercion loop: each listed column the frame has, in turn, made numeric. */
  method CoerceColumns(f: Frame, cols: seq<string>) returns (g: Frame)
    ensures g == CoerceNumeric(f, cols)
  {
    g := f;
    var i := 0;
    while i < |cols|
      invariant 0 <= i <= |cols|
      invariant CoerceNumeric(g, cols[i..]) == CoerceNumeric(f, cols)
    {
      assert cols[i..][1..] == cols[i + 1..];
      if cols[i] in g.columns {
        g := SetColumn(g, cols[i], NumericOf(cols[i]));
      }
      i := i + 1;
    }
    assert cols[i..] == [];
  }

  /** The column list after the roster merge: the roster columns are appended. */
  function MergedColumns(cols: seq<string>, withNome: bool): (r: seq<string>)
    ensures forall c :: c in r <==> c in cols || Added(c, withNome)
  {
    cols + (if withNome then ["Matricula", "Nome", "Setor"] else ["Matricula", "Setor"])
  }

  /** The frame load_produtividade builds from the sheet it reads. */
  function ProdutividadeOf(sheet: Frame, team: set<string>, base: seq<Employee>, loginCol: string,
                           numCols: seq<string>): Frame
  {
    var c := CoerceNumeric(RosterFilter(DropUnnamed(sheet), loginCol, team, Stripped), numCols);
    Frame(MergedColumns(c.columns, false), MergeBase(c.rows, loginCol, base, false))
  }

  /**
   * load_produtividade: the chosen sheet without header-less columns, only
   * the team's rows (login stripped), the numeric columns coerced, and the
   * roster's Matricula and Setor merged in.
   */
  method LoadProdutividade(sheets: seq<string>, read: string -> Frame, candidates: seq<string>,
                           team: set<string>, base: seq<Employee>, loginCol: string, numCols: seq<string>)
    returns (r: Result<Frame>)
    requires loginCol !in numCols && !Added(loginCol, false)
    ensures r.Err? <==>
      (SheetChoice(sheets, candidates).None? ||
       loginCol !in DropUnnamed(read(SheetChoice(sheets, candidates).value)).columns)
    ensures r.Ok? ==> r.value == ProdutividadeOf(read(SheetChoice(sheets, candidates).value), team, base, loginCol, numCols)
    ensures r.Ok? ==> LoginsIn(r.value.rows, loginCol, team)
    ensures r.Ok? ==> forall c :: c in numCols && c in r.value.columns && !Added(c, false) ==>
      ColumnHolds(r.value.rows, c, IsNumeric())
    ensures r.Ok? ==> RosterRows(r.value.rows, base, false)
    ensures r.Ok? && team <= TeamIds(base) ==>
      forall row :: row in r.value.rows ==> At(row, "Matricula") == At(row, loginCol) && At(row, "Matricula") != Empty
  {
    var sheet := SelectSheet(sheets, candidates);
    if sheet.None? {
      return Err("IndexError: the workbook has no sheet");
    }
    var df := DropUnnamed(read(sheet.value));
    if loginCol !in df.columns {
      return Err("KeyError: " + loginCol);
    }
    df := RosterFilter(df, loginCol, team, Stripped);
    var kept := df;
    df := CoerceColumns(df, numCols);
    CoerceKeeps(kept, numCols, loginCol, InSet(team));
    forall c | c in numCols && c in MergedColumns(df.columns, false) && !Added(c, false)
      ensures ColumnHolds(MergeBase(df.rows, loginCol, base, false), c, IsNumeric())
    {
      CoerceNumericCells(kept, numCols, c);
      MergeKeeps(df.rows, loginCol, base, false, c, IsNumeric());
    }
    MergeKeeps(df.rows, loginCol, base, false, loginCol, InSet(team));
    if team <= TeamIds(base) {
      assert LoginsIn(df.rows, loginCol, TeamIds(base));
      MergeMatches(df.rows, loginCol, base, false);
    }
    r := Ok(Frame(MergedColumns(df.columns, false), MergeBase(df.rows, loginCol, base, false)));
  }

  /** The frame load_etit builds from the sheet it reads, when it does not fail. */
  function EtitOf(sheet: Frame, team: set<string>, base: seq<Employee>, indCol: string, filtro: string,
                  loginCol: string, numCols: seq<string>, anomesCol: string): Frame
  {
    if indCol !in sheet.columns then Frame([], [])
    else
      var w := Where(sheet, CellIs(indCol, Text(filtro)));
      if w.rows == [] then w
      else
        var roster := RosterFilter(w, loginCol, team, Stripped);
        var typed := CoerceNumeric(Frame(MergedColumns(roster.columns, true), MergeBase(roster.rows, loginCol, base, true)), numCols);
        if anomesCol in typed.columns then NormalizeColumn(typed, anomesCol, Stripped) else typed
  }

  /**
   * load_etit: the rows of the chosen sheet whose indicator is the ETIT
   * filter value, only the team's rows (login stripped), the roster's
   * Matricula, Nome and Setor merged in, the numeric columns coerced and
   * ANOMES kept as stripped text.
   */
  method LoadEtit(sheets: seq<string>, read: string -> Frame, candidates: seq<string>,
                  team: set<string>, base: seq<Employee>, indCol: string, filtro: string,
                  loginCol: string, numCols: seq<string>, anomesCol: string)
    returns (r: Result<Frame>)
    requires loginCol != indCol && anomesCol != indCol && anomesCol != loginCol
    requires indCol !in numCols && loginCol !in numCols
    requires !Added(loginCol, true) && !Added(indCol, true) && !Added(anomesCol, true)
    requires forall c :: c in numCols ==> !Added(c, true)
    ensures r.Err? <==>
      (SheetChoice(sheets, candidates).None? ||
       (var f := read(SheetChoice(sheets, candidates).value);
        indCol in f.columns && Filter(f.rows, CellIs(indCol, Text(filtro))) != [] && loginCol !in f.columns))
    ensures r.Ok? ==>
      r.value == EtitOf(read(SheetChoice(sheets, candidates).value), team, base, indCol, filtro, loginCol, numCols, anomesCol)
    ensures r.Ok? ==> ColumnHolds(r.value.rows, indCol, Equals(Text(filtro)))
    ensures r.Ok? ==> LoginsIn(r.value.rows, loginCol, team)
    ensures r.Ok? ==> forall c :: c in numCols && c in r.value.columns && c != anomesCol ==>
      ColumnHolds(r.value.rows, c, IsNumeric())
    ensures r.Ok? ==> RosterRows(r.value.rows, base, true)
  {
    var sheet := SelectSheet(sheets, candidates);
    if sheet.None? {
      return Err("IndexError: the workbook has no sheet");
    }
    var df := read(sheet.value);
    if indCol !in df.columns {
      return Ok(Frame([], []));
    }
    df := Where(df, CellIs(indCol, Text(filtro)));
    assert ColumnHolds(df.rows, indCol, Equals(Text(filtro)));
    if df.rows == [] {
      return Ok(df);
    }
    if loginCol !in df.columns {
      return Err("KeyError: " + loginCol);
    }
    var roster := RosterFilter(df, loginCol, team, Stripped);
    RosterFilterKeeps(df, loginCol, team, Stripped, indCol, Equals(Text(filtro)));
    var m := Frame(MergedColumns(roster.columns, true), MergeBase(roster.rows, loginCol, base, true));
    MergeKeeps(roster.rows, loginCol, base, true, indCol, Equals(Text(filtro)));
    MergeKeeps(roster.rows, loginCol, base, true, loginCol, InSet(team));
    var typed := CoerceColumns(m, numCols);
    CoerceKeeps(m, numCols, indCol, Equals(Text(filtro)));
    CoerceKeeps(m, numCols, loginCol, InSet(team));
    CoerceKeepsRoster(m, numCols, base, true);
    df := typed;
    if anomesCol in typed.columns {
      df := NormalizeColumn(typed, anomesCol, Stripped);
      SetColumnKeeps(typed, anomesCol, NormCell(anomesCol, Stripped), indCol, Equals(Text(filtro)));
      SetColumnKeeps(typed, anomesCol, NormCell(anomesCol, Stripped), loginCol, InSet(team));
      SetColumnKeepsRoster(typed, anomesCol, NormCell(anomesCol, Stripped), base, true);
    }
    forall c | c in numCols && c in df.columns && c != anomesCol
      ensures ColumnHolds(df.rows, c, IsNumeric())
    {
      CoerceNumericCells(m, numCols, c);
      if anomesCol in typed.columns {
        SetColumnKeeps(typed, anomesCol, NormCell(anomesCol, Stripped), c, IsNumeric());
      }
    }
    r := Ok(df);
  }

  /** The frame load_residencial_indicadores builds from the sheet it reads, when it does not fail. */
  function ResidencialOf(sheet: Frame, nomeCol: string, filtro: set<string>, indCol: string, inverted: set<string>,
                         numCols: seq<string>, anomesCol: string): Frame
  {
    if nomeCol !in sheet.columns then Frame([], [])
    else
      var w := IsinFilter(sheet, nomeCol, filtro);
      if w.rows == [] then w
      else
        var typed := CoerceNumeric(w, numCols);
        var df := if anomesCol in typed.columns then NormalizeColumn(typed, anomesCol, Stripped) else typed;
        AddAderente(df, nomeCol, indCol, inverted)
  }

  /**
   * load_residencial_indicadores: the rows of the chosen sheet naming one of
   * the residential indicators, the numeric columns coerced, ANOMES kept as
   * stripped text, and the ADERENTE column added.
   */
  method LoadResidencial(sheets: seq<string>, read: string -> Frame, candidates: seq<string>,
                         nomeCol: string, filtro: set<string>, indCol: string, inverted: set<string>,
                         numCols: seq<string>, anomesCol: string)
    returns (r: Result<Frame>)
    requires nomeCol !in numCols && nomeCol != anomesCol
    requires nomeCol != "ADERENTE" && indCol != "ADERENTE"
    ensures r.Err? <==>
      (SheetChoice(sheets, candidates).None? ||
       (var f := read(SheetChoice(sheets, candidates).value);
        nomeCol in f.columns && IsinFilter(f, nomeCol, filtro).rows != [] && indCol !in f.columns))
    ensures r.Ok? ==>
      r.value == ResidencialOf(read(SheetChoice(sheets, candidates).value), nomeCol, filtro, indCol, inverted, numCols, anomesCol)
    ensures r.Ok? ==> ColumnHolds(r.value.rows, nomeCol, InSet(filtro))
    ensures r.Ok? ==> AderenteHolds(r.value.rows, nomeCol, indCol, inverted)
    ensures r.Ok? && r.value.rows != [] ==> "ADERENTE" in r.value.columns
  {
    var sheet := SelectSheet(sheets, candidates);
    if sheet.None? {
      return Err("IndexError: the workbook has no sheet");
    }
    var df := read(sheet.value);
    if nomeCol !in df.columns {
      return Ok(Frame([], []));
    }
    df := IsinFilter(df, nomeCol, filtro);
    assert ColumnHolds(df.rows, nomeCol, InSet(filtro));
    if df.rows == [] {
      return Ok(df);
    }
    var typed := CoerceColumns(df, numCols);
    CoerceKeeps(df, numCols, nomeCol, InSet(filtro));
    df := typed;
    if anomesCol in typed.columns {
      df := NormalizeColumn(typed, anomesCol, Stripped);
      SetColumnKeeps(typed, anomesCol, NormCell(anomesCol, Stripped), nomeCol, InSet(filtro));
    }
    if indCol !in df.columns {
      return Err("KeyError: " + indCol);
    }
    var g := AddAderente(df, nomeCol, indCol, inverted);
    AddAderenteKeeps(df, nomeCol, indCol, inverted, nomeCol, InSet(filtro));
    r := Ok(g);
  }

  /**
   * The most recent ANOMES of a frame, as load_toa_indicadores computes it:
   * the largest value once the column is coerced to numbers, carried by
   * some row.
   */
  ghost predicate IsLatest(m: real, rows: seq<Row>, col: string)
  {
    (exists r :: r in rows && ToNumeric(At(r, col)) == Num(m)) &&
    forall r :: r in rows && ToNumeric(At(r, col)).Num? ==> ToNumeric(At(r, col)).n <= m
  }

  /** After normalising the login and coercing ANOMES, each row's ANOMES is the coerced input cell. */
  lemma CoercedAnomesAt(s: Frame, loginCol: string, col: string, i: int)
    requires col != loginCol && col in s.columns && 0 <= i < |s.rows|
    ensures var c := CoerceNumeric(NormalizeColumn(s, loginCol, StrippedUpper), [col]);
      |c.rows| == |s.rows| && At(c.rows[i], col) == ToNumeric(At(s.rows[i], col))
  {
    var n := NormalizeColumn(s, loginCol, StrippedUpper);
    assert col in n.columns;
    assert At(n.rows[i], col) == At(s.rows[i], col);
  }

  /** The maximum of the coerced cells of a column is the latest value of that column. */
  lemma LatestOfRows(cs: seq<Row>, rows: seq<Row>, col: string, m: real)
    requires |cs| == |rows|
    requires forall i :: 0 <= i < |rows| ==> At(cs[i], col) == ToNumeric(At(rows[i], col))
    requires MaxNum(cs, col) == Some(m)
    ensures IsLatest(m, rows, col)
  {
    var w :| w in cs && At(w, col) == Num(m);
    var j :| 0 <= j < |cs| && cs[j] == w;
    assert rows[j] in rows && ToNumeric(At(rows[j], col)) == Num(m);
    forall r0 | r0 in rows && ToNumeric(At(r0, col)).Num? ensures ToNumeric(At(r0, col)).n <= m {
      var i :| 0 <= i < |rows| && rows[i] == r0;
      assert cs[i] in cs;
    }
  }

  /** The login stripped and upper-cased and, when ANOMES is present, only the rows of the largest ANOMES. */
  function LatestMonthOf(s: Frame, loginCol: string, anomesCol: string): Frame
  {
    var n := NormalizeColumn(s, loginCol, StrippedUpper);
    if anomesCol in n.columns then KeepLatest(CoerceNumeric(n, [anomesCol]), anomesCol) else n
  }

  /**
   * The first steps of load_toa_indicadores after the indicator filter: the
   * login stripped and upper-cased and, when ANOMES is present, only the
   * rows of the most recent month kept.
   */
  method ToaLatestMonth(s: Frame, loginCol: string, anomesCol: string, nomeCol: string, filtro: set<string>)
    returns (df: Frame)
    requires loginCol in s.columns && loginCol != anomesCol && loginCol != nomeCol && nomeCol != anomesCol
    requires ColumnHolds(s.rows, nomeCol, InSet(filtro))
    ensures df == LatestMonthOf(s, loginCol, anomesCol)
    ensures df.columns == s.columns
    ensures ColumnHolds(df.rows, nomeCol, InSet(filtro))
    ensures anomesCol !in s.columns ==> df == NormalizeColumn(s, loginCol, StrippedUpper)
    ensures anomesCol in s.columns && df.rows != [] ==>
      exists m :: ColumnHolds(df.rows, anomesCol, Equals(Num(m))) && IsLatest(m, s.rows, anomesCol)
  {
    df := NormalizeColumn(s, loginCol, StrippedUpper);
    SetColumnKeeps(s, loginCol, NormCell(loginCol, StrippedUpper), nomeCol, InSet(filtro));
    if anomesCol in df.columns {
      var typed := CoerceColumns(df, [anomesCol]);
      CoerceKeeps(df, [anomesCol], nomeCol, InSet(filtro));
      df := KeepLatest(typed, anomesCol);
      if df.rows != [] {
        var m := MaxNum(typed.rows, anomesCol).value;
        forall i | 0 <= i < |s.rows| ensures At(typed.rows[i], anomesCol) == ToNumeric(At(s.rows[i], anomesCol)) {
          CoercedAnomesAt(s, loginCol, anomesCol, i);
        }
        LatestOfRows(typed.rows, s.rows, anomesCol, m);
        assert ColumnHolds(df.rows, anomesCol, Equals(Num(m)));
      }
    }
  }

  /** The last steps of load_toa_indicadores: roster merge, INDICADOR coercion, ADERENTE. */
  function ToaTail(df: Frame, loginCol: string, base: seq<Employee>, nomeCol: string, indCol: string,
                   inverted: set<string>): Frame
  {
    AddAderente(CoerceNumeric(Frame(MergedColumns(df.columns, true), MergeBase(df.rows, loginCol, base, true)), [indCol]),
                nomeCol, indCol, inverted)
  }

  /** The last steps of load_toa_indicadores leave what holds of the other columns intact. */
  lemma ToaTailKeeps(df: Frame, loginCol: string, base: seq<Employee>, nomeCol: string, indCol: string,
                     inverted: set<string>, k: string, P: Cell -> bool)
    requires !Added(k, true) && k != indCol && k != "ADERENTE" && ColumnHolds(df.rows, k, P)
    ensures ColumnHolds(ToaTail(df, loginCol, base, nomeCol, indCol, inverted).rows, k, P)
  {
    var m := Frame(MergedColumns(df.columns, true), MergeBase(df.rows, loginCol, base, true));
    MergeKeeps(df.rows, loginCol, base, true, k, P);
    CoerceKeeps(m, [indCol], k, P);
    AddAderenteKeeps(CoerceNumeric(m, [indCol]), nomeCol, indCol, inverted, k, P);
  }

  /** After the last steps of load_toa_indicadores every row carries its roster fields. */
  lemma ToaTailRoster(df: Frame, loginCol: string, base: seq<Employee>, nomeCol: string, indCol: string,
                      inverted: set<string>)
    requires !Added(indCol, true)
    ensures RosterRows(ToaTail(df, loginCol, base, nomeCol, indCol, inverted).rows, base, true)
  {
    var m := Frame(MergedColumns(df.columns, true), MergeBase(df.rows, loginCol, base, true));
    CoerceKeepsRoster(m, [indCol], base, true);
    SetColumnKeepsRoster(CoerceNumeric(m, [indCol]), "ADERENTE", AderenteOf(nomeCol, indCol, inverted), base, true);
  }

  /** The frame load_toa_indicadores builds from its sheet, when it does not fail. */
  function ToaOf(df0: Frame, nomeCol: string, filtro: set<string>, loginCol: string, anomesCol: string,
                 indCol: string, team: set<string>, base: seq<Employee>, inverted: set<string>): Frame
  {
    if nomeCol !in df0.columns then Frame([], [])
    else
      var s := IsinFilter(df0, nomeCol, filtro);
      if s.rows == [] then s
      else
        var d := IsinFilter(LatestMonthOf(s, loginCol, anomesCol), loginCol, team);
        if d.rows == [] then d else ToaTail(d, loginCol, base, nomeCol, indCol, inverted)
  }

  /**
   * load_toa_indicadores on the rows of its fixed sheet: the two TOA
   * indicators only, the login stripped and upper-cased, only the rows of
   * the most recent ANOMES, only the team's rows, the roster merged in,
   * INDICADOR coerced and the ADERENTE column added.
   */
  method LoadToa(df0: Frame, nomeCol: string, filtro: set<string>, loginCol: string, anomesCol: string,
                 indCol: string, team: set<string>, base: seq<Employee>, inverted: set<string>)
    returns (r: Result<Frame>)
    requires loginCol != nomeCol && loginCol != anomesCol && loginCol != indCol
    requires nomeCol != anomesCol && nomeCol != indCol && anomesCol != indCol
    requires !Added(loginCol, true) && !Added(nomeCol, true) && !Added(anomesCol, true) && !Added(indCol, true)
    requires "ADERENTE" !in {nomeCol, indCol, loginCol, anomesCol}
    ensures nomeCol !in df0.columns || IsinFilter(df0, nomeCol, filtro).rows == [] ==>
      r.Ok? && r.value.rows == []
    ensures nomeCol in df0.columns && IsinFilter(df0, nomeCol, filtro).rows != [] && loginCol !in df0.columns ==>
      r.Err?
    ensures r.Err? ==>
      nomeCol in df0.columns && IsinFilter(df0, nomeCol, filtro).rows != [] &&
      (loginCol !in df0.columns || indCol !in df0.columns)
    ensures r.Ok? ==> r.value == ToaOf(df0, nomeCol, filtro, loginCol, anomesCol, indCol, team, base, inverted)
    ensures r.Ok? ==> ColumnHolds(r.value.rows, nomeCol, InSet(filtro))
    ensures r.Ok? ==> LoginsIn(r.value.rows, loginCol, team)
    ensures r.Ok? ==> AderenteHolds(r.value.rows, nomeCol, indCol, inverted)
    ensures r.Ok? ==> RosterRows(r.value.rows, base, true)
    ensures r.Ok? && r.value.rows != [] && anomesCol in df0.columns ==>
      exists m :: ColumnHolds(r.value.rows, anomesCol, Equals(Num(m))) &&
                  IsLatest(m, IsinFilter(df0, nomeCol, filtro).rows, anomesCol)
  {
    if nomeCol !in df0.columns {
      return Ok(Frame([], []));
    }
    var s := IsinFilter(df0, nomeCol, filtro);
    assert ColumnHolds(s.rows, nomeCol, InSet(filtro));
    if s.rows == [] {
      return Ok(s);
    }
    if loginCol !in s.columns {
      return Err("KeyError: " + loginCol);
    }
    var recent := ToaLatestMonth(s, loginCol, anomesCol, nomeCol, filtro);
    var df := IsinFilter(recent, loginCol, team);
    assert LoginsIn(df.rows, loginCol, team);
    if df.rows == [] {
      return Ok(df);
    }
    ghost var latest: Option<real> := None;
    if anomesCol in s.columns {
      assert df.rows[0] in recent.rows;
      ghost var m :| ColumnHolds(recent.rows, anomesCol, Equals(Num(m))) && IsLatest(m, s.rows, anomesCol);
      latest := Some(m);
    }
    assert latest.Some? ==> ColumnHolds(df.rows, anomesCol, Equals(Num(latest.value)));
    assert ColumnHolds(df.rows, nomeCol, InSet(filtro));
    var m := Frame(MergedColumns(df.columns, true), MergeBase(df.rows, loginCol, base, true));
    var typed := CoerceColumns(m, [indCol]);
    if indCol !in typed.columns {
      return Err("KeyError: " + indCol);
    }
    var g := AddAderente(typed, nomeCol, indCol, inverted);
    ToaTailKeeps(df, loginCol, base, nomeCol, indCol, inverted, loginCol, InSet(team));
    ToaTailKeeps(df, loginCol, base, nomeCol, indCol, inverted, nomeCol, InSet(filtro));
    ToaTailRoster(df, loginCol, base, nomeCol, indCol, inverted);
    if latest.Some? {
      ToaTailKeeps(df, loginCol, base, nomeCol, indCol, inverted, anomesCol, Equals(Num(latest.value)));
    }
    r := Ok(g);
  }
}
