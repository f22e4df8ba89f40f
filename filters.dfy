/**
 * The row filters and column rules the loaders of the processors module
 * apply: dropping header-less columns, login normalisation and the team
 * roster filter, the indicator filters, the most-recent-ANOMES filter, the
 * left merge with the roster table and the ADERENTE (compliance) column.
 */
module Filters {
  import opened Wrappers
  import opened Text
  import opened Seqs
  import opened Frames

  // ---------------------------------------------------------------------
  // Header-less columns
  // ---------------------------------------------------------------------

  /** A column pandas named for a missing header ("Unnamed: 3"). */
  predicate Unnamed(c: string)
  {
    "Unnamed" <= c
  }

  function Restrict(r: Row): Row
  {
    map k | k in r && !Unnamed(k) :: r[k]
  }

  /** Drops the columns whose header starts with "Unnamed". */
  function DropUnnamed(f: Frame): (g: Frame)
    ensures forall c :: c in g.columns <==> c in f.columns && !Unnamed(c)
    ensures |g.rows| == |f.rows|
    ensures forall i, k :: 0 <= i < |f.rows| ==>
      At(g.rows[i], k) == if Unnamed(k) then Empty else At(f.rows[i], k)
  {
    Frame(Filter(f.columns, (c: string) => !Unnamed(c)), MapSeq(f.rows, Restrict))
  }

  // ---------------------------------------------------------------------
  // Logins and the team roster
  // ---------------------------------------------------------------------

  /** How a loader normalises a text column (logins, ANOMES). */
  datatype LoginForm = Stripped | StrippedUpper

  /**
   * `astype(str).str.strip()`, followed by `.str.upper()` for the TOA
   * loader. The result has no whitespace at either end.
   */
  function NormText(form: LoginForm, c: Cell): (s: string)
    ensures s != [] ==> !IsSpace(s[0]) && !IsSpace(s[|s| - 1])
  {
    var t := Trim(Str(c));
    TrimSlice(Str(c));
    if form == StrippedUpper then
      if t != [] then
        UpperCharSpace(t[0]);
        UpperCharSpace(t[|t| - 1]);
        Upper(t)
      else Upper(t)
    else t
  }

  /** Normalising an already normalised login changes nothing. */
  lemma NormTextIdempotent(form: LoginForm, c: Cell)
    ensures NormText(form, Text(NormText(form, c))) == NormText(form, c)
  {
    var t := Trim(Str(c));
    TrimIdempotent(Str(c));
    if form == StrippedUpper {
      var u := Upper(t);
      TrimUpperCommute(t);
      assert Trim(u) == u;
      forall i | 0 <= i < |u| ensures UpperChar(u[i]) == u[i] {
        UpperCharSpace(t[i]);
      }
      UpperOfUpper(u);
    }
  }

  function NormCell(col: string, form: LoginForm): Row -> Cell
  {
    r => Text(NormText(form, At(r, col)))
  }

  /** Replaces every cell of `col` by its normalised text (trimmed; upper-cased too for the TOA loader). */
  function NormalizeColumn(f: Frame, col: string, form: LoginForm): (g: Frame)
    ensures g.columns == WithColumn(f.columns, col)
    ensures |g.rows| == |f.rows|
    ensures forall i :: 0 <= i < |f.rows| ==> g.rows[i] == f.rows[i][col := Text(NormText(form, At(f.rows[i], col)))]
  {
    SetColumn(f, col, NormCell(col, form))
  }

  /** Every row's cell in `col` satisfies `P`. */
  predicate ColumnHolds(rows: seq<Row>, col: string, P: Cell -> bool)
  {
    forall r :: r in rows ==> P(At(r, col))
  }

  /** The cell is a text in `names`. */
  function InSet(names: set<string>): Cell -> bool
  {
    (c: Cell) => c.Text? && c.s in names
  }

  /** The cell is a number or NaN, as after pd.to_numeric. */
  function IsNumeric(): Cell -> bool
  {
    (c: Cell) => c.Num? || c.Empty?
  }

  function Equals(v: Cell): Cell -> bool
  {
    (c: Cell) => c == v
  }

  /** All rows hold a text login that belongs to the team. */
  predicate LoginsIn(rows: seq<Row>, col: string, team: set<string>)
  {
    ColumnHolds(rows, col, InSet(team))
  }

  /** Setting one column leaves what holds of another column intact. */
  lemma SetColumnKeeps(f: Frame, col: string, g: Row -> Cell, k: string, P: Cell -> bool)
    requires k != col && ColumnHolds(f.rows, k, P)
    ensures ColumnHolds(SetColumn(f, col, g).rows, k, P)
  {
    var h := SetColumn(f, col, g);
    forall r | r in h.rows ensures P(At(r, k)) {
      var i :| 0 <= i < |h.rows| && h.rows[i] == r;
      assert f.rows[i] in f.rows;
    }
  }

  /** Coercing other columns leaves what holds of a column intact. */
  lemma CoerceKeeps(f: Frame, cols: seq<string>, k: string, P: Cell -> bool)
    requires k !in cols && ColumnHolds(f.rows, k, P)
    ensures ColumnHolds(CoerceNumeric(f, cols).rows, k, P)
  {
    var h := CoerceNumeric(f, cols);
    forall r | r in h.rows ensures P(At(r, k)) {
      var i :| 0 <= i < |h.rows| && h.rows[i] == r;
      assert f.rows[i] in f.rows;
    }
  }

  /** A coerced column holds only numbers and NaN. */
  lemma CoerceNumericCells(f: Frame, cols: seq<string>, k: string)
    requires k in cols && k in f.columns
    ensures ColumnHolds(CoerceNumeric(f, cols).rows, k, IsNumeric())
  {
    var h := CoerceNumeric(f, cols);
    forall r | r in h.rows ensures IsNumeric()(At(r, k)) {
      var i :| 0 <= i < |h.rows| && h.rows[i] == r;
    }
  }

  /** Every row carries the roster fields of one employee, or none at all. */
  ghost predicate RosterRows(rows: seq<Row>, base: seq<Employee>, withNome: bool)
  {
    forall r :: r in rows ==> EmployeeFields(r, base, withNome)
  }

  /** Setting a column that is not a roster column keeps the roster fields. */
  lemma SetColumnKeepsRoster(f: Frame, col: string, g: Row -> Cell, base: seq<Employee>, withNome: bool)
    requires !Added(col, withNome) && RosterRows(f.rows, base, withNome)
    ensures RosterRows(SetColumn(f, col, g).rows, base, withNome)
  {
    var h := SetColumn(f, col, g);
    forall r | r in h.rows ensures EmployeeFields(r, base, withNome) {
      var i :| 0 <= i < |h.rows| && h.rows[i] == r;
      assert f.rows[i] in f.rows;
      assert Added("Matricula", withNome) && Added("Setor", withNome);
      assert At(r, "Matricula") == At(f.rows[i], "Matricula");
      assert At(r, "Setor") == At(f.rows[i], "Setor");
      if withNome {
        assert Added("Nome", withNome);
        assert At(r, "Nome") == At(f.rows[i], "Nome");
      }
    }
  }

  /** Coercing columns that are not roster columns keeps the roster fields. */
  lemma CoerceKeepsRoster(f: Frame, cols: seq<string>, base: seq<Employee>, withNome: bool)
    requires (forall c :: c in cols ==> !Added(c, withNome)) && RosterRows(f.rows, base, withNome)
    ensures RosterRows(CoerceNumeric(f, cols).rows, base, withNome)
  {
    var h := CoerceNumeric(f, cols);
    forall r | r in h.rows ensures EmployeeFields(r, base, withNome) {
      var i :| 0 <= i < |h.rows| && h.rows[i] == r;
      assert f.rows[i] in f.rows;
      assert Added("Matricula", withNome) && Added("Setor", withNome);
      assert At(r, "Matricula") == At(f.rows[i], "Matricula");
      assert At(r, "Setor") == At(f.rows[i], "Setor");
      if withNome {
        assert Added("Nome", withNome);
        assert At(r, "Nome") == At(f.rows[i], "Nome");
      }
    }
  }

  /**
   * The team filter of load_produtividade and load_etit: the login column is
   * normalised and only the rows whose normalised login is a team id are
   * kept, in their original order.
   */
  function RosterFilter(f: Frame, col: string, team: set<string>, form: LoginForm): (g: Frame)
    ensures g.columns == WithColumn(f.columns, col)
    ensures LoginsIn(g.rows, col, team)
    ensures forall r :: r in g.rows ==>
      exists i :: 0 <= i < |f.rows| && r == f.rows[i][col := Text(NormText(form, At(f.rows[i], col)))]
    ensures forall i :: 0 <= i < |f.rows| && NormText(form, At(f.rows[i], col)) in team ==>
      f.rows[i][col := Text(NormText(form, At(f.rows[i], col)))] in g.rows
    ensures IsSubseq(g.rows, NormalizeColumn(f, col, form).rows)
  {
    var h := NormalizeColumn(f, col, form);
    FilterIsSubseq(h.rows, TextIn(col, team));
    Where(h, TextIn(col, team))
  }

  /** Filtering by the roster a second time keeps every row: the filter is idempotent. */
  lemma RosterFilterIdempotent(f: Frame, col: string, team: set<string>, form: LoginForm)
    ensures RosterFilter(RosterFilter(f, col, team, form), col, team, form) == RosterFilter(f, col, team, form)
  {
    var g := RosterFilter(f, col, team, form);
    var h := NormalizeColumn(g, col, form);
    forall i | 0 <= i < |g.rows| ensures h.rows[i] == g.rows[i] {
      assert g.rows[i] in g.rows;
      var j :| 0 <= j < |f.rows| && g.rows[i] == f.rows[j][col := Text(NormText(form, At(f.rows[j], col)))];
      RenormalizeRow(f.rows[j], col, form);
    }
    assert h.rows == g.rows;
    assert col in g.columns;
    assert h.columns == g.columns;
    FilterAllKept(g.rows, TextIn(col, team));
  }

  lemma RenormalizeRow(r0: Row, col: string, form: LoginForm)
    ensures var r := r0[col := Text(NormText(form, At(r0, col)))];
      r[col := Text(NormText(form, At(r, col)))] == r
  {
    NormTextIdempotent(form, At(r0, col));
  }

  /** The roster filter leaves what holds of any other column intact. */
  lemma RosterFilterKeeps(f: Frame, col: string, team: set<string>, form: LoginForm, k: string, P: Cell -> bool)
    requires k != col && ColumnHolds(f.rows, k, P)
    ensures ColumnHolds(RosterFilter(f, col, team, form).rows, k, P)
  {
    SetColumnKeeps(f, col, NormCell(col, form), k, P);
  }

  // ---------------------------------------------------------------------
  // Indicator filters
  // ---------------------------------------------------------------------

  /** The rows whose cell in `col` is one of `names`. */
  function IsinFilter(f: Frame, col: string, names: set<string>): (g: Frame)
    ensures g.columns == f.columns
    ensures forall r :: r in g.rows ==> r in f.rows && At(r, col).Text? && At(r, col).s in names
    ensures forall r :: r in f.rows && At(r, col).Text? && At(r, col).s in names ==> r in g.rows
    ensures IsSubseq(g.rows, f.rows)
  {
    FilterIsSubseq(f.rows, TextIn(col, names));
    Where(f, TextIn(col, names))
  }

  // ---------------------------------------------------------------------
  // Most recent ANOMES
  // ---------------------------------------------------------------------

  /** `Series.max()` of a numeric column: NaN cells are skipped; None when no cell is a number. */
  function MaxNum(rows: seq<Row>, col: string): (m: Option<real>)
    ensures m.None? <==> forall r :: r in rows ==> !At(r, col).Num?
    ensures m.Some? ==> exists r :: r in rows && At(r, col) == Num(m.value)
    ensures m.Some? ==> forall r :: r in rows && At(r, col).Num? ==> At(r, col).n <= m.value
  {
    if rows == [] then None
    else
      var rest := MaxNum(rows[1..], col);
      var c := At(rows[0], col);
      assert forall r :: r in rows <==> r == rows[0] || r in rows[1..];
      if !c.Num? then rest
      else
        match rest
        case None => Some(c.n)
        case Some(x) => Some(if c.n >= x then c.n else x)
  }

  /**
   * Keeps the rows whose numeric cell in `col` is the column's maximum.
   * When the column has no number the maximum is NaN, which equals
   * nothing, and no row is kept.
   */
  function KeepLatest(f: Frame, col: string): (g: Frame)
    ensures g.columns == f.columns
    ensures forall r :: r in g.rows ==> r in f.rows && MaxNum(f.rows, col).Some? && At(r, col) == Num(MaxNum(f.rows, col).value)
    ensures forall r :: r in f.rows && MaxNum(f.rows, col).Some? && At(r, col) == Num(MaxNum(f.rows, col).value) ==> r in g.rows
    ensures g.rows == [] <==> MaxNum(f.rows, col).None?
    ensures IsSubseq(g.rows, f.rows)
  {
    match MaxNum(f.rows, col)
    case None =>
      Frame(f.columns, [])
    case Some(m) =>
      FilterIsSubseq(f.rows, CellIs(col, Num(m)));
      var w :| w in f.rows && At(w, col) == Num(m);
      assert w in Where(f, CellIs(col, Num(m))).rows;
      Where(f, CellIs(col, Num(m)))
  }

  /** Python's int() on a float: truncation toward zero. */
  function Trunc(x: real): (n: int)
    ensures x >= 0.0 ==> n as real <= x < n as real + 1.0
    ensures x < 0.0 ==> n as real - 1.0 < x <= n as real
  {
    if x >= 0.0 then x.Floor else -((-x).Floor)
  }

  /**
   * toa_anomes_recente: the largest ANOMES of the frame as an integer; None
   * for an empty frame, a frame without the column, or a column without
   * numbers.
   */
  function AnomesRecente(f: Frame, col: string): (a: Option<int>)
    ensures a.Some? ==> f.rows != [] && col in f.columns
    ensures a.Some? <==> f.rows != [] && col in f.columns && MaxNum(CoerceNumeric(f, [col]).rows, col).Some?
  {
    if f.rows == [] || col !in f.columns then None
    else
      match MaxNum(CoerceNumeric(f, [col]).rows, col)
      case None => None
      case Some(v) => Some(Trunc(v))
  }

  /**
   * After the TOA loader kept only the latest ANOMES, toa_anomes_recente
   * reports exactly that ANOMES.
   */
  lemma AnomesRecenteOfLatest(f: Frame, col: string, m: real)
    requires f.rows != [] && col in f.columns
    requires forall r :: r in f.rows ==> At(r, col) == Num(m)
    ensures AnomesRecente(f, col) == Some(Trunc(m))
  {
    var g := CoerceNumeric(f, [col]);
    forall r | r in g.rows ensures At(r, col) == Num(m) {
      var i :| 0 <= i < |g.rows| && g.rows[i] == r;
      assert f.rows[i] in f.rows;
    }
    assert g.rows[0] in g.rows;
    var x := MaxNum(g.rows, col).value;
    var w :| w in g.rows && At(w, col) == Num(x);
  }

  // ---------------------------------------------------------------------
  // Left merge with the roster table
  // ---------------------------------------------------------------------

  /** The columns the roster merge adds: Matricula, Setor and, for some loaders, Nome. */
  predicate Added(c: string, withNome: bool)
  {
    c == "Matricula" || c == "Setor" || (withNome && c == "Nome")
  }

  function WithEmployee(r: Row, e: Employee, withNome: bool): Row
  {
    var r1 := r["Matricula" := Text(e.matricula)]["Setor" := Text(e.setor)];
    if withNome then r1["Nome" := Text(e.nome)] else r1
  }

  /** A left-merge row without a match: the added columns are NaN. */
  function WithoutEmployee(r: Row, withNome: bool): Row
  {
    var r1 := r["Matricula" := Empty]["Setor" := Empty];
    if withNome then r1["Nome" := Empty] else r1
  }

  function SameMatricula(c: Cell): Employee -> bool
  {
    (e: Employee) => c == Text(e.matricula)
  }

  function EmployeeRow(r: Row, withNome: bool): Employee -> Row
  {
    e => WithEmployee(r, e, withNome)
  }

  /** The roster columns of a merged row come from one employee, or are all NaN. */
  ghost predicate EmployeeFields(r': Row, base: seq<Employee>, withNome: bool)
  {
    (exists e :: e in base && At(r', "Matricula") == Text(e.matricula) && At(r', "Setor") == Text(e.setor)
       && (withNome ==> At(r', "Nome") == Text(e.nome)))
    || (At(r', "Matricula") == Empty && At(r', "Setor") == Empty && (withNome ==> At(r', "Nome") == Empty))
  }

  function MergeRow(r: Row, loginCol: string, base: seq<Employee>, withNome: bool): (out: seq<Row>)
    ensures out != []
    ensures forall r', k :: r' in out && !Added(k, withNome) ==> At(r', k) == At(r, k)
    ensures forall r' :: r' in out ==> EmployeeFields(r', base, withNome)
    ensures (exists e :: e in base && At(r, loginCol) == Text(e.matricula)) ==>
      forall r' :: r' in out ==> At(r', "Matricula") == At(r, loginCol)
  {
    var ms := Filter(base, SameMatricula(At(r, loginCol)));
    if ms == [] then
      [WithoutEmployee(r, withNome)]
    else
      var out := MapSeq(ms, EmployeeRow(r, withNome));
      forall r' | r' in out ensures EmployeeFields(r', base, withNome) && At(r', "Matricula") == At(r, loginCol) {
        var i :| 0 <= i < |out| && out[i] == r';
        assert ms[i] in ms;
      }
      out
  }

  /**
   * The left merge of the rows with the roster, on the login column against
   * Matricula: every row is kept, once per matching employee (once with
   * NaN roster columns when none matches), in the order of the left rows.
   */
  function MergeBase(rows: seq<Row>, loginCol: string, base: seq<Employee>, withNome: bool): (out: seq<Row>)
    ensures |out| >= |rows|
    ensures forall r' :: r' in out ==> EmployeeFields(r', base, withNome)
  {
    if rows == [] then []
    else MergeRow(rows[0], loginCol, base, withNome) + MergeBase(rows[1..], loginCol, base, withNome)
  }

  /** A column the merge does not add keeps, in every merged row, a value some input row had. */
  lemma {:induction false} MergeKeeps(rows: seq<Row>, loginCol: string, base: seq<Employee>, withNome: bool, col: string, P: Cell -> bool)
    requires !Added(col, withNome)
    requires forall r :: r in rows ==> P(At(r, col))
    ensures forall r' :: r' in MergeBase(rows, loginCol, base, withNome) ==> P(At(r', col))
  {
    if rows != [] {
      assert rows[0] in rows;
      assert forall r :: r in rows[1..] ==> r in rows;
      MergeKeeps(rows[1..], loginCol, base, withNome, col, P);
    }
  }

  /**
   * Merging rows whose logins are all team ids with a roster that holds
   * every team id fills the roster columns of every row from the matching
   * employee: no row is left with NaN roster columns.
   */
  lemma {:induction false} MergeMatches(rows: seq<Row>, loginCol: string, base: seq<Employee>, withNome: bool)
    requires !Added(loginCol, withNome)
    requires LoginsIn(rows, loginCol, TeamIds(base))
    ensures forall r' :: r' in MergeBase(rows, loginCol, base, withNome) ==>
      At(r', "Matricula") == At(r', loginCol) && At(r', "Matricula") != Empty
  {
    if rows != [] {
      var r := rows[0];
      assert r in rows;
      var e :| e in base && e.matricula == At(r, loginCol).s;
      assert forall r :: r in rows[1..] ==> r in rows;
      MergeMatches(rows[1..], loginCol, base, withNome);
    }
  }

  // ---------------------------------------------------------------------
  // Compliance
  // ---------------------------------------------------------------------

  /**
   * The ADERENTE value of a row: for an indicator whose name is in the
   * inverted set a raw INDICADOR of 0 is compliant, for any other indicator
   * a raw 1 is; anything else (NaN, text, other numbers) is not.
   */
  function Aderente(nome: Cell, indicador: Cell, inverted: set<string>): (a: real)
    ensures a == 0.0 || a == 1.0
  {
    var target := if nome.Text? && nome.s in inverted then 0.0 else 1.0;
    if indicador == Num(target) then 1.0 else 0.0
  }

  /** Inverting an indicator flips the compliance of every 0/1 value. */
  lemma AderentePolarity(inv: string, plain: Cell, indicador: Cell, inverted: set<string>)
    requires inv in inverted && !(plain.Text? && plain.s in inverted)
    requires indicador == Num(0.0) || indicador == Num(1.0)
    ensures Aderente(Text(inv), indicador, inverted) == 1.0 - Aderente(plain, indicador, inverted)
  {
  }

  /** A value other than 0 and 1 is never compliant, whatever the indicator. */
  lemma AderenteOther(nome: Cell, indicador: Cell, inverted: set<string>)
    requires indicador != Num(0.0) && indicador != Num(1.0)
    ensures Aderente(nome, indicador, inverted) == 0.0
  {
  }

  function AderenteOf(nomeCol: string, indCol: string, inverted: set<string>): Row -> Cell
  {
    r => Num(Aderente(At(r, nomeCol), At(r, indCol), inverted))
  }

  /** Every row's ADERENTE cell is the compliance of its own name and INDICADOR cells. */
  predicate AderenteHolds(rows: seq<Row>, nomeCol: string, indCol: string, inverted: set<string>)
  {
    forall r :: r in rows ==> At(r, "ADERENTE") == Num(Aderente(At(r, nomeCol), At(r, indCol), inverted))
  }

  /** Sets the ADERENTE column of every row to its compliance flag (0 or 1). */
  function AddAderente(f: Frame, nomeCol: string, indCol: string, inverted: set<string>): (g: Frame)
    ensures g.columns == WithColumn(f.columns, "ADERENTE")
    ensures |g.rows| == |f.rows|
    ensures forall i :: 0 <= i < |f.rows| ==>
      g.rows[i] == f.rows[i]["ADERENTE" := Num(Aderente(At(f.rows[i], nomeCol), At(f.rows[i], indCol), inverted))]
    ensures nomeCol != "ADERENTE" && indCol != "ADERENTE" ==> AderenteHolds(g.rows, nomeCol, indCol, inverted)
  {
    var g := SetColumn(f, "ADERENTE", AderenteOf(nomeCol, indCol, inverted));
    forall r | r in g.rows && nomeCol != "ADERENTE" && indCol != "ADERENTE"
      ensures At(r, "ADERENTE") == Num(Aderente(At(r, nomeCol), At(r, indCol), inverted))
    {
      var i :| 0 <= i < |g.rows| && g.rows[i] == r;
    }
    g
  }

  /** Adding the ADERENTE column leaves what holds of any other column intact. */
  lemma AddAderenteKeeps(f: Frame, nomeCol: string, indCol: string, inverted: set<string>, k: string, P: Cell -> bool)
    requires k != "ADERENTE" && ColumnHolds(f.rows, k, P)
    ensures ColumnHolds(AddAderente(f, nomeCol, indCol, inverted).rows, k, P)
  {
    SetColumnKeeps(f, "ADERENTE", AderenteOf(nomeCol, indCol, inverted), k, P);
  }
}
