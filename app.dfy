/**
 * The data side of app.py: the goal status of a value, the per-analyst
 * wide table built from the roster and the parsed indicators, the status
 * columns, the alert rows and the ranking direction. The Streamlit widgets
 * (uploads, button, tables, select box) are left out; their inputs are
 * parameters.
 */
module App {
  import opened Wrappers
  import opened Seqs
  import opened Frames
  import opened Config
  import opened Parsers

  const DENTRO := "✅ Dentro"
  const FORA := "❌ Fora"
  const SEM_DADO := "—"

  const MATRICULA := "Matricula"
  const NOME := "Nome"
  const SETOR := "Setor"

  // ---------------------------------------------------------------------
  // status_por_meta
  // ---------------------------------------------------------------------

  /**
   * `status_por_meta`: no status without a value (None or NaN); for "up"
   * goals the value must reach the goal, for every other direction it must
   * not exceed it.
   */
  function StatusPorMeta(valor: Option<real>, meta: real, direcao: string): (s: string)
    ensures s == SEM_DADO <==> valor.None?
    ensures valor.Some? && direcao == "up" ==> (s == DENTRO <==> valor.value >= meta)
    ensures valor.Some? && direcao != "up" ==> (s == DENTRO <==> valor.value <= meta)
    ensures valor.Some? ==> (s == FORA <==> s != DENTRO)
  {
    if valor.None? then SEM_DADO
    else if direcao == "up" then (if valor.value >= meta then DENTRO else FORA)
    else if valor.value <= meta then DENTRO else FORA
  }

  /** The status is one of the three labels. */
  lemma StatusLabels(valor: Option<real>, meta: real, direcao: string)
    ensures StatusPorMeta(valor, meta, direcao) in {SEM_DADO, DENTRO, FORA}
  {
  }

  /** A value exactly at the goal is within it, whatever the direction. */
  lemma StatusAtGoal(meta: real, direcao: string)
    ensures StatusPorMeta(Some(meta), meta, direcao) == DENTRO
  {
  }

  /** A "down" goal is an "up" goal on the negated scale. */
  lemma StatusMirror(v: real, meta: real)
    ensures StatusPorMeta(Some(v), meta, "down") == StatusPorMeta(Some(-v), -meta, "up")
  {
  }

  /** The value a cell holds for the status: a number, or nothing (NaN). */
  function CellValue(c: Cell): (v: Option<real>)
    ensures v.Some? <==> c.Num?
    ensures v.Some? ==> c == Num(v.value)
  {
    if c.Num? then Some(c.n) else None
  }

  // ---------------------------------------------------------------------
  // The wide table
  // ---------------------------------------------------------------------

  /** One roster line of BASE. */
  function BaseRow(e: Employee): Row
  {
    map[MATRICULA := Text(e.matricula), NOME := Text(e.nome), SETOR := Text(e.setor)]
  }

  /** The roster as a table with the columns Matricula, Nome and Setor, one line per member. */
  function BaseFrame(base: seq<Employee>): (f: Frame)
    ensures f.columns == [MATRICULA, NOME, SETOR] && |f.rows| == |base|
    ensures forall i :: 0 <= i < |base| ==> f.rows[i] == BaseRow(base[i])
  {
    Frame([MATRICULA, NOME, SETOR], MapSeq(base, BaseRow))
  }

  /** The pct cell of an indicator line: NaN when the percentage is undefined. */
  function PctCell(p: Option<real>): Cell
  {
    if p.Some? then Num(p.value) else Empty
  }

  function SameMatricula(c: Cell): IndicadorRow -> bool
  {
    (t: IndicadorRow) => t.matricula == c
  }

  function WithPct(r: Row, col: string): IndicadorRow -> Row
  {
    (t: IndicadorRow) => r[col := PctCell(t.pct)]
  }

  /** One left row of the merge: one output row per matching line, or one with NaN. */
  function MergeOne(r: Row, lines: seq<IndicadorRow>, col: string): seq<Row>
  {
    var ms := Filter(lines, SameMatricula(At(r, MATRICULA)));
    if ms == [] then [r[col := Empty]] else MapSeq(ms, WithPct(r, col))
  }

  /** Left join on Matricula: every left line kept, once per matching result line, in the left lines' order. */
  function MergeLeft(rows: seq<Row>, lines: seq<IndicadorRow>, col: string): seq<Row>
  {
    if rows == [] then [] else MergeOne(rows[0], lines, col) + MergeLeft(rows[1..], lines, col)
  }

  /** The merge of one indicator's `pct`, renamed to the indicator's name. */
  function MergeResult(f: Frame, r: IndicadorResult): Frame
  {
    Frame(f.columns + [r.indicador], MergeLeft(f.rows, r.rows, r.indicador))
  }

  /** The wide table after merging the first results, in order. */
  function WideOf(base: seq<Employee>, resultados: seq<IndicadorResult>): Frame
  {
    if resultados == [] then BaseFrame(base)
    else MergeResult(WideOf(base, resultados[..|resultados| - 1]), resultados[|resultados| - 1])
  }

  /** The wide table: the roster table, left-joined with each result in turn. */
  method BuildWide(base: seq<Employee>, resultados: seq<IndicadorResult>) returns (f: Frame)
    ensures f == WideOf(base, resultados)
  {
    f := BaseFrame(base);
    var i := 0;
    while i < |resultados|
      invariant 0 <= i <= |resultados|
      invariant f == WideOf(base, resultados[..i])
    {
      assert resultados[..i + 1][..i] == resultados[..i];
      f := MergeResult(f, resultados[i]);
      i := i + 1;
    }
    assert resultados[..i] == resultados;
  }

  /** No two lines of an indicator table share a login. */
  predicate UniqueLogins(lines: seq<IndicadorRow>)
  {
    forall i, j :: 0 <= i < j < |lines| ==> lines[i].matricula != lines[j].matricula
  }

  /** The pct cell a login gets from an indicator table. */
  function PctFor(lines: seq<IndicadorRow>, c: Cell): Cell
  {
    var ms := Filter(lines, SameMatricula(c));
    if ms == [] then Empty else PctCell(ms[0].pct)
  }

  /** With unique logins, at most one line matches a login. */
  lemma {:induction false} MatchAtMostOne(lines: seq<IndicadorRow>, c: Cell)
    requires UniqueLogins(lines)
    ensures |Filter(lines, SameMatricula(c))| <= 1
  {
    if lines != [] {
      var tail := lines[1..];
      assert UniqueLogins(tail) by {
        forall i, j | 0 <= i < j < |tail| ensures tail[i].matricula != tail[j].matricula {
          assert tail[i] == lines[i + 1] && tail[j] == lines[j + 1];
        }
      }
      MatchAtMostOne(tail, c);
      var rest := Filter(tail, SameMatricula(c));
      assert Filter(lines, SameMatricula(c)) ==
        (if lines[0].matricula == c then [lines[0]] else []) + rest;
      if lines[0].matricula == c {
        forall x | x in tail ensures !SameMatricula(c)(x) {
          var j :| 0 <= j < |tail| && tail[j] == x;
          assert lines[j + 1] == x;
        }
        FilterNone(tail, SameMatricula(c));
      }
    }
  }

  /** With unique logins a left row has one output row: itself with the login's pct or NaN. */
  lemma MergeOneUnique(r: Row, lines: seq<IndicadorRow>, col: string)
    requires UniqueLogins(lines)
    ensures MergeOne(r, lines, col) == [r[col := PctFor(lines, At(r, MATRICULA))]]
  {
    MatchAtMostOne(lines, At(r, MATRICULA));
  }

  /** With unique logins the left merge keeps one row per left row and sets the indicator's cell. */
  lemma {:induction false} MergeLeftUnique(rows: seq<Row>, lines: seq<IndicadorRow>, col: string)
    requires UniqueLogins(lines)
    ensures |MergeLeft(rows, lines, col)| == |rows|
    ensures forall i :: 0 <= i < |rows| ==>
      MergeLeft(rows, lines, col)[i] == rows[i][col := PctFor(lines, At(rows[i], MATRICULA))]
  {
    if rows != [] {
      var tail := MergeLeft(rows[1..], lines, col);
      MergeOneUnique(rows[0], lines, col);
      MergeLeftUnique(rows[1..], lines, col);
      var m := MergeLeft(rows, lines, col);
      assert m == [rows[0][col := PctFor(lines, At(rows[0], MATRICULA))]] + tail;
      forall i | 0 < i < |rows|
        ensures m[i] == rows[i][col := PctFor(lines, At(rows[i], MATRICULA))]
      {
        assert m[i] == tail[i - 1];
        assert rows[1..][i - 1] == rows[i];
      }
    }
  }

  /** The indicator names of the results. */
  function Indicadores(resultados: seq<IndicadorResult>): (names: seq<string>)
    ensures |names| == |resultados|
    ensures forall k :: 0 <= k < |resultados| ==> names[k] == resultados[k].indicador
  {
    MapSeq(resultados, (r: IndicadorResult) => r.indicador)
  }

  /**
   * What the merges may assume about the results: each table has unique
   * logins, and the indicator names are distinct and differ from the roster's columns.
   */
  predicate Mergeable(resultados: seq<IndicadorResult>)
  {
    (forall k :: 0 <= k < |resultados| ==> UniqueLogins(resultados[k].rows)) &&
    (forall k :: 0 <= k < |resultados| ==> resultados[k].indicador !in [MATRICULA, NOME, SETOR]) &&
    (forall k, l :: 0 <= k < l < |resultados| ==> resultados[k].indicador != resultados[l].indicador)
  }

  /** A wide-table line of roster member `e` after the merges of `resultados`. */
  predicate RowOf(r: Row, e: Employee, resultados: seq<IndicadorResult>)
  {
    At(r, MATRICULA) == Text(e.matricula) && At(r, NOME) == Text(e.nome) && At(r, SETOR) == Text(e.setor) &&
    forall k :: 0 <= k < |resultados| ==>
      At(r, resultados[k].indicador) == PctFor(resultados[k].rows, Text(e.matricula))
  }

  /** One merge keeps the member's fields and earlier cells and adds the new indicator's cell. */
  lemma WideStep(r0: Row, e: Employee, pre: seq<IndicadorResult>, last: IndicadorResult)
    requires last.indicador !in [MATRICULA, NOME, SETOR]
    requires forall k :: 0 <= k < |pre| ==> pre[k].indicador != last.indicador
    requires RowOf(r0, e, pre)
    ensures RowOf(r0[last.indicador := PctFor(last.rows, At(r0, MATRICULA))], e, pre + [last])
  {
    var r := r0[last.indicador := PctFor(last.rows, At(r0, MATRICULA))];
    var all := pre + [last];
    forall k | 0 <= k < |all|
      ensures At(r, all[k].indicador) == PctFor(all[k].rows, Text(e.matricula))
    {
      if k < |pre| {
        assert all[k] == pre[k];
      }
    }
  }

  /**
   * The wide table has one row per roster member, in roster order, with the
   * member's fields and, for each indicator, the member's pct or NaN.
   */
  lemma {:induction false} WideTable(base: seq<Employee>, resultados: seq<IndicadorResult>)
    requires Mergeable(resultados)
    ensures WideOf(base, resultados).columns == [MATRICULA, NOME, SETOR] + Indicadores(resultados)
    ensures |WideOf(base, resultados).rows| == |base|
    ensures forall i :: 0 <= i < |base| ==> RowOf(WideOf(base, resultados).rows[i], base[i], resultados)
  {
    if resultados != [] {
      var n := |resultados| - 1;
      var pre := resultados[..n];
      var last := resultados[n];
      MergeablePrefix(resultados);
      WideTable(base, pre);
      var w0 := WideOf(base, pre);
      MergeLeftUnique(w0.rows, last.rows, last.indicador);
      forall i | 0 <= i < |base|
        ensures RowOf(WideOf(base, resultados).rows[i], base[i], resultados)
      {
        WideStep(w0.rows[i], base[i], pre, last);
      }
    }
  }

  /** The results but the last are mergeable, and the last one's name is new. */
  lemma MergeablePrefix(resultados: seq<IndicadorResult>)
    requires Mergeable(resultados) && resultados != []
    ensures var n := |resultados| - 1;
      Mergeable(resultados[..n]) &&
      resultados == resultados[..n] + [resultados[n]] &&
      Indicadores(resultados) == Indicadores(resultados[..n]) + [resultados[n].indicador] &&
      resultados[n].indicador !in [MATRICULA, NOME, SETOR] &&
      forall k :: 0 <= k < n ==> resultados[..n][k].indicador != resultados[n].indicador
  {
    var n := |resultados| - 1;
    var pre := resultados[..n];
    assert forall k :: 0 <= k < n ==> pre[k] == resultados[k];
    assert resultados == pre + [resultados[n]];
  }


  // ---------------------------------------------------------------------
  // Processing: parsers, merges and status columns
  // ---------------------------------------------------------------------

  function OptList(o: Option<IndicadorResult>): seq<IndicadorResult>
  {
    if o.Some? then [o.value] else []
  }

  /** The Chat TOA result, when a TOA sheet was uploaded. */
  function ToaResult(toa: Option<Frame>, ids: set<string>): Option<IndicadorResult>
  {
    if toa.Some? then ChatToaOf(toa.value, ids) else None
  }

  /** A residential result, when a residential sheet was uploaded. */
  function ResResult(res: Option<Frame>, ids: set<string>, name: string, indicador: string, naoAderente: bool):
    Option<IndicadorResult>
  {
    if res.Some? then ResidencialOf(res.value, ids, name, indicador, naoAderente) else None
  }

  /** The results the button collects, in order: Chat TOA from the TOA sheet, then the two residential indicators. */
  function ResultadosOf(toa: Option<Frame>, res: Option<Frame>, ids: set<string>): seq<IndicadorResult>
  {
    OptList(ToaResult(toa, ids)) +
    (OptList(ResResult(res, ids, RES_ETIT_GPON_INDICADOR_NOME, ETIT_GPON, false)) +
     OptList(ResResult(res, ids, RES_LOG_REPROG_GPON_INDICADOR_NOME, LOG_REPROG, true)))
  }

  /** A result, when there is one, is named `indicador` and has one line per login. */
  predicate Carries(o: Option<IndicadorResult>, indicador: string)
  {
    o.Some? ==> o.value.indicador == indicador && UniqueLogins(o.value.rows)
  }

  /** A result of `Finish` carries the indicator's name and one line per login. */
  lemma FinishCarries(sub: seq<Row>, col: string, ids: set<string>, indicador: string, naoAderente: bool)
    ensures Carries(Finish(sub, col, ids, indicador, naoAderente), indicador)
  {
    if Finish(sub, col, ids, indicador, naoAderente).Some? {
      FinishLogins(sub, col, ids, indicador, naoAderente);
    }
  }

  lemma ToaCarries(toa: Option<Frame>, ids: set<string>)
    ensures Carries(ToaResult(toa, ids), CHAT_TOA)
  {
    if toa.Some? {
      FinishCarries(Filter(toa.value.rows, NameMatches(CHAT_TOA_NAME_PATTERNS)), LOGIN, ids, CHAT_TOA, false);
    }
  }

  lemma ResCarries(res: Option<Frame>, ids: set<string>, name: string, indicador: string, naoAderente: bool)
    ensures Carries(ResResult(res, ids, name, indicador, naoAderente), indicador)
  {
    if res.Some? {
      var g := WithLogin(res.value);
      FinishCarries(Filter(g.rows, Selected(name)), LOGIN_ACIONAMENTO, ids, indicador, naoAderente);
    }
  }

  /** Every collected result has unique logins and its own indicator name, none of them a roster column. */
  lemma ResultadosMergeable(toa: Option<Frame>, res: Option<Frame>, ids: set<string>)
    ensures Mergeable(ResultadosOf(toa, res, ids))
    ensures forall r :: r in ResultadosOf(toa, res, ids) ==> r.indicador in [CHAT_TOA, ETIT_GPON, LOG_REPROG]
  {
    var a := ToaResult(toa, ids);
    var b := ResResult(res, ids, RES_ETIT_GPON_INDICADOR_NOME, ETIT_GPON, false);
    var c := ResResult(res, ids, RES_LOG_REPROG_GPON_INDICADOR_NOME, LOG_REPROG, true);
    ToaCarries(toa, ids);
    ResCarries(res, ids, RES_ETIT_GPON_INDICADOR_NOME, ETIT_GPON, false);
    ResCarries(res, ids, RES_LOG_REPROG_GPON_INDICADOR_NOME, LOG_REPROG, true);
    MergeableOf(a, b, c);
  }

  lemma MergeableOf(a: Option<IndicadorResult>, b: Option<IndicadorResult>, c: Option<IndicadorResult>)
    requires Carries(a, CHAT_TOA) && Carries(b, ETIT_GPON) && Carries(c, LOG_REPROG)
    ensures Mergeable(OptList(a) + (OptList(b) + OptList(c)))
    ensures forall r :: r in OptList(a) + (OptList(b) + OptList(c)) ==> r.indicador in [CHAT_TOA, ETIT_GPON, LOG_REPROG]
  {
    var rs := OptList(a) + (OptList(b) + OptList(c));
    assert forall k :: 0 <= k < |rs| ==>
      (a.Some? && rs[k] == a.value) || (b.Some? && rs[k] == b.value) || (c.Some? && rs[k] == c.value);
    forall k, l | 0 <= k < l < |rs| ensures rs[k].indicador != rs[l].indicador {
      assert k < |OptList(a)| || (|OptList(a)| <= k < |OptList(a) + OptList(b)|);
    }
  }

  /** The name of an indicator's status column. */
  function StatusName(ind: string): (s: string)
    ensures |s| == |ind| + 9 && s[..|ind|] == ind
  {
    ind + " - Status"
  }

  /** Distinct indicators have distinct status columns. */
  lemma StatusNameDistinct(a: string, b: string)
    ensures StatusName(a) == StatusName(b) <==> a == b
  {
    assert StatusName(a)[..|a|] == a && StatusName(b)[..|b|] == b;
  }

  /** The status a line gets for goal `m`, from the line's value of the goal's indicator. */
  function StatusOf(r: Row, m: (string, Meta)): Cell
  {
    Text(StatusPorMeta(CellValue(At(r, m.0)), m.1.meta, m.1.direcao))
  }

  function StatusCell(m: (string, Meta)): Row -> Cell
  {
    (r: Row) => StatusOf(r, m)
  }

  /** The table after the status loop has run over the first goals. */
  function StatusColumns(f: Frame, metas: seq<(string, Meta)>): Frame
  {
    if metas == [] then f
    else
      var g := StatusColumns(f, metas[..|metas| - 1]);
      var m := metas[|metas| - 1];
      if m.0 in g.columns then SetColumn(g, StatusName(m.0), StatusCell(m)) else g
  }

  /** The status loop: for each goal, in goal order, whose indicator is a column, a status column is set. */
  method AddStatusColumns(f: Frame, metas: seq<(string, Meta)>) returns (g: Frame)
    ensures g == StatusColumns(f, metas)
  {
    g := f;
    var i := 0;
    while i < |metas|
      invariant 0 <= i <= |metas|
      invariant g == StatusColumns(f, metas[..i])
    {
      assert metas[..i + 1][..i] == metas[..i];
      var m := metas[i];
      if m.0 in g.columns {
        g := SetColumn(g, StatusName(m.0), StatusCell(m));
      }
      i := i + 1;
    }
    assert metas[..i] == metas;
  }

  /** The status columns the loop adds for the goals whose indicator is among `cols`, in goal order. */
  function StatusNames(metas: seq<(string, Meta)>, cols: seq<string>): (r: seq<string>)
    ensures forall m :: m in metas && m.0 in cols ==> StatusName(m.0) in r
    ensures forall x :: x in r ==> exists m :: m in metas && m.0 in cols && x == StatusName(m.0)
  {
    if metas == [] then []
    else
      var pre := metas[..|metas| - 1];
      var m := metas[|metas| - 1];
      assert forall n :: n in metas ==> n in pre || n == m;
      StatusNames(pre, cols) + (if m.0 in cols then [StatusName(m.0)] else [])
  }

  /**
   * What the status loop may assume: the goals are distinct, no status name
   * is itself a goal, and no status column exists yet.
   */
  predicate StatusFree(f: Frame, metas: seq<(string, Meta)>)
  {
    (forall k, l :: 0 <= k < l < |metas| ==> metas[k].0 != metas[l].0) &&
    (forall m, n :: m in metas && n in metas ==> StatusName(m.0) != n.0) &&
    (forall m :: m in metas ==> StatusName(m.0) !in f.columns)
  }

  /** A line after the status loop: the old cells of `cols` kept, one status per present goal. */
  predicate StatusRow(r: Row, r0: Row, cols: seq<string>, metas: seq<(string, Meta)>)
  {
    (forall c :: c in cols ==> At(r, c) == At(r0, c)) &&
    (forall m :: m in metas && m.0 in cols ==> At(r, StatusName(m.0)) == StatusOf(r0, m))
  }

  /** One status column keeps the old cells and earlier statuses. */
  lemma StatusStep(r: Row, r0: Row, cols: seq<string>, pre: seq<(string, Meta)>, m: (string, Meta))
    requires StatusRow(r, r0, cols, pre) && m.0 in cols && StatusName(m.0) !in cols
    requires forall n :: n in pre ==> n.0 != m.0
    ensures StatusRow(r[StatusName(m.0) := StatusOf(r, m)], r0, cols, pre + [m])
  {
    var r1 := r[StatusName(m.0) := StatusOf(r, m)];
    forall n | n in pre + [m] && n.0 in cols
      ensures At(r1, StatusName(n.0)) == StatusOf(r0, n)
    {
      if n != m {
        assert n in pre;
        StatusNameDistinct(n.0, m.0);
      }
    }
  }

  /**
   * The status loop appends one status column per goal whose indicator is in
   * the table, keeps every old cell, and fills each status from the line's value.
   */
  lemma {:induction false} StatusColumnsSpec(f: Frame, metas: seq<(string, Meta)>)
    requires StatusFree(f, metas)
    ensures StatusColumns(f, metas).columns == f.columns + StatusNames(metas, f.columns)
    ensures |StatusColumns(f, metas).rows| == |f.rows|
    ensures forall i :: 0 <= i < |f.rows| ==> StatusRow(StatusColumns(f, metas).rows[i], f.rows[i], f.columns, metas)
  {
    if metas != [] {
      var pre := metas[..|metas| - 1];
      var m := metas[|metas| - 1];
      StatusFreePrefix(f, metas);
      StatusColumnsSpec(f, pre);
      var g := StatusColumns(f, pre);
      assert m.0 in g.columns <==> m.0 in f.columns;
      if m.0 in f.columns {
        assert StatusName(m.0) !in StatusNames(pre, f.columns);
        forall i | 0 <= i < |f.rows|
          ensures StatusRow(StatusColumns(f, metas).rows[i], f.rows[i], f.columns, metas)
        {
          StatusStep(g.rows[i], f.rows[i], f.columns, pre, m);
        }
      } else {
        forall i | 0 <= i < |f.rows|
          ensures StatusRow(StatusColumns(f, metas).rows[i], f.rows[i], f.columns, metas)
        {
          assert forall n :: n in metas ==> n in pre || n == m;
        }
      }
    }
  }

  /** The goals but the last keep the loop's assumptions, and the last goal is new. */
  lemma StatusFreePrefix(f: Frame, metas: seq<(string, Meta)>)
    requires StatusFree(f, metas) && metas != []
    ensures var pre := metas[..|metas| - 1];
      var m := metas[|metas| - 1];
      StatusFree(f, pre) && metas == pre + [m] && m in metas &&
      StatusName(m.0) !in f.columns &&
      (forall n :: n in pre ==> n.0 != m.0 && StatusName(n.0) != StatusName(m.0)) &&
      (forall n :: n in metas ==> StatusName(n.0) != m.0)
  {
    var pre := metas[..|metas| - 1];
    var m := metas[|metas| - 1];
    assert metas == pre + [m];
    forall k, l | 0 <= k < l < |pre| ensures pre[k].0 != pre[l].0 {
      assert pre[k] == metas[k] && pre[l] == metas[l];
    }
    forall n | n in pre ensures n.0 != m.0 && StatusName(n.0) != StatusName(m.0) {
      var k :| 0 <= k < |pre| && pre[k] == n;
      assert pre[k] == metas[k];
      StatusNameDistinct(n.0, m.0);
    }
  }

  // ---------------------------------------------------------------------
  // Alerts
  // ---------------------------------------------------------------------

  /** The alert columns after the collecting loop has run over the first goals. */
  function AlertColsOf(metas: seq<(string, Meta)>, cols: seq<string>): seq<string>
  {
    if metas == [] then []
    else
      var m := metas[|metas| - 1];
      AlertColsOf(metas[..|metas| - 1], cols) + (if StatusName(m.0) in cols then [StatusName(m.0)] else [])
  }

  /** `alert_cols`: the status columns of the goals, in goal order, that the table has. */
  method AlertColumns(metas: seq<(string, Meta)>, cols: seq<string>) returns (alertCols: seq<string>)
    ensures alertCols == AlertColsOf(metas, cols)
  {
    alertCols := [];
    var i := 0;
    while i < |metas|
      invariant 0 <= i <= |metas|
      invariant alertCols == AlertColsOf(metas[..i], cols)
    {
      assert metas[..i + 1][..i] == metas[..i];
      var statusCol := StatusName(metas[i].0);
      if statusCol in cols {
        alertCols := alertCols + [statusCol];
      }
      i := i + 1;
    }
    assert metas[..i] == metas;
  }

  /** The alert columns are the status columns of the goals whose status column exists exactly when the indicator does. */
  lemma {:induction false} AlertColsMatch(metas: seq<(string, Meta)>, cols: seq<string>, statusCols: seq<string>)
    requires forall m :: m in metas ==> (StatusName(m.0) in statusCols <==> m.0 in cols)
    ensures AlertColsOf(metas, statusCols) == StatusNames(metas, cols)
  {
    if metas != [] {
      var pre := metas[..|metas| - 1];
      assert forall m :: m in pre ==> m in metas;
      assert metas[|metas| - 1] in metas;
      AlertColsMatch(pre, cols, statusCols);
    }
  }

  /** After the status loop, the alert columns are exactly the status columns it added. */
  lemma AlertColsAreStatus(f: Frame, metas: seq<(string, Meta)>)
    requires StatusFree(f, metas)
    ensures AlertColsOf(metas, StatusColumns(f, metas).columns) == StatusNames(metas, f.columns)
  {
    StatusColumnsSpec(f, metas);
    var names := StatusNames(metas, f.columns);
    forall m | m in metas
      ensures StatusName(m.0) in f.columns + names <==> m.0 in f.columns
    {
      forall n | n in metas && n.0 in f.columns && StatusName(m.0) == StatusName(n.0)
        ensures m.0 in f.columns
      {
        StatusNameDistinct(m.0, n.0);
      }
    }
    AlertColsMatch(metas, f.columns, f.columns + names);
  }

  /** Whether any of the given cells of a line is the "missed" status. */
  function AnyFora(r: Row, cols: seq<string>): bool
  {
    cols != [] && (At(r, cols[0]) == Text(FORA) || AnyFora(r, cols[1..]))
  }

  lemma {:induction false} AnyForaIff(r: Row, cols: seq<string>)
    ensures AnyFora(r, cols) <==> exists c :: c in cols && At(r, c) == Text(FORA)
  {
    if cols != [] {
      AnyForaIff(r, cols[1..]);
      assert forall c :: c in cols <==> c == cols[0] || c in cols[1..];
    }
  }

  function ForaIn(cols: seq<string>): Row -> bool
  {
    (r: Row) => AnyFora(r, cols)
  }

  predicate EndsWithStatus(c: string)
  {
    |c| >= 6 && c[|c| - 6..] == "Status"
  }

  /** `df[cols]` for columns the table has: every listed cell, NaN where a line has none. */
  function Project(cols: seq<string>): Row -> Row
  {
    (r: Row) => map c | c in cols :: At(r, c)
  }

  /**
   * The alert panel: nothing (the information message) without alert columns,
   * otherwise the lines with a status out of goal, showing the roster fields
   * and every status column.
   */
  function Alertas(f: Frame, alertCols: seq<string>): (a: Option<Frame>)
    ensures a.None? <==> alertCols == []
    ensures a.Some? ==> a.value.columns == [MATRICULA, NOME, SETOR] + Filter(f.columns, EndsWithStatus)
    ensures a.Some? ==> |a.value.rows| <= |f.rows|
  {
    if alertCols == [] then None
    else
      var cols := [MATRICULA, NOME, SETOR] + Filter(f.columns, EndsWithStatus);
      Some(Frame(cols, MapSeq(Filter(f.rows, ForaIn(alertCols)), Project(cols))))
  }

  /** A line appears among the alerts exactly when one of its alert columns says out of goal. */
  lemma AlertasMember(f: Frame, alertCols: seq<string>, r: Row)
    requires alertCols != [] && r in f.rows
    ensures var cols := [MATRICULA, NOME, SETOR] + Filter(f.columns, EndsWithStatus);
      (exists c :: c in alertCols && At(r, c) == Text(FORA)) ==>
        Project(cols)(r) in Alertas(f, alertCols).value.rows
  {
    AnyForaIff(r, alertCols);
    var cols := [MATRICULA, NOME, SETOR] + Filter(f.columns, EndsWithStatus);
    var kept := Filter(f.rows, ForaIn(alertCols));
    if AnyFora(r, alertCols) {
      assert r in kept;
      var i :| 0 <= i < |kept| && kept[i] == r;
      assert MapSeq(kept, Project(cols))[i] == Project(cols)(r);
    }
  }

  /** Every line shown among the alerts comes from a line with a status out of goal. */
  lemma AlertasSound(f: Frame, alertCols: seq<string>, i: int)
    requires alertCols != [] && 0 <= i < |Alertas(f, alertCols).value.rows|
    ensures exists r :: (r in f.rows && (exists c :: c in alertCols && At(r, c) == Text(FORA)) &&
      Alertas(f, alertCols).value.rows[i] == Project([MATRICULA, NOME, SETOR] + Filter(f.columns, EndsWithStatus))(r))
  {
    var cols := [MATRICULA, NOME, SETOR] + Filter(f.columns, EndsWithStatus);
    var kept := Filter(f.rows, ForaIn(alertCols));
    var r := kept[i];
    assert r in kept;
    AnyForaIff(r, alertCols);
  }

  // ---------------------------------------------------------------------
  // Ranking
  // ---------------------------------------------------------------------

  /** The goal of an indicator, when there is one (the first, should it be listed twice). */
  function MetaOf(metas: seq<(string, Meta)>, ind: string): (m: Option<Meta>)
    ensures m.Some? <==> exists n :: n in metas && n.0 == ind
    ensures m.Some? ==> (ind, m.value) in metas
  {
    if metas == [] then None
    else if metas[0].0 == ind then Some(metas[0].1)
    else
      var m := MetaOf(metas[1..], ind);
      assert forall n :: n in metas ==> n == metas[0] || n in metas[1..];
      m
  }

  /** The select box's choices: the table's columns that are goals, in column order. */
  function RankingChoices(f: Frame, metas: seq<(string, Meta)>): (r: seq<string>)
    ensures forall c :: c in r <==> c in f.columns && MetaOf(metas, c).Some?
  {
    Filter(f.columns, (c: string) => MetaOf(metas, c).Some?)
  }

  /** The sort key of a line: its value of the indicator, NaN placed last. */
  function CellKey(col: string): Row -> Key
  {
    (r: Row) => if At(r, col).Num? then Val(At(r, col).n) else Missing
  }

  /**
   * The ranking of one indicator: the roster fields, the value and its status,
   * sorted by the value, ascending for "down" goals and descending otherwise.
   */
  function Ranking(f: Frame, ind: string, metas: seq<(string, Meta)>): (g: Frame)
    requires ind in RankingChoices(f, metas)
    ensures g.columns == [MATRICULA, NOME, SETOR, ind, StatusName(ind)]
    ensures multiset(g.rows) == multiset(MapSeq(f.rows, Project(g.columns)))
    ensures SortedBy(g.rows, CellKey(ind), MetaOf(metas, ind).value.direcao == "down")
  {
    var cols := [MATRICULA, NOME, SETOR, ind, StatusName(ind)];
    Frame(cols, SortByKey(MapSeq(f.rows, Project(cols)), CellKey(ind), MetaOf(metas, ind).value.direcao == "down"))
  }

  /** The best value comes first: the higher one for "up" goals, the lower one otherwise; NaN comes last. */
  lemma RankingBestFirst(f: Frame, ind: string, metas: seq<(string, Meta)>, i: int, j: int)
    requires ind in RankingChoices(f, metas)
    requires 0 <= i < j < |Ranking(f, ind, metas).rows|
    ensures var g := Ranking(f, ind, metas).rows;
      var up := MetaOf(metas, ind).value.direcao != "down";
      (At(g[i], ind).Num? && At(g[j], ind).Num? ==>
        (if up then At(g[i], ind).n >= At(g[j], ind).n else At(g[i], ind).n <= At(g[j], ind).n)) &&
      (At(g[i], ind).Num? || !At(g[j], ind).Num?)
  {
    var g := Ranking(f, ind, metas).rows;
    assert KeyLe(CellKey(ind)(g[i]), CellKey(ind)(g[j]), MetaOf(metas, ind).value.direcao == "down");
  }

  // ---------------------------------------------------------------------
  // The button: parse, merge, status, alerts
  // ---------------------------------------------------------------------

  /** The final per-analyst table for the uploaded sheets. */
  function Tabela(base: seq<Employee>, toa: Option<Frame>, res: Option<Frame>): Frame
  {
    StatusColumns(WideOf(base, ResultadosOf(toa, res, TeamIds(base))), METAS)
  }

  /** The Chat TOA result, when a TOA sheet is given and its parser finds something. */
  method ToaResults(toa: Option<Frame>, ids: set<string>) returns (rs: seq<IndicadorResult>)
    ensures rs == OptList(ToaResult(toa, ids))
  {
    rs := [];
    if toa.Some? {
      var r := ParseChatToa(toa.value, ids);
      if r.Some? {
        rs := [r.value];
      }
    }
  }

  /** The two residential parsers on the residential sheet, when there is one. */
  method ResResults(res: Option<Frame>, ids: set<string>) returns (rs: seq<IndicadorResult>)
    ensures rs == OptList(ResResult(res, ids, RES_ETIT_GPON_INDICADOR_NOME, ETIT_GPON, false)) +
      OptList(ResResult(res, ids, RES_LOG_REPROG_GPON_INDICADOR_NOME, LOG_REPROG, true))
  {
    rs := [];
    if res.Some? {
      var r1 := ParseEtitGpon(res.value, ids);
      rs := OptList(r1);
      var r2 := ParseLogReprog(res.value, ids);
      if r2.Some? {
        rs := rs + [r2.value];
      }
    }
  }

  /** "Processar Dados": runs the parsers on the uploaded sheets, builds the table and collects the alert columns. */
  method ProcessarDados(base: seq<Employee>, toa: Option<Frame>, res: Option<Frame>)
    returns (tabela: Frame, alertCols: seq<string>)
    ensures tabela == Tabela(base, toa, res)
    ensures alertCols == AlertColsOf(METAS, tabela.columns)
  {
    var ids := TeamIds(base);
    var toaRs := ToaResults(toa, ids);
    var resRs := ResResults(res, ids);
    var resultados := toaRs + resRs;
    assert resultados == ResultadosOf(toa, res, ids);
    var wide := BuildWide(base, resultados);
    tabela := AddStatusColumns(wide, METAS);
    alertCols := AlertColumns(METAS, tabela.columns);
  }

  /** The name does not end in 's', as every status name does. */
  predicate NotStatusLike(c: string)
  {
    |c| > 0 && c[|c| - 1] != 's'
  }

  /** Every status name ends with "Status", and so in 's'. */
  lemma StatusNameEnd(ind: string)
    ensures EndsWithStatus(StatusName(ind))
    ensures !NotStatusLike(StatusName(ind))
  {
    assert StatusName(ind)[|StatusName(ind)| - 6..] == "Status";
    assert StatusName(ind)[|StatusName(ind)| - 1] == 's';
  }

  /** The goals are distinct: they differ in length or in their last character. */
  lemma MetasDistinct()
    ensures forall k, l :: 0 <= k < l < |METAS| ==> METAS[k].0 != METAS[l].0
  {
    var sig := [(14, 'o'), (8, 'A'), (19, 'L'), (19, 'C'), (28, ')'), (23, 'N')];
    forall k | 0 <= k < |METAS| ensures |METAS[k].0| == sig[k].0 && METAS[k].0[|METAS[k].0| - 1] == sig[k].1 {
    }
    forall k, l | 0 <= k < l < |METAS| ensures METAS[k].0 != METAS[l].0 {
      assert sig[k] != sig[l];
    }
  }

  lemma MetasNotStatusLike()
    ensures forall m :: m in METAS ==> NotStatusLike(m.0)
  {
  }

  /** The goals' status names clash with none of the table's own columns. */
  lemma MetasStatusFree(f: Frame)
    requires forall c :: c in f.columns ==> c in [MATRICULA, NOME, SETOR, CHAT_TOA, ETIT_GPON, LOG_REPROG]
    ensures StatusFree(f, METAS)
  {
    MetasDistinct();
    MetasNotStatusLike();
    assert forall c :: c in [MATRICULA, NOME, SETOR, CHAT_TOA, ETIT_GPON, LOG_REPROG] ==> NotStatusLike(c);
    forall m | m in METAS ensures !NotStatusLike(StatusName(m.0)) {
      StatusNameEnd(m.0);
    }
  }

  /**
   * The final table: the roster in order with its fields, each parsed
   * indicator's pct, one status column per goal whose indicator was parsed,
   * and the alert columns are exactly those status columns.
   */
  lemma TabelaSpec(base: seq<Employee>, toa: Option<Frame>, res: Option<Frame>)
    ensures var rs := ResultadosOf(toa, res, TeamIds(base));
      var w := WideOf(base, rs);
      var t := Tabela(base, toa, res);
      StatusFree(w, METAS) &&
      w.columns == [MATRICULA, NOME, SETOR] + Indicadores(rs) &&
      t.columns == w.columns + StatusNames(METAS, w.columns) &&
      |w.rows| == |base| && |t.rows| == |base| &&
      AlertColsOf(METAS, t.columns) == StatusNames(METAS, w.columns) &&
      forall i :: 0 <= i < |base| ==>
        RowOf(w.rows[i], base[i], rs) && StatusRow(t.rows[i], w.rows[i], w.columns, METAS)
  {
    var rs := ResultadosOf(toa, res, TeamIds(base));
    var w := WideOf(base, rs);
    ResultadosMergeable(toa, res, TeamIds(base));
    WideTable(base, rs);
    forall c | c in w.columns ensures c in [MATRICULA, NOME, SETOR, CHAT_TOA, ETIT_GPON, LOG_REPROG] {
      if c !in [MATRICULA, NOME, SETOR] {
        var k :| 0 <= k < |rs| && Indicadores(rs)[k] == c;
        assert rs[k] in rs;
      }
    }
    MetasStatusFree(w);
    StatusColumnsSpec(w, METAS);
    AlertColsAreStatus(w, METAS);
  }

  /**
   * A line is among the alerts exactly when some goal present in the table
   * has an out-of-goal status for it, that is, the line's value misses that goal.
   */
  lemma AlertaIff(f: Frame, metas: seq<(string, Meta)>, i: int)
    requires StatusFree(f, metas) && 0 <= i < |f.rows| && i < |StatusColumns(f, metas).rows|
    ensures var t := StatusColumns(f, metas);
      AnyFora(t.rows[i], AlertColsOf(metas, t.columns)) <==>
        exists m :: m in metas && m.0 in f.columns && StatusOf(f.rows[i], m) == Text(FORA)
  {
    StatusColumnsSpec(f, metas);
    AlertColsAreStatus(f, metas);
    var t := StatusColumns(f, metas);
    var ac := AlertColsOf(metas, t.columns);
    AnyForaIff(t.rows[i], ac);
    if AnyFora(t.rows[i], ac) {
      var c :| c in ac && At(t.rows[i], c) == Text(FORA);
      var m :| m in metas && m.0 in f.columns && c == StatusName(m.0);
      assert StatusOf(f.rows[i], m) == Text(FORA);
    }
    if exists m :: m in metas && m.0 in f.columns && StatusOf(f.rows[i], m) == Text(FORA) {
      var m :| m in metas && m.0 in f.columns && StatusOf(f.rows[i], m) == Text(FORA);
      assert StatusName(m.0) in ac;
    }
  }

  /** Out of goal means a value that misses the goal: below an "up" goal, above any other. */
  lemma ForaMeansMissed(r: Row, m: (string, Meta))
    ensures StatusOf(r, m) == Text(FORA) <==>
      At(r, m.0).Num? && (if m.1.direcao == "up" then At(r, m.0).n < m.1.meta else At(r, m.0).n > m.1.meta)
  {
  }
}
