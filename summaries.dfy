/**
 * The summaries of the processors module: toa_resumo_por_indicador,
 * resumo_geral / resumo_mensal, composicao_volume and primeiro_nome.
 */
module Summaries {
  import opened Wrappers
  import opened Text
  import opened Seqs
  import opened Frames
  import opened Filters
  import opened Groups

  // ---------------------------------------------------------------------
  // toa_resumo_por_indicador
  // ---------------------------------------------------------------------

  /** One row of the TOA summary. */
  datatype IndicadorResumo = IndicadorResumo(indicador: string, total: nat, aderentes: int, pct: real)

  /** The rows of indicator `ind`. */
  function RowsOf(rows: seq<Row>, nomeCol: string, ind: string): seq<Row>
  {
    Filter(rows, CellIs(nomeCol, Text(ind)))
  }

  /**
   * The summary of one indicator: its row count, the integer part of the
   * ADERENTE sum, and the percentage of the two (0 when there are no rows).
   */
  function ResumoOf(rows: seq<Row>, nomeCol: string, ind: string): IndicadorResumo
  {
    var sub := RowsOf(rows, nomeCol, ind);
    var ader := Trunc(Sum(sub, ValueOf("ADERENTE")));
    IndicadorResumo(ind, |sub|, ader, Pct(ader as real, |sub| as real).GetOr(0.0))
  }

  /** The summary table: one entry per configured indicator that has rows, in configured order. */
  function ResumoTable(rows: seq<Row>, nomeCol: string, filtro: seq<string>): seq<IndicadorResumo>
  {
    if filtro == [] then []
    else
      (if RowsOf(rows, nomeCol, filtro[0]) != [] then [ResumoOf(rows, nomeCol, filtro[0])] else [])
      + ResumoTable(rows, nomeCol, filtro[1..])
  }

  function HasRows(rows: seq<Row>, nomeCol: string): string -> bool
  {
    (ind: string) => RowsOf(rows, nomeCol, ind) != []
  }

  function IndicadorName(): IndicadorResumo -> string
  {
    (t: IndicadorResumo) => t.indicador
  }

  /**
   * toa_resumo_por_indicador: an empty frame gives an empty summary; a
   * missing indicator-name column, read on the first pass of the indicator
   * loop, or a missing ADERENTE column once some indicator has rows, is the
   * KeyError the source raises.
   */
  method ToaResumoPorIndicador(f: Frame, nomeCol: string, filtro: seq<string>)
    returns (r: Result<seq<IndicadorResumo>>)
    ensures IsEmpty(f) ==> r == Ok([])
    ensures r.Err? <==>
      !IsEmpty(f) &&
      ((nomeCol !in f.columns && filtro != []) ||
       ("ADERENTE" !in f.columns && exists ind :: ind in filtro && RowsOf(f.rows, nomeCol, ind) != []))
    ensures r.Ok? && !IsEmpty(f) ==> r.value == ResumoTable(f.rows, nomeCol, filtro)
  {
    if IsEmpty(f) {
      return Ok([]);
    }
    if nomeCol !in f.columns {
      // the first pass of the loop reads the missing column
      if filtro == [] {
        return Ok([]);
      }
      return Err("KeyError: " + nomeCol);
    }
    var out: seq<IndicadorResumo> := [];
    var i := 0;
    while i < |filtro|
      invariant 0 <= i <= |filtro|
      invariant out + ResumoTable(f.rows, nomeCol, filtro[i..]) == ResumoTable(f.rows, nomeCol, filtro)
      invariant "ADERENTE" !in f.columns ==> forall j :: 0 <= j < i ==> RowsOf(f.rows, nomeCol, filtro[j]) == []
    {
      ResumoTableStep(f.rows, nomeCol, filtro, i);
      ghost var rest := ResumoTable(f.rows, nomeCol, filtro[i + 1..]);
      var sub := Where(f, CellIs(nomeCol, Text(filtro[i])));
      assert sub.rows == RowsOf(f.rows, nomeCol, filtro[i]);
      if sub.rows != [] {
        if "ADERENTE" !in f.columns {
          return Err("KeyError: ADERENTE");
        }
        var total := |sub.rows|;
        var ader := Trunc(Sum(sub.rows, ValueOf("ADERENTE")));
        var pct := if total > 0 then ader as real / total as real * 100.0 else 0.0;
        ghost var t := ResumoOf(f.rows, nomeCol, filtro[i]);
        assert IndicadorResumo(filtro[i], total, ader, pct) == t;
        assert (out + [t]) + rest == out + ([t] + rest);
        out := out + [IndicadorResumo(filtro[i], total, ader, pct)];
      } else {
        assert [] + rest == rest;
      }
      i := i + 1;
    }
    assert filtro[i..] == [];
    if "ADERENTE" !in f.columns {
      forall ind | ind in filtro ensures RowsOf(f.rows, nomeCol, ind) == [] {
        var j :| 0 <= j < |filtro| && filtro[j] == ind;
      }
    }
    return Ok(out);
  }

  /** One step of the summary loop. */
  lemma ResumoTableStep(rows: seq<Row>, nomeCol: string, filtro: seq<string>, i: int)
    requires 0 <= i < |filtro|
    ensures ResumoTable(rows, nomeCol, filtro[i..]) ==
      (if RowsOf(rows, nomeCol, filtro[i]) != [] then [ResumoOf(rows, nomeCol, filtro[i])] else [])
      + ResumoTable(rows, nomeCol, filtro[i + 1..])
  {
    assert filtro[i..][1..] == filtro[i + 1..];
  }

  /** The summary names exactly the configured indicators that have rows, in configured order. */
  lemma {:induction false} ResumoIndicators(rows: seq<Row>, nomeCol: string, filtro: seq<string>)
    ensures MapSeq(ResumoTable(rows, nomeCol, filtro), IndicadorName()) == Filter(filtro, HasRows(rows, nomeCol))
  {
    if filtro != [] {
      ResumoIndicators(rows, nomeCol, filtro[1..]);
      var head := if RowsOf(rows, nomeCol, filtro[0]) != [] then [ResumoOf(rows, nomeCol, filtro[0])] else [];
      var rest := ResumoTable(rows, nomeCol, filtro[1..]);
      assert MapSeq(head + rest, IndicadorName()) == MapSeq(head, IndicadorName()) + MapSeq(rest, IndicadorName());
    }
  }

  /** With distinct configured indicators, each indicator is summarised at most once. */
  lemma ResumoOncePerIndicator(rows: seq<Row>, nomeCol: string, filtro: seq<string>)
    requires NoDup(filtro)
    ensures NoDup(MapSeq(ResumoTable(rows, nomeCol, filtro), IndicadorName()))
  {
    ResumoIndicators(rows, nomeCol, filtro);
    FilterNoDup(filtro, HasRows(rows, nomeCol));
  }

  /** Every entry is the summary of its own indicator, which has at least one row. */
  lemma {:induction false} ResumoEntries(rows: seq<Row>, nomeCol: string, filtro: seq<string>, t: IndicadorResumo)
    requires t in ResumoTable(rows, nomeCol, filtro)
    ensures t.indicador in filtro && t == ResumoOf(rows, nomeCol, t.indicador) && t.total >= 1
  {
    if filtro != [] && t in ResumoTable(rows, nomeCol, filtro[1..]) {
      ResumoEntries(rows, nomeCol, filtro[1..], t);
    }
  }

  /**
   * When every ADERENTE cell is 0 or 1 (as the loader produces them), the
   * compliant count lies between 0 and the total and the percentage in
   * [0, 100]; with no rows the percentage is 0.
   */
  lemma ResumoBounds(rows: seq<Row>, nomeCol: string, ind: string)
    requires forall r :: r in rows ==> At(r, "ADERENTE") == Num(0.0) || At(r, "ADERENTE") == Num(1.0)
    ensures var t := ResumoOf(rows, nomeCol, ind);
      0 <= t.aderentes <= t.total && 0.0 <= t.pct <= 100.0 && (t.total == 0 ==> t.pct == 0.0)
  {
    var sub := RowsOf(rows, nomeCol, ind);
    forall i | 0 <= i < |sub| ensures 0.0 <= ValueOf("ADERENTE")(sub[i]) <= 1.0 {
      assert sub[i] in sub;
    }
    SumBounds(sub, ValueOf("ADERENTE"), 0.0, 1.0);
  }

  // ---------------------------------------------------------------------
  // primeiro_nome
  // ---------------------------------------------------------------------

  /** A name of up to two words is kept as given; a longer one becomes its first and last word. */
  function PrimeiroNome(nome: string): string
  {
    var parts := Words(Trim(nome));
    if |parts| <= 2 then nome else parts[0] + " " + parts[|parts| - 1]
  }

  /** The short name of a long name is its first and last word. */
  lemma PrimeiroNomeWords(nome: string)
    requires |Words(Trim(nome))| > 2
    ensures var parts := Words(Trim(nome));
      Words(PrimeiroNome(nome)) == [parts[0], parts[|parts| - 1]]
  {
    var parts := Words(Trim(nome));
    WordsOfTwo(parts[0], parts[|parts| - 1]);
  }

  /** A name made of two words is its own short name. */
  lemma ShortNameOfTwoWords(a: string, b: string)
    requires a != [] && NoSpace(a) && b != [] && NoSpace(b)
    ensures PrimeiroNome(a + " " + b) == a + " " + b
  {
    var s := a + " " + b;
    assert s[0] == a[0];
    assert s[|s| - 1] == b[|b| - 1];
    TrimOfTrimmed(s);
    WordsOfTwo(a, b);
  }

  /** Shortening a name twice changes nothing more. */
  lemma PrimeiroNomeIdempotent(nome: string)
    ensures PrimeiroNome(PrimeiroNome(nome)) == PrimeiroNome(nome)
  {
    var parts := Words(Trim(nome));
    var short := PrimeiroNome(nome);
    if |parts| <= 2 {
      assert short == nome;
    } else {
      var a, b := parts[0], parts[|parts| - 1];
      assert short == a + " " + b;
      ShortNameOfTwoWords(a, b);
      assert PrimeiroNome(short) == short;
    }
  }

  // ---------------------------------------------------------------------
  // resumo_geral / resumo_mensal
  // ---------------------------------------------------------------------

  /** The group key of a row: its cells in the group columns. */
  function KeyCells(r: Row, cols: seq<string>): (k: seq<Cell>)
    ensures |k| == |cols| && forall i :: 0 <= i < |cols| ==> k[i] == At(r, cols[i])
  {
    if cols == [] then [] else [At(r, cols[0])] + KeyCells(r, cols[1..])
  }

  function KeyOfRow(cols: seq<string>): Row -> seq<Cell>
  {
    (r: Row) => KeyCells(r, cols)
  }

  /** pandas drops the rows with a missing group key. */
  function HasFullKey(cols: seq<string>): Row -> bool
  {
    (r: Row) => Empty !in KeyCells(r, cols)
  }

  function InGroup(cols: seq<string>, k: seq<Cell>): Row -> bool
  {
    (r: Row) => KeyCells(r, cols) == k
  }

  /** The distinct complete keys, in order of first appearance. */
  function GroupKeysOf(rows: seq<Row>, cols: seq<string>): (ks: seq<seq<Cell>>)
    ensures NoDup(ks)
    ensures forall k :: k in ks ==> Empty !in k && exists r :: r in rows && KeyCells(r, cols) == k
    ensures forall r :: r in rows && Empty !in KeyCells(r, cols) ==> KeyCells(r, cols) in ks
  {
    var full := Filter(rows, HasFullKey(cols));
    var m := MapSeq(full, KeyOfRow(cols));
    forall k | k in m ensures Empty !in k && exists r :: r in rows && KeyCells(r, cols) == k {
      var j :| 0 <= j < |m| && m[j] == k;
      assert full[j] in full;
    }
    forall r | r in rows && Empty !in KeyCells(r, cols) ensures KeyCells(r, cols) in m {
      var j :| 0 <= j < |full| && full[j] == r;
      assert m[j] == KeyCells(r, cols);
    }
    Dedup(m)
  }

  /** One row of resumo_geral / resumo_mensal. */
  datatype Resumo = Resumo(key: seq<Cell>, dias: nat, volume: real, volumes: seq<real>,
                           media: Option<real>, dpaMedia: Option<real>)

  /** An occupancy value that counts towards the mean: a number in [0, 120]. */
  function DpaIn(col: string): Row -> bool
  {
    (r: Row) => At(r, col).Num? && 0.0 <= At(r, col).n <= 120.0
  }

  /** The mean of a column over some rows; NaN (None) over no rows. */
  function Mean(rows: seq<Row>, col: string): Option<real>
  {
    if rows == [] then None else Some(Sum(rows, ValueOf(col)) / |rows| as real)
  }

  function ColumnSum(rows: seq<Row>): string -> real
  {
    (c: string) => Sum(rows, ValueOf(c))
  }

  /**
   * The aggregates of one group: the count of its non-missing dates, the sum
   * of the total volume and of each activity column, the daily mean, and
   * the occupancy mean over the values in [0, 120].
   */
  function GroupResumo(k: seq<Cell>, sub: seq<Row>, dataCol: string, volCol: string,
                       sums: seq<string>, dpaCol: string): Resumo
  {
    var dias := Count(sub, HasKey(dataCol));
    var vol := Sum(sub, ValueOf(volCol));
    Resumo(k, dias, vol, MapSeq(sums, ColumnSum(sub)),
           if dias == 0 then None else Some(vol / dias as real),
           Mean(Filter(sub, DpaIn(dpaCol)), dpaCol))
  }

  function GroupResumoAt(rows: seq<Row>, cols: seq<string>, dataCol: string, volCol: string,
                         sums: seq<string>, dpaCol: string): seq<Cell> -> Resumo
  {
    (k: seq<Cell>) => GroupResumo(k, Filter(rows, InGroup(cols, k)), dataCol, volCol, sums, dpaCol)
  }

  function InColumns(f: Frame): string -> bool
  {
    (c: string) => c in f.columns
  }

  /**
   * The summary table: grouped by the group columns the frame has; no
   * group column is pandas' "No group keys passed" error, and a missing
   * date, volume or occupancy column is a KeyError.
   */
  function ResumoFrame(f: Frame, groupCols: seq<string>, dataCol: string, volCol: string,
                       sums: seq<string>, dpaCol: string): Result<seq<Resumo>>
  {
    var cols := Filter(groupCols, InColumns(f));
    if cols == [] then Err("ValueError: No group keys passed!")
    else if dataCol !in f.columns || volCol !in f.columns || dpaCol !in f.columns then Err("KeyError")
    else Ok(MapSeq(GroupKeysOf(f.rows, cols), GroupResumoAt(f.rows, cols, dataCol, volCol, sums, dpaCol)))
  }

  /** The activity columns, in configured order, that the frame has (each gets summed). */
  method PresentColumns(f: Frame, volCols: seq<string>) returns (sums: seq<string>)
    ensures sums == Filter(volCols, InColumns(f))
  {
    sums := [];
    var i := 0;
    while i < |volCols|
      invariant 0 <= i <= |volCols|
      invariant sums == Filter(volCols[..i], InColumns(f))
    {
      FilterSnoc(volCols, i, InColumns(f));
      if volCols[i] in f.columns {
        sums := sums + [volCols[i]];
      }
      i := i + 1;
    }
    assert volCols[..i] == volCols;
  }

  /** resumo_geral: one entry per analyst (login, name, sector). */
  method ResumoGeral(f: Frame, loginCol: string, nomeCol: string, dataCol: string, volCol: string,
                     volCols: seq<string>, dpaCol: string)
    returns (r: Result<seq<Resumo>>)
    ensures r == ResumoFrame(f, [loginCol, nomeCol, "Setor"], dataCol, volCol, Filter(volCols, InColumns(f)), dpaCol)
  {
    var sums := PresentColumns(f, volCols);
    r := ResumoFrame(f, [loginCol, nomeCol, "Setor"], dataCol, volCol, sums, dpaCol);
  }

  /** resumo_mensal: one entry per analyst and month. */
  method ResumoMensal(f: Frame, loginCol: string, nomeCol: string, mesCol: string, anomesCol: string,
                      dataCol: string, volCol: string, volCols: seq<string>, dpaCol: string)
    returns (r: Result<seq<Resumo>>)
    ensures r == ResumoFrame(f, [loginCol, nomeCol, "Setor", mesCol, anomesCol], dataCol, volCol,
                             Filter(volCols, InColumns(f)), dpaCol)
  {
    var sums := PresentColumns(f, volCols);
    r := ResumoFrame(f, [loginCol, nomeCol, "Setor", mesCol, anomesCol], dataCol, volCol, sums, dpaCol);
  }

  /** The table fails exactly when no group column is present or a required column is missing. */
  lemma ResumoErrors(f: Frame, groupCols: seq<string>, dataCol: string, volCol: string, sums: seq<string>, dpaCol: string)
    ensures ResumoFrame(f, groupCols, dataCol, volCol, sums, dpaCol).Err? <==>
      (forall c :: c in groupCols ==> c !in f.columns) ||
      dataCol !in f.columns || volCol !in f.columns || dpaCol !in f.columns
  {
    var cols := Filter(groupCols, InColumns(f));
    if cols != [] {
      assert cols[0] in cols;
    }
  }

  /** The entries are keyed by distinct group keys. */
  lemma ResumoKeysDistinct(f: Frame, groupCols: seq<string>, dataCol: string, volCol: string, sums: seq<string>, dpaCol: string)
    requires ResumoFrame(f, groupCols, dataCol, volCol, sums, dpaCol).Ok?
    ensures var g := ResumoFrame(f, groupCols, dataCol, volCol, sums, dpaCol).value;
      forall i, j :: 0 <= i < j < |g| ==> g[i].key != g[j].key
  {
    var cols := Filter(groupCols, InColumns(f));
    var ks := GroupKeysOf(f.rows, cols);
    var at := GroupResumoAt(f.rows, cols, dataCol, volCol, sums, dpaCol);
    var g := ResumoFrame(f, groupCols, dataCol, volCol, sums, dpaCol).value;
    assert g == MapSeq(ks, at);
    forall i, j | 0 <= i < j < |g| ensures g[i].key != g[j].key {
      assert g[i] == at(ks[i]) && g[j] == at(ks[j]);
    }
  }

  /** Every row with a complete key is summarised under its key. */
  lemma ResumoCoversRows(f: Frame, groupCols: seq<string>, dataCol: string, volCol: string, sums: seq<string>, dpaCol: string)
    requires ResumoFrame(f, groupCols, dataCol, volCol, sums, dpaCol).Ok?
    ensures var g := ResumoFrame(f, groupCols, dataCol, volCol, sums, dpaCol).value;
      var cols := Filter(groupCols, InColumns(f));
      forall r :: r in f.rows && Empty !in KeyCells(r, cols) ==> exists t :: t in g && t.key == KeyCells(r, cols)
  {
    var cols := Filter(groupCols, InColumns(f));
    var ks := GroupKeysOf(f.rows, cols);
    var g := ResumoFrame(f, groupCols, dataCol, volCol, sums, dpaCol).value;
    forall r | r in f.rows && Empty !in KeyCells(r, cols) ensures exists t :: t in g && t.key == KeyCells(r, cols) {
      var j :| 0 <= j < |ks| && ks[j] == KeyCells(r, cols);
      assert g[j] in g && g[j].key == ks[j];
    }
  }

  /** Every entry is the summary of a non-empty group with a complete key. */
  lemma ResumoEntriesOf(f: Frame, groupCols: seq<string>, dataCol: string, volCol: string, sums: seq<string>, dpaCol: string)
    requires ResumoFrame(f, groupCols, dataCol, volCol, sums, dpaCol).Ok?
    ensures var g := ResumoFrame(f, groupCols, dataCol, volCol, sums, dpaCol).value;
      var cols := Filter(groupCols, InColumns(f));
      forall t :: t in g ==>
        Empty !in t.key && Filter(f.rows, InGroup(cols, t.key)) != [] &&
        t == GroupResumo(t.key, Filter(f.rows, InGroup(cols, t.key)), dataCol, volCol, sums, dpaCol)
  {
    var cols := Filter(groupCols, InColumns(f));
    var ks := GroupKeysOf(f.rows, cols);
    var g := ResumoFrame(f, groupCols, dataCol, volCol, sums, dpaCol).value;
    forall t | t in g
      ensures Empty !in t.key && Filter(f.rows, InGroup(cols, t.key)) != [] &&
              t == GroupResumo(t.key, Filter(f.rows, InGroup(cols, t.key)), dataCol, volCol, sums, dpaCol)
    {
      var j :| 0 <= j < |g| && g[j] == t;
      assert ks[j] in ks;
      var w :| w in f.rows && KeyCells(w, cols) == ks[j];
      assert w in Filter(f.rows, InGroup(cols, ks[j]));
    }
  }

  /**
   * Per group: the day count is at most the group's row count, and the
   * daily mean exists exactly when some date is present and then times the
   * day count gives the volume.
   */
  lemma GroupDailyMean(k: seq<Cell>, sub: seq<Row>, dataCol: string, volCol: string, sums: seq<string>, dpaCol: string)
    ensures var t := GroupResumo(k, sub, dataCol, volCol, sums, dpaCol);
      t.dias <= |sub| &&
      (t.media.Some? <==> t.dias > 0) &&
      (t.media.Some? ==> t.media.value * t.dias as real == t.volume)
  {
    var t := GroupResumo(k, sub, dataCol, volCol, sums, dpaCol);
    if t.dias > 0 {
      DivTimes(t.volume, t.dias as real);
    }
  }

  lemma DivTimes(a: real, b: real)
    requires b != 0.0
    ensures a / b * b == a
  {
  }

  /**
   * Per group: the occupancy mean is absent exactly when no value of the
   * group is in [0, 120], and otherwise lies in [0, 120].
   */
  lemma GroupDpaMean(k: seq<Cell>, sub: seq<Row>, dataCol: string, volCol: string, sums: seq<string>, dpaCol: string)
    ensures var t := GroupResumo(k, sub, dataCol, volCol, sums, dpaCol);
      (t.dpaMedia.None? <==> forall r :: r in sub ==> !DpaIn(dpaCol)(r)) &&
      (t.dpaMedia.Some? ==> 0.0 <= t.dpaMedia.value <= 120.0)
  {
    var valid := Filter(sub, DpaIn(dpaCol));
    if valid != [] {
      assert valid[0] in valid;
      forall i | 0 <= i < |valid| ensures 0.0 <= ValueOf(dpaCol)(valid[i]) <= 120.0 {
        assert valid[i] in valid;
      }
      SumBounds(valid, ValueOf(dpaCol), 0.0, 120.0);
      MeanBound(Sum(valid, ValueOf(dpaCol)), |valid| as real, 120.0);
    }
  }

  /** A sum of n values in [0, hi] divided by n lies in [0, hi]. */
  lemma MeanBound(total: real, n: real, hi: real)
    requires n > 0.0 && 0.0 <= total <= n * hi
    ensures 0.0 <= total / n <= hi
  {
    assert total / n * n == total;
  }

  // ---------------------------------------------------------------------
  // composicao_volume
  // ---------------------------------------------------------------------

  /** A Python dict: its keys in insertion order and its key-value mapping. */
  datatype Dict = Dict(keys: seq<string>, vals: map<string, real>)

  /** The keys are distinct and are exactly the keys of the mapping. */
  predicate WellFormed(d: Dict)
  {
    NoDup(d.keys) && d.vals.Keys == set k | k in d.keys
  }

  /** `d[k] = v`: an existing key keeps its place and gets the new value; a new key goes last. */
  function DictSet(d: Dict, k: string, v: real): (d': Dict)
    ensures WellFormed(d) ==> WellFormed(d')
    ensures d'.vals == d.vals[k := v]
    ensures k in d.vals ==> d'.keys == d.keys
    ensures k !in d.vals ==> d'.keys == d.keys + [k]
  {
    Dict(if k in d.vals then d.keys else d.keys + [k], d.vals[k := v])
  }

  /** The dictionary's items in insertion order. */
  function Items(d: Dict): (items: seq<(string, real)>)
    requires WellFormed(d)
    ensures |items| == |d.keys|
    ensures forall i :: 0 <= i < |d.keys| ==> items[i] == (d.keys[i], d.vals[d.keys[i]])
  {
    seq(|d.keys|, i requires 0 <= i < |d.keys| => (d.keys[i], d.vals[d.keys[i]]))
  }

  /** The activity labels of the configured (column, label) pairs. */
  function Activities(vs: seq<(string, string)>): (as_: seq<string>)
    ensures |as_| == |vs| && forall i :: 0 <= i < |vs| ==> as_[i] == vs[i].1
  {
    if vs == [] then [] else Activities(vs[..|vs| - 1]) + [vs[|vs| - 1].1]
  }

  /** The dict of positive activity totals, built over the configured (column, label) pairs. */
  function VolData(f: Frame, volCols: seq<(string, string)>): (d: Dict)
    ensures WellFormed(d)
    ensures forall a :: a in d.vals ==> d.vals[a] > 0.0 && a in Activities(volCols)
    decreases |volCols|
  {
    if volCols == [] then Dict([], map[])
    else
      var pre := volCols[..|volCols| - 1];
      var d := VolData(f, pre);
      var (col, activity) := volCols[|volCols| - 1];
      assert Activities(volCols) == Activities(pre) + [activity];
      if col in f.columns && Sum(f.rows, ValueOf(col)) > 0.0 then DictSet(d, activity, Sum(f.rows, ValueOf(col)))
      else d
  }

  function VolumeOf(): ((string, real)) -> Key
  {
    (e: (string, real)) => Val(e.1)
  }

  /** composicao_volume: the positive totals per activity label, largest first. */
  method ComposicaoVolume(f: Frame, volCols: seq<(string, string)>) returns (out: seq<(string, real)>)
    ensures multiset(out) == multiset(Items(VolData(f, volCols)))
    ensures SortedBy(out, VolumeOf(), false)
  {
    var d := Dict([], map[]);
    var i := 0;
    while i < |volCols|
      invariant 0 <= i <= |volCols|
      invariant d == VolData(f, volCols[..i])
    {
      assert volCols[..i + 1][..i] == volCols[..i];
      var (col, activity) := volCols[i];
      if col in f.columns {
        var total := Sum(f.rows, ValueOf(col));
        if total > 0.0 {
          d := DictSet(d, activity, total);
        }
      }
      i := i + 1;
    }
    assert volCols[..i] == volCols;
    out := SortByKey(Items(d), VolumeOf(), false);
  }

  /**
   * With distinct activity labels, an activity is in the composition exactly
   * when its column is present and sums to more than 0, and then with that sum.
   */
  lemma {:induction false} VolDataEntries(f: Frame, volCols: seq<(string, string)>, col: string, activity: string)
    requires NoDup(Activities(volCols)) && (col, activity) in volCols
    ensures activity in VolData(f, volCols).vals <==> col in f.columns && Sum(f.rows, ValueOf(col)) > 0.0
    ensures activity in VolData(f, volCols).vals ==> VolData(f, volCols).vals[activity] == Sum(f.rows, ValueOf(col))
    decreases |volCols|
  {
    var n := |volCols|;
    var pre := volCols[..n - 1];
    var last := volCols[n - 1];
    assert Activities(volCols) == Activities(pre) + [last.1];
    if last == (col, activity) {
      assert activity !in Activities(pre) by {
        forall i | 0 <= i < |pre| ensures Activities(pre)[i] != activity {
          assert Activities(volCols)[i] == Activities(pre)[i];
        }
      }
    } else {
      var j :| 0 <= j < n && volCols[j] == (col, activity);
      assert j < n - 1 && pre[j] == (col, activity);
      assert NoDup(Activities(pre)) by {
        forall a, b | 0 <= a < b < |pre| ensures Activities(pre)[a] != Activities(pre)[b] {
          assert Activities(volCols)[a] == Activities(pre)[a] && Activities(volCols)[b] == Activities(pre)[b];
        }
      }
      assert last.1 != activity by {
        assert Activities(volCols)[j] == activity && Activities(volCols)[n - 1] == last.1;
      }
      VolDataEntries(f, pre, col, activity);
    }
  }
}
