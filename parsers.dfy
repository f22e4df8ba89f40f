/**
 * The three indicator parsers of src/parsers.py: Chat TOA from the TOA
 * sheet, and ETIT Outage Sem Sinal (GPON) and Log Outage Reprog. GPON from
 * the residential sheet. Each one checks its columns, selects the rows of
 * its indicator, keeps the team's logins and aggregates per login.
 * The sheet itself is given as a frame (reading the file is left out).
 */
module Parsers {
  import opened Wrappers
  import opened Text
  import opened Seqs
  import opened Frames
  import opened Filters
  import opened Groups
  import opened Config

  const INDICADOR_NOME := "INDICADOR_NOME"
  const INDICADOR := "INDICADOR"
  const LOGIN := "LOGIN"
  const INDICADOR_NOME_ICG := "INDICADOR_NOME_ICG"
  const LOGIN_ACIONAMENTO := "LOGIN_ACIONAMENTO"
  const SINTOMA := "SINTOMA"

  /** The columns tried, in order, when LOGIN_ACIONAMENTO is absent. */
  const ALT_LOGINS: seq<string> := ["RESPONSAVEL", "LOGIN"]

  const CHAT_TOA := "Chat TOA"
  const ETIT_GPON := "ETIT Outage Sem Sinal (GPON)"
  const LOG_REPROG := "Log Outage Reprog. GPON"

  /** One line of an indicator table: the login, compliant sum, row count and percentage. */
  datatype IndicadorRow = IndicadorRow(matricula: Cell, aderente: real, total: nat, pct: Option<real>)

  /** IndicadorResult: the indicator's display name and its per-login table. */
  datatype IndicadorResult = IndicadorResult(indicador: string, rows: seq<IndicadorRow>)

  // ---------------------------------------------------------------------
  // _safe_upper
  // ---------------------------------------------------------------------

  /** `_safe_upper` of one cell: astype(str), upper(), strip(). No whitespace is left at the ends. */
  function SafeUpper(c: Cell): (s: string)
    ensures s != [] ==> !IsSpace(s[0]) && !IsSpace(s[|s| - 1])
  {
    TrimSlice(Upper(Str(c)));
    Trim(Upper(Str(c)))
  }

  /** _safe_upper agrees with the TOA loader's strip-then-upper of logins. */
  lemma SafeUpperAsLoader(c: Cell)
    ensures SafeUpper(c) == NormText(StrippedUpper, c)
  {
    TrimUpperCommute(Str(c));
  }

  /** _safe_upper is idempotent. */
  lemma SafeUpperIdempotent(c: Cell)
    ensures SafeUpper(Text(SafeUpper(c))) == SafeUpper(c)
  {
    SafeUpperAsLoader(c);
    SafeUpperAsLoader(Text(SafeUpper(c)));
    NormTextIdempotent(StrippedUpper, c);
  }

  function SafeUpperOf(col: string): Row -> string
  {
    r => SafeUpper(At(r, col))
  }

  // ---------------------------------------------------------------------
  // _calc_pct
  // ---------------------------------------------------------------------

  /**
   * `_calc_pct` of one group: `aderente / total * 100`, which is Groups.Pct.
   * The non-compliant share used by Log Reprog is its complement to 100.
   */
  lemma CalcPctComplement(aderente: real, total: real)
    requires total != 0.0
    ensures Pct(total - aderente, total).Some? && Pct(aderente, total).Some?
    ensures Pct(total - aderente, total).value == 100.0 - Pct(aderente, total).value
  {
    var q := aderente / total;
    var n := (total - aderente) / total;
    assert q * total == aderente;
    assert n * total == total - aderente;
    assert (n + q - 1.0) * total == 0.0;
    assert n + q == 1.0;
  }

  // ---------------------------------------------------------------------
  // Chat TOA row selection: a mask accumulated over the patterns
  // ---------------------------------------------------------------------

  /** The name contains at least one of the patterns. */
  function AnyContains(s: string, pats: seq<string>): bool
  {
    pats != [] && (Contains(s, pats[0]) || AnyContains(s, pats[1..]))
  }

  lemma {:induction false} AnyContainsIff(s: string, pats: seq<string>)
    ensures AnyContains(s, pats) <==> exists k :: 0 <= k < |pats| && Contains(s, pats[k])
  {
    if pats != [] {
      AnyContainsIff(s, pats[1..]);
      assert forall k :: 0 < k < |pats| ==> pats[1..][k - 1] == pats[k];
    }
  }

  /**
   * The mask loop, starting from all-false and or-ing in one pattern at a time:
   * a name is selected iff it contains one of the patterns. The configured
   * patterns hold no regular-expression metacharacters, so each regex
   * search is a plain substring test.
   */
  method ChatMask(nomes: seq<string>, pats: seq<string>) returns (mask: seq<bool>)
    ensures |mask| == |nomes|
    ensures forall i :: 0 <= i < |nomes| ==>
      (mask[i] <==> exists k :: 0 <= k < |pats| && Contains(nomes[i], pats[k]))
  {
    mask := seq(|nomes|, i => false);
    var k := 0;
    while k < |pats|
      invariant 0 <= k <= |pats|
      invariant |mask| == |nomes|
      invariant forall i :: 0 <= i < |nomes| ==>
        (mask[i] <==> exists j :: 0 <= j < k && Contains(nomes[i], pats[j]))
    {
      var pat := pats[k];
      var prev := mask;
      mask := seq(|nomes|, i requires 0 <= i < |nomes| => prev[i] || Contains(nomes[i], pat));
      k := k + 1;
    }
  }

  /** The rows whose mask entry is set, in order. */
  function Masked(rows: seq<Row>, mask: seq<bool>): seq<Row>
    requires |mask| == |rows|
  {
    if rows == [] then []
    else (if mask[0] then [rows[0]] else []) + Masked(rows[1..], mask[1..])
  }

  /** Indexing by a mask computed from a predicate is filtering by that predicate. */
  lemma {:induction false} MaskedFilter(rows: seq<Row>, mask: seq<bool>, p: Row -> bool)
    requires |mask| == |rows| && forall i :: 0 <= i < |rows| ==> mask[i] == p(rows[i])
    ensures Masked(rows, mask) == Filter(rows, p)
  {
    if rows != [] {
      assert forall i :: 0 <= i < |rows| - 1 ==> rows[1..][i] == rows[i + 1];
      MaskedFilter(rows[1..], mask[1..], p);
    }
  }

  /** The Chat TOA selection as a row predicate. */
  function NameMatches(pats: seq<string>): Row -> bool
  {
    r => AnyContains(SafeUpper(At(r, INDICADOR_NOME)), pats)
  }

  // ---------------------------------------------------------------------
  // Login column fallback
  // ---------------------------------------------------------------------

  /** The first of the alternatives that is a column, if any. */
  function FirstPresent(alts: seq<string>, cols: seq<string>): Option<string>
  {
    if alts == [] then None
    else if alts[0] in cols then Some(alts[0])
    else FirstPresent(alts[1..], cols)
  }

  /** FirstPresent finds the earliest alternative that is a column, and None only when none is. */
  lemma {:induction false} FirstPresentSpec(alts: seq<string>, cols: seq<string>)
    ensures FirstPresent(alts, cols).None? <==> forall k :: 0 <= k < |alts| ==> alts[k] !in cols
    ensures FirstPresent(alts, cols).Some? ==> exists k :: (0 <= k < |alts| &&
      FirstPresent(alts, cols).value == alts[k] && alts[k] in cols &&
      forall j :: 0 <= j < k ==> alts[j] !in cols)
  {
    if alts != [] {
      FirstPresentSpec(alts[1..], cols);
      assert forall k :: 0 < k < |alts| ==> alts[1..][k - 1] == alts[k];
      if alts[0] !in cols && FirstPresent(alts[1..], cols).Some? {
        var k :| 0 <= k < |alts[1..]| && FirstPresent(alts[1..], cols).value == alts[1..][k] &&
          alts[1..][k] in cols && forall j :: 0 <= j < k ==> alts[1..][j] !in cols;
        assert forall j :: 0 <= j < k + 1 ==> alts[j] !in cols by {
          forall j | 0 <= j < k + 1 ensures alts[j] !in cols {
            if j > 0 {
              assert alts[j] == alts[1..][j - 1];
            }
          }
        }
      }
    }
  }

  function RenameName(src: string, dst: string): string -> string
  {
    c => if c == src then dst else c
  }

  function RenameKey(src: string, dst: string): Row -> Row
  {
    (r: Row) => if src in r then (r - {src})[dst := r[src]] else r
  }

  /** Renames column `src` to `dst`, in the column list and in every row. */
  function RenameColumn(f: Frame, src: string, dst: string): (g: Frame)
    ensures |g.columns| == |f.columns| && |g.rows| == |f.rows|
    ensures forall i :: 0 <= i < |f.columns| ==>
      g.columns[i] == if f.columns[i] == src then dst else f.columns[i]
    ensures forall i :: 0 <= i < |f.rows| && src in f.rows[i] ==>
      At(g.rows[i], dst) == At(f.rows[i], src) && (src != dst ==> src !in g.rows[i])
    ensures forall i, c :: 0 <= i < |f.rows| && c != src && c != dst ==> At(g.rows[i], c) == At(f.rows[i], c)
  {
    Frame(MapSeq(f.columns, RenameName(src, dst)), MapSeq(f.rows, RenameKey(src, dst)))
  }

  /** The frame after the login fallback of the residential parsers. */
  function WithLogin(f: Frame): Frame
  {
    if LOGIN_ACIONAMENTO in f.columns then f
    else
      match FirstPresent(ALT_LOGINS, f.columns)
      case None => f
      case Some(alt) => RenameColumn(f, alt, LOGIN_ACIONAMENTO)
  }

  /**
   * The login-column fallback: without LOGIN_ACIONAMENTO, the first of
   * RESPONSAVEL and LOGIN that is present is renamed to it, and no other.
   */
  method FallbackLogin(f: Frame) returns (g: Frame)
    ensures g == WithLogin(f)
  {
    g := f;
    if LOGIN_ACIONAMENTO !in f.columns {
      var k := 0;
      while k < |ALT_LOGINS|
        invariant 0 <= k <= |ALT_LOGINS|
        invariant g == f
        invariant FirstPresent(ALT_LOGINS[k..], f.columns) == FirstPresent(ALT_LOGINS, f.columns)
      {
        assert ALT_LOGINS[k..][1..] == ALT_LOGINS[k + 1..];
        var alt := ALT_LOGINS[k];
        if alt in g.columns {
          g := RenameColumn(g, alt, LOGIN_ACIONAMENTO);
          break;
        }
        k := k + 1;
      }
    }
  }

  /**
   * The fallback renames at most one column: with LOGIN_ACIONAMENTO absent,
   * RESPONSAVEL is renamed when present, else LOGIN; every other column
   * keeps its name, so LOGIN survives when RESPONSAVEL was taken.
   */
  lemma FallbackRenamesOne(f: Frame)
    ensures var g := WithLogin(f);
      |g.columns| == |f.columns| &&
      (LOGIN_ACIONAMENTO in f.columns || (forall a :: a in ALT_LOGINS ==> a !in f.columns) ==> g == f) &&
      (LOGIN_ACIONAMENTO !in f.columns && "RESPONSAVEL" in f.columns ==> forall i :: 0 <= i < |f.columns| ==>
        g.columns[i] == if f.columns[i] == "RESPONSAVEL" then LOGIN_ACIONAMENTO else f.columns[i]) &&
      (LOGIN_ACIONAMENTO !in f.columns && "RESPONSAVEL" !in f.columns && "LOGIN" in f.columns ==>
        forall i :: 0 <= i < |f.columns| ==>
          g.columns[i] == if f.columns[i] == "LOGIN" then LOGIN_ACIONAMENTO else f.columns[i])
  {
    FirstPresentSpec(ALT_LOGINS, f.columns);
    assert ALT_LOGINS[0] == "RESPONSAVEL" && ALT_LOGINS[1] == "LOGIN";
  }

  /** After the fallback, LOGIN_ACIONAMENTO is a column iff it or one of the alternatives was. */
  lemma FallbackHasLogin(f: Frame)
    ensures LOGIN_ACIONAMENTO in WithLogin(f).columns <==>
      LOGIN_ACIONAMENTO in f.columns || "RESPONSAVEL" in f.columns || "LOGIN" in f.columns
  {
    var g := WithLogin(f);
    FirstPresentSpec(ALT_LOGINS, f.columns);
    assert ALT_LOGINS[0] == "RESPONSAVEL" && ALT_LOGINS[1] == "LOGIN";
    if LOGIN_ACIONAMENTO !in f.columns && FirstPresent(ALT_LOGINS, f.columns).Some? {
      var alt := FirstPresent(ALT_LOGINS, f.columns).value;
      var i :| 0 <= i < |f.columns| && f.columns[i] == alt;
      assert g.columns[i] == LOGIN_ACIONAMENTO;
    }
    if LOGIN_ACIONAMENTO in g.columns && LOGIN_ACIONAMENTO !in f.columns && FirstPresent(ALT_LOGINS, f.columns).Some? {
      var alt := FirstPresent(ALT_LOGINS, f.columns).value;
      assert alt in f.columns;
    }
  }

  // ---------------------------------------------------------------------
  // Roster check and per-login aggregation
  // ---------------------------------------------------------------------

  /** The group of one login: row count, INDICADOR sum and the percentage (non-compliant for Log Reprog). */
  function AggregateAt(rows: seq<Row>, col: string, k: Cell, naoAderente: bool): IndicadorRow
  {
    var sub := Filter(rows, CellIs(col, k));
    var total := |sub|;
    var ader := Sum(sub, ValueOf(INDICADOR));
    IndicadorRow(k, ader, total,
      if naoAderente then Pct(total as real - ader, total as real) else Pct(ader, total as real))
  }

  function AggregateOf(rows: seq<Row>, col: string, naoAderente: bool): Cell -> IndicadorRow
  {
    k => AggregateAt(rows, col, k, naoAderente)
  }

  /** Per login: the row count, the summed INDICADOR and their percentage, one line per login. */
  function Aggregate(rows: seq<Row>, col: string, naoAderente: bool): seq<IndicadorRow>
  {
    MapSeq(GroupKeys(rows, col), AggregateOf(rows, col, naoAderente))
  }

  /**
   * The tail shared by the three parsers: no result when the selected rows
   * are empty or none of them has a team login (the raw cell, not trimmed);
   * otherwise the per-login table of the team's rows.
   */
  function Finish(sub: seq<Row>, col: string, ids: set<string>, indicador: string, naoAderente: bool): Option<IndicadorResult>
  {
    if sub == [] then None
    else
      var team := Filter(sub, TextIn(col, ids));
      if team == [] then None
      else Some(IndicadorResult(indicador, Aggregate(team, col, naoAderente)))
  }

  /** Finish has no result iff no selected row holds a team login. */
  lemma FinishNone(sub: seq<Row>, col: string, ids: set<string>, indicador: string, naoAderente: bool)
    ensures Finish(sub, col, ids, indicador, naoAderente).None? <==>
      forall r :: r in sub ==> !(At(r, col).Text? && At(r, col).s in ids)
  {
    var team := Filter(sub, TextIn(col, ids));
    if team != [] {
      assert team[0] in team;
    }
    if exists r :: r in sub && At(r, col).Text? && At(r, col).s in ids {
      var r :| r in sub && At(r, col).Text? && At(r, col).s in ids;
      assert TextIn(col, ids)(r);
      assert r in team;
    }
  }

  /** The rows of one login among the selected rows. */
  function LoginRows(sub: seq<Row>, col: string, k: Cell): seq<Row>
  {
    Filter(sub, CellIs(col, k))
  }

  /**
   * Every line of a result is a team login with at least one selected row;
   * `total` counts the selected rows of that login, `aderente` sums their
   * INDICADOR and `pct = aderente / total * 100` (for Log Reprog
   * `(total - aderente) / total * 100`).
   */
  lemma FinishRows(sub: seq<Row>, col: string, ids: set<string>, indicador: string, naoAderente: bool, t: IndicadorRow)
    requires Finish(sub, col, ids, indicador, naoAderente).Some?
    requires t in Finish(sub, col, ids, indicador, naoAderente).value.rows
    ensures Finish(sub, col, ids, indicador, naoAderente).value.indicador == indicador
    ensures t.matricula.Text? && t.matricula.s in ids
    ensures t.total == |LoginRows(sub, col, t.matricula)| > 0
    ensures t.aderente == Sum(LoginRows(sub, col, t.matricula), ValueOf(INDICADOR))
    ensures naoAderente ==> t.pct == Some((t.total as real - t.aderente) / t.total as real * 100.0)
    ensures !naoAderente ==> t.pct == Some(t.aderente / t.total as real * 100.0)
  {
    var team := Filter(sub, TextIn(col, ids));
    AggregateLine(team, col, naoAderente, t);
    AggregateAtValues(team, col, naoAderente, t);
    TeamLoginRows(sub, col, ids, t.matricula);
  }

  /** The group of a login that occurs: its count is positive and its percentage is defined. */
  lemma AggregateAtValues(rows: seq<Row>, col: string, naoAderente: bool, t: IndicadorRow)
    requires t == AggregateAt(rows, col, t.matricula, naoAderente)
    requires exists r :: r in rows && At(r, col) == t.matricula
    ensures t.total == |LoginRows(rows, col, t.matricula)| > 0
    ensures t.aderente == Sum(LoginRows(rows, col, t.matricula), ValueOf(INDICADOR))
    ensures naoAderente ==> t.pct == Some((t.total as real - t.aderente) / t.total as real * 100.0)
    ensures !naoAderente ==> t.pct == Some(t.aderente / t.total as real * 100.0)
  {
    var r :| r in rows && At(r, col) == t.matricula;
    assert CellIs(col, t.matricula)(r);
    var sub := LoginRows(rows, col, t.matricula);
    assert r in sub;
    PctValue(t.total as real - t.aderente, t.total as real);
    PctValue(t.aderente, t.total as real);
  }

  lemma PctValue(part: real, whole: real)
    requires whole != 0.0
    ensures Pct(part, whole) == Some(part / whole * 100.0)
  {
  }

  /** A line of the aggregation is the group of a login that occurs in the rows. */
  lemma AggregateLine(rows: seq<Row>, col: string, naoAderente: bool, t: IndicadorRow)
    requires t in Aggregate(rows, col, naoAderente)
    ensures t == AggregateAt(rows, col, t.matricula, naoAderente)
    ensures exists r :: r in rows && At(r, col) == t.matricula
  {
    var ks := GroupKeys(rows, col);
    var g := Aggregate(rows, col, naoAderente);
    var i :| 0 <= i < |g| && g[i] == t;
    assert ks[i] in ks;
  }

  /** For a team login, its rows among the team's rows are its rows among all selected rows. */
  lemma TeamLoginRows(sub: seq<Row>, col: string, ids: set<string>, k: Cell)
    requires exists r :: r in Filter(sub, TextIn(col, ids)) && At(r, col) == k
    ensures k.Text? && k.s in ids
    ensures LoginRows(Filter(sub, TextIn(col, ids)), col, k) == LoginRows(sub, col, k)
  {
    var r :| r in Filter(sub, TextIn(col, ids)) && At(r, col) == k;
    assert TextIn(col, ids)(r);
    forall x | CellIs(col, k)(x) ensures TextIn(col, ids)(x) {
    }
    FilterNarrow(sub, TextIn(col, ids), CellIs(col, k));
  }

  /** No two lines of a result share a login, and every team login among the selected rows has a line. */
  lemma FinishLogins(sub: seq<Row>, col: string, ids: set<string>, indicador: string, naoAderente: bool)
    requires Finish(sub, col, ids, indicador, naoAderente).Some?
    ensures var g := Finish(sub, col, ids, indicador, naoAderente).value.rows;
      (forall i, j :: 0 <= i < j < |g| ==> g[i].matricula != g[j].matricula) &&
      (forall r :: r in sub && At(r, col).Text? && At(r, col).s in ids ==>
        exists t :: t in g && t.matricula == At(r, col))
  {
    var team := Filter(sub, TextIn(col, ids));
    var ks := GroupKeys(team, col);
    var g := Aggregate(team, col, naoAderente);
    forall r | r in sub && At(r, col).Text? && At(r, col).s in ids
      ensures exists t :: t in g && t.matricula == At(r, col)
    {
      assert TextIn(col, ids)(r);
      assert r in team;
      var i :| 0 <= i < |team| && team[i] == r;
      assert At(team[i], col) in ks;
      var j :| 0 <= j < |ks| && ks[j] == At(r, col);
      assert g[j] in g;
    }
  }

  /** Log Reprog's line is Chat/ETIT's line with the complementary percentage; `aderente` is unchanged. */
  lemma NaoAderenteComplement(rows: seq<Row>, col: string, k: Cell)
    requires exists r :: r in rows && At(r, col) == k
    ensures var a := AggregateAt(rows, col, k, false);
      var n := AggregateAt(rows, col, k, true);
      n.matricula == a.matricula && n.aderente == a.aderente && n.total == a.total &&
      a.pct.Some? && n.pct.Some? && n.pct.value == 100.0 - a.pct.value
  {
    var r :| r in rows && At(r, col) == k;
    assert CellIs(col, k)(r);
    var sub := Filter(rows, CellIs(col, k));
    assert r in sub;
    CalcPctComplement(Sum(sub, ValueOf(INDICADOR)), |sub| as real);
  }

  // ---------------------------------------------------------------------
  // The parsers
  // ---------------------------------------------------------------------

  /** The frame has every required column. */
  predicate HasColumns(f: Frame, required: set<string>)
  {
    forall c :: c in required ==> c in f.columns
  }

  /** parse_chat_toa_from_toa as a function of the TOA sheet and the team's logins. */
  function ChatToaOf(df: Frame, ids: set<string>): Option<IndicadorResult>
  {
    if !HasColumns(df, {INDICADOR_NOME, INDICADOR, LOGIN}) then None
    else Finish(Filter(df.rows, NameMatches(CHAT_TOA_NAME_PATTERNS)), LOGIN, ids, CHAT_TOA, false)
  }

  /** parse_chat_toa_from_toa. */
  method ParseChatToa(df: Frame, ids: set<string>) returns (res: Option<IndicadorResult>)
    ensures res == ChatToaOf(df, ids)
  {
    if !(INDICADOR_NOME in df.columns && INDICADOR in df.columns && LOGIN in df.columns) {
      return None;
    }
    var nome := MapSeq(df.rows, SafeUpperOf(INDICADOR_NOME));
    var mask := ChatMask(nome, CHAT_TOA_NAME_PATTERNS);
    forall i | 0 <= i < |df.rows| ensures mask[i] == NameMatches(CHAT_TOA_NAME_PATTERNS)(df.rows[i]) {
      AnyContainsIff(nome[i], CHAT_TOA_NAME_PATTERNS);
    }
    MaskedFilter(df.rows, mask, NameMatches(CHAT_TOA_NAME_PATTERNS));
    var sub := Masked(df.rows, mask);
    res := Finish(sub, LOGIN, ids, CHAT_TOA, false);
  }

  /** Chat TOA selects a row iff its normalised name contains one of the configured patterns. */
  lemma ChatSelection(r: Row)
    ensures NameMatches(CHAT_TOA_NAME_PATTERNS)(r) <==>
      exists k :: 0 <= k < |CHAT_TOA_NAME_PATTERNS| && Contains(SafeUpper(At(r, INDICADOR_NOME)), CHAT_TOA_NAME_PATTERNS[k])
  {
    AnyContainsIff(SafeUpper(At(r, INDICADOR_NOME)), CHAT_TOA_NAME_PATTERNS);
  }

  /** Chat TOA has no result iff a column is missing or no row of the indicator has a team login. */
  lemma ChatToaNone(df: Frame, ids: set<string>)
    ensures ChatToaOf(df, ids).None? <==>
      !(INDICADOR_NOME in df.columns && INDICADOR in df.columns && LOGIN in df.columns) ||
      forall r :: r in df.rows && NameMatches(CHAT_TOA_NAME_PATTERNS)(r) ==> !(At(r, LOGIN).Text? && At(r, LOGIN).s in ids)
  {
    var sub := Filter(df.rows, NameMatches(CHAT_TOA_NAME_PATTERNS));
    FinishNone(sub, LOGIN, ids, CHAT_TOA, false);
  }

  /** The residential selection: the indicator name and the symptom match exactly after _safe_upper. */
  function Selected(name: string): Row -> bool
  {
    r => SafeUpper(At(r, INDICADOR_NOME_ICG)) == name && SafeUpper(At(r, SINTOMA)) == RES_SINTOMA_SEM_SINAL
  }

  /** The residential parsers as a function of the sheet, the team's logins and the indicator. */
  function ResidencialOf(df: Frame, ids: set<string>, name: string, indicador: string, naoAderente: bool): Option<IndicadorResult>
  {
    var g := WithLogin(df);
    if !HasColumns(g, {INDICADOR_NOME_ICG, INDICADOR, LOGIN_ACIONAMENTO, SINTOMA}) then None
    else Finish(Filter(g.rows, Selected(name)), LOGIN_ACIONAMENTO, ids, indicador, naoAderente)
  }

  method ParseResidencial(df: Frame, ids: set<string>, name: string, indicador: string, naoAderente: bool)
    returns (res: Option<IndicadorResult>)
    ensures res == ResidencialOf(df, ids, name, indicador, naoAderente)
  {
    var g := FallbackLogin(df);
    if !(INDICADOR_NOME_ICG in g.columns && INDICADOR in g.columns && LOGIN_ACIONAMENTO in g.columns && SINTOMA in g.columns) {
      return None;
    }
    var sub := Filter(g.rows, Selected(name));
    res := Finish(sub, LOGIN_ACIONAMENTO, ids, indicador, naoAderente);
  }

  /** parse_etit_outage_sem_sinal_gpon_from_residencial. */
  method ParseEtitGpon(df: Frame, ids: set<string>) returns (res: Option<IndicadorResult>)
    ensures res == ResidencialOf(df, ids, RES_ETIT_GPON_INDICADOR_NOME, ETIT_GPON, false)
  {
    res := ParseResidencial(df, ids, RES_ETIT_GPON_INDICADOR_NOME, ETIT_GPON, false);
  }

  /** parse_log_reprog_gpon_from_residencial: the percentage of non-compliant rows. */
  method ParseLogReprog(df: Frame, ids: set<string>) returns (res: Option<IndicadorResult>)
    ensures res == ResidencialOf(df, ids, RES_LOG_REPROG_GPON_INDICADOR_NOME, LOG_REPROG, true)
  {
    res := ParseResidencial(df, ids, RES_LOG_REPROG_GPON_INDICADOR_NOME, LOG_REPROG, true);
  }

  /** A residential parser has no result iff a column is missing or no selected row has a team login. */
  lemma ResidencialNone(df: Frame, ids: set<string>, name: string, indicador: string, naoAderente: bool)
    ensures var g := WithLogin(df);
      ResidencialOf(df, ids, name, indicador, naoAderente).None? <==>
      !(INDICADOR_NOME_ICG in g.columns && INDICADOR in g.columns && LOGIN_ACIONAMENTO in g.columns && SINTOMA in g.columns) ||
      forall r :: r in g.rows && Selected(name)(r) ==> !(At(r, LOGIN_ACIONAMENTO).Text? && At(r, LOGIN_ACIONAMENTO).s in ids)
  {
    var g := WithLogin(df);
    FinishNone(Filter(g.rows, Selected(name)), LOGIN_ACIONAMENTO, ids, indicador, naoAderente);
  }
}
