/**
 * The two row scanners of the DPA occupancy workbook: _dpa_detect_mes_recente
 * over the Consolidado sheet and _dpa_extract_analistas over the Analistas
 * sheet. Both sheets are read without a header, so a row is a map from
 * column position to cell and `row.get(k, d)` falls back on a missing position.
 */
module Dpa {
  import opened Wrappers
  import opened Text
  import opened Seqs
  import opened Frames

  /** A sheet row read with header=None: cells by column position. */
  type RawRow = map<int, Cell>

  /** The cell at position `k`, if the row has one. */
  function Get(r: RawRow, k: int): Option<Cell>
  {
    if k in r then Some(r[k]) else None
  }

  /** The trimmed text form of the cell at position `k`; an empty text when there is none. */
  function Label(r: RawRow, k: int): string
  {
    Trim(StrOr(Get(r, k)))
  }

  /**
   * What both scanners read from one row: the stripped text of column 26
   * and float() of a second column (None where float() raises).
   */
  datatype Line = Line(text: string, value: Option<FloatValue>)

  function ReadLine(r: RawRow, k: int): Line
  {
    Line(Label(r, 26), ToFloat(Get(r, k)))
  }

  /** The rows of a sheet as the scanners see them, in order. */
  function Lines(raw: seq<RawRow>, k: int): (ls: seq<Line>)
    ensures |ls| == |raw|
    ensures forall i :: 0 <= i < |raw| ==> ls[i] == ReadLine(raw[i], k)
  {
    seq(|raw|, i requires 0 <= i < |raw| => ReadLine(raw[i], k))
  }

  // ---------------------------------------------------------------------
  // _dpa_detect_mes_recente
  // ---------------------------------------------------------------------

  /** The month found: its name, its number (1-based position in the month list) and DPA% times 100. */
  datatype MesRecente = MesRecente(nome: string, num: nat, pct: real)

  /** Position of the first occurrence of `x` (`list.index`). */
  function FirstIndex(s: seq<string>, x: string): (i: nat)
    requires x in s
    ensures i < |s| && s[i] == x && forall j :: 0 <= j < i ==> s[j] != x
  {
    if s[0] == x then 0 else 1 + FirstIndex(s[1..], x)
  }

  /** A line names a configured month and carries a positive number (NaN > 0 is false). */
  predicate Qualifies(l: Line, meses: seq<string>)
  {
    l.text in meses && l.value.Some? && l.value.value.Number? && l.value.value.r > 0.0
  }

  function MesOf(l: Line, meses: seq<string>): MesRecente
    requires Qualifies(l, meses)
  {
    MesRecente(l.text, FirstIndex(meses, l.text) + 1, l.value.value.r * 100.0)
  }

  /** The month of the last qualifying line, or None when no line qualifies. */
  function LastMes(ls: seq<Line>, meses: seq<string>): Option<MesRecente>
  {
    if ls == [] then None
    else if Qualifies(ls[|ls| - 1], meses) then Some(MesOf(ls[|ls| - 1], meses))
    else LastMes(ls[..|ls| - 1], meses)
  }

  /** One more line replaces the month found when it qualifies. */
  lemma LastMesStep(ls: seq<Line>, n: nat, meses: seq<string>)
    requires n < |ls|
    ensures LastMes(ls[..n + 1], meses) ==
      if Qualifies(ls[n], meses) then Some(MesOf(ls[n], meses)) else LastMes(ls[..n], meses)
  {
    assert ls[..n + 1][..n] == ls[..n];
  }

  /** _dpa_detect_mes_recente: the result is overwritten by every qualifying row in scan order. */
  method DetectMesRecente(raw: seq<RawRow>, meses: seq<string>) returns (res: Option<MesRecente>)
    ensures res == LastMes(Lines(raw, 30), meses)
  {
    ghost var ls := Lines(raw, 30);
    res := None;
    var i := 0;
    while i < |raw|
      invariant 0 <= i <= |raw|
      invariant res == LastMes(ls[..i], meses)
    {
      var row := raw[i];
      var mes := Label(row, 26);
      var v := ToFloat(Get(row, 30));
      assert ls[i] == Line(mes, v);
      LastMesStep(ls, i, meses);
      if mes in meses {
        match v
        case Some(Number(x)) =>
          if x > 0.0 {
            res := Some(MesRecente(mes, FirstIndex(meses, mes) + 1, x * 100.0));
          }
        case _ =>
      }
      i := i + 1;
    }
    assert ls[..i] == ls;
  }

  /** No month exactly when no line qualifies. */
  lemma {:induction false} LastMesNone(ls: seq<Line>, meses: seq<string>)
    ensures LastMes(ls, meses).None? <==> forall i :: 0 <= i < |ls| ==> !Qualifies(ls[i], meses)
  {
    if ls != [] {
      var pre := ls[..|ls| - 1];
      LastMesNone(pre, meses);
      assert forall i :: 0 <= i < |pre| ==> pre[i] == ls[i];
    }
  }

  /** A month found is the month of a qualifying line after which no line qualifies. */
  lemma {:induction false} LastMesSome(ls: seq<Line>, meses: seq<string>)
    requires LastMes(ls, meses).Some?
    ensures exists i :: (0 <= i < |ls| && Qualifies(ls[i], meses) && LastMes(ls, meses) == Some(MesOf(ls[i], meses)) &&
      forall j :: i < j < |ls| ==> !Qualifies(ls[j], meses))
  {
    var n := |ls| - 1;
    if !Qualifies(ls[n], meses) {
      var pre := ls[..n];
      LastMesSome(pre, meses);
      var i :| 0 <= i < |pre| && Qualifies(pre[i], meses) && LastMes(pre, meses) == Some(MesOf(pre[i], meses)) &&
        forall j :: i < j < |pre| ==> !Qualifies(pre[j], meses);
      assert ls[i] == pre[i];
      forall j | i < j < |ls|
        ensures !Qualifies(ls[j], meses)
      {
        if j < n {
          assert ls[j] == pre[j];
        }
      }
    }
  }

  /** The month found is a configured month, numbered by its 1-based position, with a positive DPA%. */
  lemma MesNumero(ls: seq<Line>, meses: seq<string>)
    requires LastMes(ls, meses).Some?
    ensures var m := LastMes(ls, meses).value;
      1 <= m.num <= |meses| && meses[m.num - 1] == m.nome && m.pct > 0.0
  {
    LastMesSome(ls, meses);
  }

  // ---------------------------------------------------------------------
  // _dpa_extract_analistas
  // ---------------------------------------------------------------------

  const HEADER: string := "Rótulos de Linha"

  /** Logins that are pivot-table labels, not analysts. */
  const SKIP_TOKENS: set<string> := {"nan", "Total Geral", "COP REDE RJ", "", "Rótulos de Linha"}

  /** Position of the first line whose column 26 is the pivot header, if any. */
  function HeaderIndex(ls: seq<Line>): (h: Option<nat>)
    ensures h.Some? ==> h.value < |ls| && ls[h.value].text == HEADER
  {
    if ls == [] then None
    else if ls[0].text == HEADER then Some(0)
    else
      match HeaderIndex(ls[1..])
      case None => None
      case Some(k) => Some(k + 1)
  }

  /** There is no header exactly when no line has the header label. */
  lemma {:induction false} HeaderNone(ls: seq<Line>)
    ensures HeaderIndex(ls).None? <==> forall i :: 0 <= i < |ls| ==> ls[i].text != HEADER
  {
    if ls != [] && ls[0].text != HEADER {
      HeaderNone(ls[1..]);
      assert forall i :: 1 <= i < |ls| ==> ls[i] == ls[1..][i - 1];
    }
  }

  /** No line before the header found has the header label. */
  lemma {:induction false} HeaderSome(ls: seq<Line>)
    requires HeaderIndex(ls).Some?
    ensures forall i :: 0 <= i < HeaderIndex(ls).value ==> ls[i].text != HEADER
  {
    if ls[0].text != HEADER {
      HeaderSome(ls[1..]);
      assert forall i :: 1 <= i < |ls| ==> ls[i] == ls[1..][i - 1];
    }
  }

  /** The header search: the loop stops at the first match. */
  method FindHeader(raw: seq<RawRow>) returns (h: Option<nat>)
    ensures h == HeaderIndex(Lines(raw, 28))
  {
    ghost var ls := Lines(raw, 28);
    h := None;
    var i := 0;
    while i < |raw|
      invariant 0 <= i <= |raw|
      invariant forall j :: 0 <= j < i ==> ls[j].text != HEADER
    {
      assert ls[i].text == Label(raw[i], 26);
      if Label(raw[i], 26) == HEADER {
        HeaderAt(ls, i);
        h := Some(i);
        break;
      }
      i := i + 1;
    }
    if h.None? {
      HeaderNone(ls);
    }
  }

  /** A header line with none before it is the one found. */
  lemma {:induction false} HeaderAt(ls: seq<Line>, i: nat)
    requires i < |ls| && ls[i].text == HEADER
    requires forall j :: 0 <= j < i ==> ls[j].text != HEADER
    ensures HeaderIndex(ls) == Some(i)
  {
    if i > 0 {
      assert ls[0].text != HEADER;
      HeaderAt(ls[1..], i - 1);
    }
  }
  /** One parsed pivot line: the login and DPA% times 100 (Missing for NaN). */
  datatype DpaEntry = DpaEntry(login: string, pct: Key)

  /** A pivot line is kept when its login is a real login and column 28 reads as a float. */
  function ParseEntry(l: Line): (e: Option<DpaEntry>)
    ensures e.Some? <==> l.text != [] && l.text !in SKIP_TOKENS && l.value.Some?
    ensures e.Some? ==> e.value.login == l.text
    ensures e.Some? ==> (e.value.pct.Missing? <==> l.value.value.NaN?)
    ensures e.Some? && l.value.value.Number? ==> e.value.pct == Val(l.value.value.r * 100.0)
  {
    if l.text == [] || l.text in SKIP_TOKENS then None
    else
      match l.value
      case None => None
      case Some(NaN) => Some(DpaEntry(l.text, Missing))
      case Some(Number(x)) => Some(DpaEntry(l.text, Val(x * 100.0)))
  }

  /** The kept lines, in order. */
  function Entries(ls: seq<Line>): seq<DpaEntry>
  {
    if ls == [] then []
    else
      var pre := Entries(ls[..|ls| - 1]);
      match ParseEntry(ls[|ls| - 1])
      case None => pre
      case Some(e) => pre + [e]
  }

  /** One more line adds its entry, if it has one. */
  lemma EntriesStep(ls: seq<Line>, n: nat)
    requires n < |ls|
    ensures Entries(ls[..n + 1]) ==
      if ParseEntry(ls[n]).Some? then Entries(ls[..n]) + [ParseEntry(ls[n]).value] else Entries(ls[..n])
  {
    assert ls[..n + 1][..n] == ls[..n];
  }

  /** The line loop from line `start` to the end, appending the entry of each kept line. */
  method CollectEntries(raw: seq<RawRow>, start: nat) returns (es: seq<DpaEntry>)
    requires start <= |raw|
    ensures es == Entries(Lines(raw, 28)[start..])
  {
    ghost var ls := Lines(raw, 28)[start..];
    es := [];
    var n := 0;
    while start + n < |raw|
      invariant start + n <= |raw| && |ls| == |raw| - start
      invariant es == Entries(ls[..n])
    {
      var e := ParseEntry(ReadLine(raw[start + n], 28));
      assert e == ParseEntry(ls[n]);
      EntriesStep(ls, n);
      if e.Some? {
        es := es + [e.value];
      }
      n := n + 1;
    }
    assert ls[..n] == ls;
  }

  /** Every kept entry comes from one of the lines. */
  lemma {:induction false} EntriesFromLines(ls: seq<Line>, e: DpaEntry)
    requires e in Entries(ls)
    ensures exists j :: 0 <= j < |ls| && ParseEntry(ls[j]) == Some(e)
  {
    var pre := ls[..|ls| - 1];
    if e in Entries(pre) {
      EntriesFromLines(pre, e);
      var j :| 0 <= j < |pre| && ParseEntry(pre[j]) == Some(e);
      assert ls[j] == pre[j];
    }
  }

  /** Every line that parses contributes its entry. */
  lemma {:induction false} EntriesOfLines(ls: seq<Line>, j: nat)
    requires j < |ls| && ParseEntry(ls[j]).Some?
    ensures ParseEntry(ls[j]).value in Entries(ls)
  {
    var pre := ls[..|ls| - 1];
    if j < |pre| {
      assert ls[j] == pre[j];
      EntriesOfLines(pre, j);
    }
  }

  /** One analyst line after the roster join. */
  datatype DpaAnalista = DpaAnalista(login: string, nome: string, setor: string, pct: Key)

  function Matches(login: string): Employee -> bool
  {
    (e: Employee) => e.matricula == login
  }

  function Joined(e: DpaEntry): Employee -> DpaAnalista
  {
    (emp: Employee) => DpaAnalista(e.login, emp.nome, emp.setor, e.pct)
  }

  /** The inner merge with the roster on Login == Matricula, in the order of the lines. */
  function JoinRoster(es: seq<DpaEntry>, base: seq<Employee>): seq<DpaAnalista>
  {
    if es == [] then []
    else MapSeq(Filter(base, Matches(es[0].login)), Joined(es[0])) + JoinRoster(es[1..], base)
  }

  /** Every joined line pairs one of the entries with a roster member of the same login. */
  lemma {:induction false} JoinRosterMember(es: seq<DpaEntry>, base: seq<Employee>, a: DpaAnalista)
    requires a in JoinRoster(es, base)
    ensures exists emp :: (emp in base && emp.matricula == a.login && emp.nome == a.nome && emp.setor == a.setor)
    ensures DpaEntry(a.login, a.pct) in es
  {
    var matched := Filter(base, Matches(es[0].login));
    var here := MapSeq(matched, Joined(es[0]));
    if a in here {
      var i :| 0 <= i < |here| && here[i] == a;
      assert matched[i] in matched;
    } else {
      JoinRosterMember(es[1..], base, a);
    }
  }

  /** Every entry whose login is on the roster is joined with each roster member of that login. */
  lemma {:induction false} JoinRosterComplete(es: seq<DpaEntry>, base: seq<Employee>, k: nat, emp: Employee)
    requires k < |es| && emp in base && emp.matricula == es[k].login
    ensures DpaAnalista(es[k].login, emp.nome, emp.setor, es[k].pct) in JoinRoster(es, base)
  {
    var matched := Filter(base, Matches(es[0].login));
    if k == 0 {
      assert emp in matched;
      var i :| 0 <= i < |matched| && matched[i] == emp;
      assert MapSeq(matched, Joined(es[0]))[i] == Joined(es[0])(emp);
    } else {
      JoinRosterComplete(es[1..], base, k - 1, emp);
    }
  }

  /** One line of the ranking: its 1-based position and the analyst. */
  datatype Ranked = Ranked(rank: nat, analista: DpaAnalista)

  function PctOf(): DpaAnalista -> Key
  {
    (a: DpaAnalista) => a.pct
  }

  function Rank(s: seq<DpaAnalista>): (r: seq<Ranked>)
    ensures |r| == |s| && forall i :: 0 <= i < |s| ==> r[i] == Ranked(i + 1, s[i])
  {
    seq(|s|, i requires 0 <= i < |s| => Ranked(i + 1, s[i]))
  }

  /** The entries parsed from the lines after the header line; none without a header. */
  function EntriesBelow(ls: seq<Line>): seq<DpaEntry>
  {
    match HeaderIndex(ls)
    case None => []
    case Some(h) => Entries(ls[h + 1..])
  }

  /** The analysts below the header who are on the roster, by DPA% descending, NaN last. */
  function Ranking(ls: seq<Line>, base: seq<Employee>): seq<DpaAnalista>
  {
    SortByKey(JoinRoster(EntriesBelow(ls), base), PctOf(), false)
  }

  /** The result of _dpa_extract_analistas as a function of the sheet's lines and the roster. */
  function AnalistasOf(ls: seq<Line>, base: seq<Employee>): seq<Ranked>
  {
    Rank(Ranking(ls, base))
  }

  /** _dpa_extract_analistas. */
  method ExtractAnalistas(raw: seq<RawRow>, base: seq<Employee>) returns (out: seq<Ranked>)
    ensures out == AnalistasOf(Lines(raw, 28), base)
  {
    ghost var ls := Lines(raw, 28);
    var h := FindHeader(raw);
    if h.None? {
      assert EntriesBelow(ls) == [];
      return [];
    }
    var es := CollectEntries(raw, h.value + 1);
    BelowIs(ls, h.value);
    assert AnalistasOf(ls, base) == Rank(SortByKey(JoinRoster(es, base), PctOf(), false));
    if es == [] {
      return [];
    }
    var joined := JoinRoster(es, base);
    var sorted := SortByKey(joined, PctOf(), false);
    out := Rank(sorted);
  }

  /** Without a header line there is no result. */
  lemma AnalistasWithoutHeader(ls: seq<Line>, base: seq<Employee>)
    requires forall i :: 0 <= i < |ls| ==> ls[i].text != HEADER
    ensures AnalistasOf(ls, base) == []
  {
  }

  /** A ranked analyst is one of the analysts ranked. */
  lemma RankMember(s: seq<DpaAnalista>, t: Ranked)
    requires t in Rank(s)
    ensures t.analista in s
  {
    var r := Rank(s);
    var i :| 0 <= i < |r| && r[i] == t;
    assert s[i] == t.analista;
  }

  /** A ranked analyst is a joined line below the header. */
  lemma RankingJoined(ls: seq<Line>, base: seq<Employee>, a: DpaAnalista)
    requires a in Ranking(ls, base)
    ensures a in JoinRoster(EntriesBelow(ls), base)
  {
    SortedMember(JoinRoster(EntriesBelow(ls), base), PctOf(), false, a);
  }

  /** Every ranked analyst is a roster member, with the roster's name and sector. */
  lemma AnalistasInRoster(ls: seq<Line>, base: seq<Employee>, t: Ranked)
    requires t in AnalistasOf(ls, base)
    ensures exists emp :: (emp in base && emp.matricula == t.analista.login &&
      emp.nome == t.analista.nome && emp.setor == t.analista.setor)
  {
    RankMember(Ranking(ls, base), t);
    RankingJoined(ls, base, t.analista);
    JoinRosterMember(EntriesBelow(ls), base, t.analista);
  }

  /** An entry parsed below line `h` comes from a line after `h`. */
  lemma EntryBelow(ls: seq<Line>, h: nat, e: DpaEntry)
    requires h < |ls| && e in Entries(ls[h + 1..])
    ensures exists j :: h < j < |ls| && ParseEntry(ls[j]) == Some(e)
  {
    EntriesFromLines(ls[h + 1..], e);
    var j :| 0 <= j < |ls[h + 1..]| && ParseEntry(ls[h + 1..][j]) == Some(e);
    assert ls[h + 1..][j] == ls[h + 1 + j];
  }

  /** An entry below the header comes from a kept line after the header line. */
  lemma EntryBelowHeader(ls: seq<Line>, e: DpaEntry)
    requires e in EntriesBelow(ls)
    ensures exists h: nat, j :: (HeaderIndex(ls) == Some(h) && h < j < |ls| && ParseEntry(ls[j]) == Some(e))
  {
    var h := BelowHeader(ls, e);
    EntryBelow(ls, h, e);
    var j :| h < j < |ls| && ParseEntry(ls[j]) == Some(e);
  }

  /** Entries below the header exist only when there is a header line. */
  lemma BelowHeader(ls: seq<Line>, e: DpaEntry) returns (h: nat)
    requires e in EntriesBelow(ls)
    ensures HeaderIndex(ls) == Some(h) && h < |ls| && e in Entries(ls[h + 1..])
  {
    match HeaderIndex(ls)
    case None =>
      assert false;
    case Some(k) =>
      h := k;
  }

  /** Every ranked analyst comes from a kept line below the header: a real login and a readable column 28. */
  lemma AnalistasFromLines(ls: seq<Line>, base: seq<Employee>, t: Ranked)
    requires t in AnalistasOf(ls, base)
    ensures exists h: nat, j :: (HeaderIndex(ls) == Some(h) && h < j < |ls| &&
      ParseEntry(ls[j]) == Some(DpaEntry(t.analista.login, t.analista.pct)))
  {
    RankMember(Ranking(ls, base), t);
    RankingJoined(ls, base, t.analista);
    JoinRosterMember(EntriesBelow(ls), base, t.analista);
    EntryBelowHeader(ls, DpaEntry(t.analista.login, t.analista.pct));
  }

  /** Every analyst ranked gets a line of the ranking. */
  lemma RankComplete(s: seq<DpaAnalista>, a: DpaAnalista)
    requires a in s
    ensures exists t :: t in Rank(s) && t.analista == a
  {
    var i :| 0 <= i < |s| && s[i] == a;
    assert Rank(s)[i].analista == a;
  }

  /** A kept line after line `h` contributes its entry to the entries below `h`. */
  lemma EntryOfLineBelow(ls: seq<Line>, h: nat, j: nat)
    requires h < j < |ls| && ParseEntry(ls[j]).Some?
    ensures ParseEntry(ls[j]).value in Entries(ls[h + 1..])
  {
    assert ls[h + 1..][j - h - 1] == ls[j];
    EntriesOfLines(ls[h + 1..], j - h - 1);
  }

  /** A kept line after the header line contributes its entry to the entries below the header. */
  lemma LineBelowHeader(ls: seq<Line>, j: nat)
    requires HeaderIndex(ls).Some? && HeaderIndex(ls).value < j < |ls| && ParseEntry(ls[j]).Some?
    ensures ParseEntry(ls[j]).value in EntriesBelow(ls)
  {
    var h := HeaderIndex(ls).value;
    BelowIs(ls, h);
    EntryOfLineBelow(ls, h, j);
  }

  /** With the header at line `h`, the entries below it are those parsed after `h`. */
  lemma BelowIs(ls: seq<Line>, h: nat)
    requires HeaderIndex(ls) == Some(h)
    ensures EntriesBelow(ls) == Entries(ls[h + 1..])
  {
  }

  /**
   * Conversely, every kept line below the header whose login is on the
   * roster is ranked, once for each roster member with that login.
   */
  lemma AnalistasComplete(ls: seq<Line>, base: seq<Employee>, j: nat, emp: Employee)
    requires HeaderIndex(ls).Some? && HeaderIndex(ls).value < j < |ls|
    requires ParseEntry(ls[j]).Some? && emp in base && emp.matricula == ParseEntry(ls[j]).value.login
    ensures exists t :: (t in AnalistasOf(ls, base) &&
      t.analista == DpaAnalista(emp.matricula, emp.nome, emp.setor, ParseEntry(ls[j]).value.pct))
  {
    LineBelowHeader(ls, j);
    AnalistaOfEntry(ls, base, ParseEntry(ls[j]).value, emp);
  }

  /** An entry below the header is ranked once for each roster member with its login. */
  lemma AnalistaOfEntry(ls: seq<Line>, base: seq<Employee>, e: DpaEntry, emp: Employee)
    requires e in EntriesBelow(ls) && emp in base && emp.matricula == e.login
    ensures exists t :: t in AnalistasOf(ls, base) && t.analista == DpaAnalista(emp.matricula, emp.nome, emp.setor, e.pct)
  {
    var es := EntriesBelow(ls);
    var k :| 0 <= k < |es| && es[k] == e;
    JoinRosterComplete(es, base, k, emp);
    var a := DpaAnalista(e.login, emp.nome, emp.setor, e.pct);
    SortedMember(JoinRoster(es, base), PctOf(), false, a);
    RankComplete(Ranking(ls, base), a);
  }

  /** The ranking is by DPA% descending with unreadable (NaN) values last, numbered from 1. */
  lemma AnalistasOrder(ls: seq<Line>, base: seq<Employee>)
    ensures var out := AnalistasOf(ls, base);
      (forall i :: 0 <= i < |out| ==> out[i].rank == i + 1) &&
      (forall i, j :: 0 <= i < j < |out| ==> KeyLe(out[i].analista.pct, out[j].analista.pct, false))
  {
  }
}
