/**
 * The tabular model the loaders work on: a cell is a number, a text or
 * missing (pandas' NaN); a row maps column names to cells; a frame is its
 * column list and its rows. Also the cell coercions that the loaders use:
 * astype(str), float() and pd.to_numeric(errors="coerce").
 */
module Frames {
  import opened Wrappers
  import opened Text
  import opened Seqs

  datatype Cell = Num(n: real) | Text(s: string) | Empty

  type Row = map<string, Cell>

  datatype Frame = Frame(columns: seq<string>, rows: seq<Row>)

  /** One member of the team roster: matricula (login), name and sector. */
  datatype Employee = Employee(matricula: string, nome: string, setor: string)

  /** The cell of column `c`; a row without the column holds NaN. */
  function At(r: Row, c: string): Cell
  {
    if c in r then r[c] else Empty
  }

  /** pandas' `df.empty`: the frame has no rows or no columns. */
  predicate IsEmpty(f: Frame)
  {
    |f.rows| == 0 || |f.columns| == 0
  }

  /** The set of matriculas of the roster (EQUIPE_IDS). */
  function TeamIds(base: seq<Employee>): (ids: set<string>)
    ensures forall e :: e in base ==> e.matricula in ids
    ensures forall id :: id in ids ==> exists e :: e in base && e.matricula == id
  {
    set e | e in base :: e.matricula
  }

  /** `astype(str)` / `str(x)` of a cell: NaN is written "nan" and a number as a float64 (Text.NumText). */
  function Str(c: Cell): string
  {
    match c
    case Text(s) => s
    case Empty => "nan"
    case Num(r) => NumText(r)
  }

  /** `str(row.get(k, ""))`: a missing position reads as the empty string. */
  function StrOr(c: Option<Cell>): string
  {
    match c
    case Some(x) => Str(x)
    case None => ""
  }

  /** A float value: a number or NaN. */
  datatype FloatValue = Number(r: real) | NaN

  function Pow10(n: nat): (p: nat)
    ensures p >= 1
  {
    if n == 0 then 1 else 10 * Pow10(n - 1)
  }

  predicate AllDigits(s: string)
  {
    forall i :: 0 <= i < |s| ==> IsDigit(s[i])
  }

  /** "nan" in any letter case. */
  predicate IsNanWord(s: string)
  {
    |s| == 3 && (s[0] == 'n' || s[0] == 'N') && (s[1] == 'a' || s[1] == 'A') && (s[2] == 'n' || s[2] == 'N')
  }

  /** Position of the first '.' in `s`, or |s| when there is none. */
  function DotIndex(s: string): (k: nat)
    ensures k <= |s|
    ensures k < |s| ==> s[k] == '.'
    ensures forall i :: 0 <= i < k ==> s[i] != '.'
  {
    if s == [] || s[0] == '.' then 0 else 1 + DotIndex(s[1..])
  }

  /** Unsigned decimal text: digits, optionally a '.' and more digits, at least one digit. */
  function UnsignedDecimal(s: string): Option<real>
  {
    var k := DotIndex(s);
    var ip := s[..k];
    var fp := if k < |s| then s[k + 1..] else "";
    if AllDigits(ip) && AllDigits(fp) && |ip| + |fp| > 0 then
      Some(DigitsValue(ip) as real + DigitsValue(fp) as real / Pow10(|fp|) as real)
    else None
  }

  /** Python's float() on a string: surrounding whitespace, a sign, "nan", or a decimal. */
  function FloatOfText(s: string): Option<FloatValue>
  {
    var t := Trim(s);
    var neg := t != [] && t[0] == '-';
    var body := if t != [] && (t[0] == '-' || t[0] == '+') then t[1..] else t;
    if IsNanWord(body) then Some(NaN)
    else match UnsignedDecimal(body)
      case Some(v) => Some(Number(if neg then -v else v))
      case None => None
  }

  /**
   * Python's float() on a cell fetched with row.get(k, None): a missing
   * position raises TypeError and unreadable text raises ValueError (both None).
   */
  function ToFloat(c: Option<Cell>): (r: Option<FloatValue>)
    ensures c == None ==> r == None
    ensures c == Some(Empty) ==> r == Some(NaN)
    ensures forall x: real :: c == Some(Num(x)) ==> r == Some(Number(x))
  {
    match c
    case None => None
    case Some(Empty) => Some(NaN)
    case Some(Num(x)) => Some(Number(x))
    case Some(Text(s)) => FloatOfText(s)
  }

  /** A string of digits has no '.'. */
  lemma {:induction false} DotIndexOfDigits(s: string)
    requires AllDigits(s)
    ensures DotIndex(s) == |s|
  {
    if s != [] {
      assert s[0] != '.';
      assert AllDigits(s[1..]) by {
        forall i | 0 <= i < |s[1..]| ensures IsDigit(s[1..][i]) {
          assert s[1..][i] == s[i + 1];
        }
      }
      DotIndexOfDigits(s[1..]);
    }
  }

  /** Writing a natural number and reading it back with float() gives the number. */
  lemma NatTextFloat(n: nat)
    ensures FloatOfText(NatText(n)) == Some(Number(n as real))
  {
    var s := NatText(n);
    assert IsDigit(s[0]) && IsDigit(s[|s| - 1]);
    TrimOfTrimmed(s);
    assert Trim(s) == s;
    assert !IsNanWord(s);
    DotIndexOfDigits(s);
    assert s[..|s|] == s;
    NatTextRoundTrip(n);
    assert UnsignedDecimal(s) == Some(n as real + 0 as real / 1 as real);
  }

  /** pd.to_numeric(errors="coerce") on a cell: text that does not read as a number becomes NaN. */
  function ToNumeric(c: Cell): (r: Cell)
    ensures r.Num? || r.Empty?
    ensures c.Num? ==> r == c
  {
    match c
    case Text(s) =>
      (match FloatOfText(s)
       case Some(Number(x)) => Num(x)
       case _ => Empty)
    case _ => c
  }

  /** What a numeric cell adds to a pandas sum (NaN is skipped). */
  function NumOr0(c: Cell): real
  {
    if c.Num? then c.n else 0.0
  }

  /** A column list after `df[c] = ...`: an existing column keeps its place, a new one is appended. */
  function WithColumn(cols: seq<string>, c: string): (r: seq<string>)
    ensures c in r
    ensures forall x :: x in cols ==> x in r
    ensures forall x :: x in r ==> x in cols || x == c
  {
    if c in cols then cols else cols + [c]
  }

  /** The frame restricted to the rows that satisfy `p` (a boolean mask). */
  function Where(f: Frame, p: Row -> bool): (g: Frame)
    ensures g.columns == f.columns
    ensures forall r :: r in g.rows ==> r in f.rows && p(r)
    ensures forall r :: r in f.rows && p(r) ==> r in g.rows
  {
    Frame(f.columns, Filter(f.rows, p))
  }

  /** Mask: the cell of `col` equals `v` (pandas `df[col] == v`). */
  function CellIs(col: string, v: Cell): Row -> bool
  {
    r => At(r, col) == v
  }

  /** Mask: the cell of `col` is a text in `names` (pandas `df[col].isin(names)`). */
  function TextIn(col: string, names: set<string>): Row -> bool
  {
    r => At(r, col).Text? && At(r, col).s in names
  }

  /** Column update: replaces the cell of `col` in every row by `g` of the row. */
  function SetColumn(f: Frame, col: string, g: Row -> Cell): (h: Frame)
    ensures h.columns == WithColumn(f.columns, col)
    ensures |h.rows| == |f.rows|
    ensures forall i :: 0 <= i < |f.rows| ==> h.rows[i] == f.rows[i][col := g(f.rows[i])]
  {
    Frame(WithColumn(f.columns, col), MapSeq(f.rows, (r: Row) => r[col := g(r)]))
  }

  lemma ToNumericIdempotent(c: Cell)
    ensures ToNumeric(ToNumeric(c)) == ToNumeric(c)
  {
  }

  /** The coerced cell of column `c`. */
  function NumericOf(c: string): Row -> Cell
  {
    r => ToNumeric(At(r, c))
  }

  /**
   * Numeric coercion, unreadable text becoming NaN, of every listed column
   * present in the frame: exactly those columns are coerced, every other
   * cell is left alone.
   */
  function CoerceNumeric(f: Frame, cols: seq<string>): (g: Frame)
    ensures g.columns == f.columns
    ensures |g.rows| == |f.rows|
    ensures forall i, k :: 0 <= i < |f.rows| ==>
      At(g.rows[i], k) == if k in cols && k in f.columns then ToNumeric(At(f.rows[i], k)) else At(f.rows[i], k)
    decreases |cols|
  {
    if cols == [] then f
    else
      var c := cols[0];
      var f1 := if c in f.columns then SetColumn(f, c, NumericOf(c)) else f;
      var g := CoerceNumeric(f1, cols[1..]);
      assert forall k :: k in cols <==> k == c || k in cols[1..];
      forall i, k | 0 <= i < |f.rows|
        ensures At(g.rows[i], k) == if k in cols && k in f.columns then ToNumeric(At(f.rows[i], k)) else At(f.rows[i], k)
      {
        ToNumericIdempotent(At(f.rows[i], k));
      }
      g
  }
}
