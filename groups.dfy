/**
 * The two aggregation shapes behind the dashboard's breakdown tables:
 * "group by a key column, sum a volume and a compliant count, sort by
 * volume" (etit_por_*, res_por_*) and "count the rows per key"
 * (toa_canceladas_por_*), plus the configured ordering of aging buckets.
 * pandas' groupby drops rows whose key is NaN; the model keeps the groups
 * in order of first appearance.
 */
module Groups {
  import opened Wrappers
  import opened Seqs
  import opened Frames

  /** Mask: the key column holds a value (groupby drops NaN keys). */
  function HasKey(col: string): Row -> bool
  {
    r => At(r, col) != Empty
  }

  function KeyOf(col: string): Row -> Cell
  {
    r => At(r, col)
  }

  /** The contribution of a row to a pandas column sum. */
  function ValueOf(col: string): Row -> real
  {
    r => NumOr0(At(r, col))
  }

  /** The distinct non-missing keys of `col`, in order of first appearance. */
  function GroupKeys(rows: seq<Row>, col: string): (ks: seq<Cell>)
    ensures NoDup(ks)
    ensures forall k :: k in ks ==> k != Empty && exists r :: r in rows && At(r, col) == k
    ensures forall i :: 0 <= i < |rows| && At(rows[i], col) != Empty ==> At(rows[i], col) in ks
  {
    var keyed := Filter(rows, HasKey(col));
    var m := MapSeq(keyed, KeyOf(col));
    assert forall k :: k in m ==> k != Empty && exists r :: r in rows && At(r, col) == k by {
      forall k | k in m ensures k != Empty && exists r :: r in rows && At(r, col) == k {
        var i :| 0 <= i < |m| && m[i] == k;
        assert keyed[i] in keyed;
      }
    }
    assert forall i :: 0 <= i < |rows| && At(rows[i], col) != Empty ==> At(rows[i], col) in m by {
      forall i | 0 <= i < |rows| && At(rows[i], col) != Empty ensures At(rows[i], col) in m {
        assert HasKey(col)(rows[i]);
        assert rows[i] in keyed;
        var j :| 0 <= j < |keyed| && keyed[j] == rows[i];
        assert m[j] == At(rows[i], col);
      }
    }
    Dedup(m)
  }

  /** `part / whole * 100`, undefined (None) when the whole is zero. */
  function Pct(part: real, whole: real): (p: Option<real>)
    ensures p.None? <==> whole == 0.0
    ensures 0.0 <= part <= whole && whole > 0.0 ==> p.Some? && 0.0 <= p.value <= 100.0
  {
    if whole == 0.0 then None
    else
      PctBounds(part, whole);
      Some(part / whole * 100.0)
  }

  lemma PctBounds(part: real, whole: real)
    requires whole != 0.0
    ensures 0.0 <= part <= whole && whole > 0.0 ==> 0.0 <= part / whole * 100.0 <= 100.0
  {
    if 0.0 <= part <= whole && whole > 0.0 {
      assert part / whole <= 1.0 by {
        assert part / whole * whole == part;
      }
    }
  }

  /** One row of a group-sum breakdown. */
  datatype GroupTotal = GroupTotal(key: Cell, volume: real, aderentes: real, pct: Option<real>)

  /** The totals of the rows whose key is `k`. */
  function TotalOf(rows: seq<Row>, keyCol: string, k: Cell, volCol: string, aderCol: string): GroupTotal
  {
    var sub := Filter(rows, CellIs(keyCol, k));
    var vol := Sum(sub, ValueOf(volCol));
    var ader := Sum(sub, ValueOf(aderCol));
    GroupTotal(k, vol, ader, Pct(ader, vol))
  }

  function TotalAt(rows: seq<Row>, keyCol: string, volCol: string, aderCol: string): Cell -> GroupTotal
  {
    k => TotalOf(rows, keyCol, k, volCol, aderCol)
  }

  /** Per key: the summed volume and compliant count with their percentage, one row per key. */
  function GroupTotals(rows: seq<Row>, keyCol: string, volCol: string, aderCol: string): (g: seq<GroupTotal>)
    ensures |g| == |GroupKeys(rows, keyCol)|
    ensures forall i :: 0 <= i < |g| ==> g[i] == TotalOf(rows, keyCol, GroupKeys(rows, keyCol)[i], volCol, aderCol)
  {
    MapSeq(GroupKeys(rows, keyCol), TotalAt(rows, keyCol, volCol, aderCol))
  }

  function VolumeKey(): GroupTotal -> Key
  {
    (g: GroupTotal) => Val(g.volume)
  }

  /** No two rows of a breakdown share a key. */
  predicate DistinctKeys(g: seq<GroupTotal>)
  {
    forall i, j :: 0 <= i < j < |g| ==> g[i].key != g[j].key
  }

  /**
   * The breakdown sorted by volume, largest first: one row per non-missing
   * key of the input, each with the totals of exactly that key's rows.
   */
  function GroupSumDesc(rows: seq<Row>, keyCol: string, volCol: string, aderCol: string): (g: seq<GroupTotal>)
    ensures SortedBy(g, VolumeKey(), false)
    ensures DistinctKeys(g)
    ensures forall t :: t in g ==> t.key != Empty && t == TotalOf(rows, keyCol, t.key, volCol, aderCol)
    ensures forall i :: 0 <= i < |rows| && At(rows[i], keyCol) != Empty ==>
      exists t :: t in g && t.key == At(rows[i], keyCol)
  {
    SortedTotals(rows, keyCol, volCol, aderCol);
    SortByKey(GroupTotals(rows, keyCol, volCol, aderCol), VolumeKey(), false)
  }

  /** Sorting the totals keeps one row per key, each with its key's totals. */
  lemma SortedTotals(rows: seq<Row>, keyCol: string, volCol: string, aderCol: string)
    ensures var g := SortByKey(GroupTotals(rows, keyCol, volCol, aderCol), VolumeKey(), false);
      DistinctKeys(g) &&
      (forall t :: t in g ==> t.key != Empty && t == TotalOf(rows, keyCol, t.key, volCol, aderCol)) &&
      forall i :: 0 <= i < |rows| && At(rows[i], keyCol) != Empty ==>
        exists t :: t in g && t.key == At(rows[i], keyCol)
  {
    var ks := GroupKeys(rows, keyCol);
    var u := GroupTotals(rows, keyCol, volCol, aderCol);
    var g := SortByKey(u, VolumeKey(), false);
    assert DistinctKeys(u);
    DistinctKeysPermutation(u, g);
    forall t | t in g ensures t.key != Empty && t == TotalOf(rows, keyCol, t.key, volCol, aderCol) {
      assert t in multiset(u);
      var i :| 0 <= i < |u| && u[i] == t;
      assert ks[i] in ks;
    }
    forall i | 0 <= i < |rows| && At(rows[i], keyCol) != Empty
      ensures exists t :: t in g && t.key == At(rows[i], keyCol)
    {
      var j :| 0 <= j < |ks| && ks[j] == At(rows[i], keyCol);
      assert u[j] in multiset(g);
    }
  }

  /** Reordering a breakdown keeps its keys distinct. */
  lemma DistinctKeysPermutation(a: seq<GroupTotal>, b: seq<GroupTotal>)
    requires multiset(a) == multiset(b) && DistinctKeys(a)
    ensures DistinctKeys(b)
  {
    assert NoDup(a);
    PermutationNoDup(a, b);
    forall i, j | 0 <= i < j < |b| ensures b[i].key != b[j].key {
      KeyOfPermuted(a, b, i, j);
    }
  }

  lemma KeyOfPermuted(a: seq<GroupTotal>, b: seq<GroupTotal>, i: int, j: int)
    requires multiset(a) == multiset(b) && DistinctKeys(a) && NoDup(b)
    requires 0 <= i < j < |b|
    ensures b[i].key != b[j].key
  {
    assert b[i] in multiset(a) && b[j] in multiset(a);
    var p :| 0 <= p < |a| && a[p] == b[i];
    var q :| 0 <= q < |a| && a[q] == b[j];
    assert b[i] != b[j];
  }

  /** The sum of `f` over the rows with key `k`, added up over the keys `ks`. */
  function SumPerKey(rows: seq<Row>, col: string, ks: seq<Cell>, f: Row -> real): real
  {
    if ks == [] then 0.0
    else Sum(Filter(rows, CellIs(col, ks[0])), f) + SumPerKey(rows, col, ks[1..], f)
  }

  /** What one row contributes to SumPerKey: its value once if its key is listed. */
  lemma {:induction false} SumPerKeyOne(r: Row, col: string, ks: seq<Cell>, f: Row -> real)
    requires NoDup(ks)
    ensures SumPerKey([r], col, ks, f) == if At(r, col) in ks then f(r) else 0.0
  {
    if ks != [] {
      assert NoDup(ks[1..]);
      SumPerKeyOne(r, col, ks[1..], f);
      var sub := Filter([r], CellIs(col, ks[0]));
      assert [r][1..] == [];
      if At(r, col) == ks[0] {
        assert sub == [r];
        assert Sum(sub, f) == f(r) + Sum([], f);
        assert At(r, col) !in ks[1..];
      } else {
        assert sub == [];
        assert At(r, col) in ks <==> At(r, col) in ks[1..];
      }
    }
  }

  /** SumPerKey splits over a row prepended to the rows. */
  lemma {:induction false} SumPerKeyCons(r: Row, rows: seq<Row>, col: string, ks: seq<Cell>, f: Row -> real)
    ensures SumPerKey([r] + rows, col, ks, f) == SumPerKey([r], col, ks, f) + SumPerKey(rows, col, ks, f)
  {
    if ks != [] {
      FilterConcat([r], rows, CellIs(col, ks[0]));
      SumConcat(Filter([r], CellIs(col, ks[0])), Filter(rows, CellIs(col, ks[0])), f);
      SumPerKeyCons(r, rows, col, ks[1..], f);
    }
  }

  lemma {:induction false} SumConcat<T>(a: seq<T>, b: seq<T>, f: T -> real)
    ensures Sum(a + b, f) == Sum(a, f) + Sum(b, f)
  {
    if a == [] {
      assert a + b == b;
    } else {
      assert (a + b)[0] == a[0];
      assert (a + b)[1..] == a[1..] + b;
      SumConcat(a[1..], b, f);
    }
  }

  /**
   * Conservation: when the keys are exactly the distinct keys of the rows,
   * the per-key sums add up to the sum over all keyed rows; no row is lost
   * or counted twice by the grouping.
   */
  lemma {:induction false} SumPerKeyTotal(rows: seq<Row>, col: string, ks: seq<Cell>, f: Row -> real)
    requires NoDup(ks)
    requires forall k :: k in ks ==> k != Empty
    requires forall i :: 0 <= i < |rows| && At(rows[i], col) != Empty ==> At(rows[i], col) in ks
    ensures SumPerKey(rows, col, ks, f) == Sum(Filter(rows, HasKey(col)), f)
  {
    if rows == [] {
      SumPerKeyEmpty(col, ks, f);
    } else {
      var r := rows[0];
      assert rows == [r] + rows[1..];
      SumPerKeyCons(r, rows[1..], col, ks, f);
      SumPerKeyOne(r, col, ks, f);
      SumPerKeyTotal(rows[1..], col, ks, f);
      assert At(r, col) != Empty <==> At(r, col) in ks;
      FilterConcat([r], rows[1..], HasKey(col));
      var head := Filter([r], HasKey(col));
      SumConcat(head, Filter(rows[1..], HasKey(col)), f);
      assert [r][1..] == [];
      if At(r, col) != Empty {
        assert head == [r];
        assert Sum(head, f) == f(r) + Sum([], f);
      } else {
        assert head == [];
      }
    }
  }

  lemma {:induction false} SumPerKeyEmpty(col: string, ks: seq<Cell>, f: Row -> real)
    ensures SumPerKey([], col, ks, f) == 0.0
  {
    if ks != [] {
      SumPerKeyEmpty(col, ks[1..], f);
    }
  }

  /** The volumes of a group-sum breakdown, before sorting, add up to the volume of all keyed rows. */
  lemma GroupVolumesTotal(rows: seq<Row>, keyCol: string, volCol: string, aderCol: string)
    ensures Sum(GroupTotals(rows, keyCol, volCol, aderCol), (t: GroupTotal) => t.volume)
      == Sum(Filter(rows, HasKey(keyCol)), ValueOf(volCol))
  {
    var ks := GroupKeys(rows, keyCol);
    SumPerKeyTotal(rows, keyCol, ks, ValueOf(volCol));
    GroupVolumesAsPerKey(rows, keyCol, volCol, aderCol, ks);
  }

  lemma {:induction false} GroupVolumesAsPerKey(rows: seq<Row>, keyCol: string, volCol: string, aderCol: string, ks: seq<Cell>)
    ensures Sum(MapSeq(ks, TotalAt(rows, keyCol, volCol, aderCol)), (t: GroupTotal) => t.volume)
      == SumPerKey(rows, keyCol, ks, ValueOf(volCol))
  {
    if ks != [] {
      var m := MapSeq(ks, TotalAt(rows, keyCol, volCol, aderCol));
      assert m[1..] == MapSeq(ks[1..], TotalAt(rows, keyCol, volCol, aderCol));
      GroupVolumesAsPerKey(rows, keyCol, volCol, aderCol, ks[1..]);
    }
  }

  /** One row of a count-per-key breakdown. */
  datatype KeyCount = KeyCount(key: Cell, count: nat)

  function CountAt(rows: seq<Row>, col: string): Cell -> KeyCount
  {
    k => KeyCount(k, Count(rows, CellIs(col, k)))
  }

  /** Rows per key: every non-missing key once, with its number of rows (at least one). */
  function CountPer(rows: seq<Row>, col: string): (g: seq<KeyCount>)
    ensures |g| == |GroupKeys(rows, col)|
    ensures forall i :: 0 <= i < |g| ==> g[i].key == GroupKeys(rows, col)[i]
    ensures forall i :: 0 <= i < |g| ==> g[i].count == |Filter(rows, CellIs(col, g[i].key))| && g[i].count >= 1
  {
    var ks := GroupKeys(rows, col);
    var g := MapSeq(ks, CountAt(rows, col));
    forall i | 0 <= i < |g| ensures g[i].count >= 1 {
      assert ks[i] in ks;
      var r :| r in rows && At(r, col) == ks[i];
      assert CellIs(col, ks[i])(r);
    }
    g
  }

  function CountKey(): KeyCount -> Key
  {
    (c: KeyCount) => Val(c.count as real)
  }

  /** A count breakdown sorted by count, largest first (toa_canceladas_por_tipo and the like). */
  function CountPerDesc(rows: seq<Row>, col: string): (g: seq<KeyCount>)
    ensures multiset(g) == multiset(CountPer(rows, col))
    ensures SortedBy(g, CountKey(), false)
  {
    SortByKey(CountPer(rows, col), CountKey(), false)
  }

  /**
   * The position of `s` in the configured order as a dictionary from value
   * to position built over the order gives it: a repeated value keeps
   * its last position.
   */
  function LastIndex(order: seq<string>, s: string): (i: nat)
    requires s in order
    ensures i < |order| && order[i] == s
    ensures forall j :: i < j < |order| ==> order[j] != s
  {
    if order[|order| - 1] == s then |order| - 1
    else LastIndex(order[..|order| - 1], s)
  }

  /** A bucket listed in the configured order. */
  predicate Known(order: seq<string>, k: Cell)
  {
    k.Text? && k.s in order
  }

  /** The bucket's position in the order, or 99 for a bucket not in the order. */
  function AgingRank(order: seq<string>, k: Cell): real
  {
    if Known(order, k) then LastIndex(order, k.s) as real else 99.0
  }

  function AgingKey(order: seq<string>): KeyCount -> Key
  {
    (c: KeyCount) => Val(AgingRank(order, c.key))
  }

  /**
   * toa_canceladas_por_aging: the cancelled tasks counted per aging bucket,
   * in the configured bucket order; no table when there are no cancelled
   * tasks or no aging column, and a KeyError when the frame has no
   * indicator-name column to select the cancelled tasks by.
   */
  function AgingBreakdown(f: Frame, nomeCol: string, canceladas: string, agingCol: string, order: seq<string>): (g: Result<seq<KeyCount>>)
    ensures g.Err? <==> nomeCol !in f.columns
    ensures g.Ok? && (agingCol !in f.columns || Filter(f.rows, CellIs(nomeCol, Text(canceladas))) == []) ==> g.value == []
    ensures g.Ok? && agingCol in f.columns && Filter(f.rows, CellIs(nomeCol, Text(canceladas))) != [] ==>
      multiset(g.value) == multiset(CountPer(Filter(f.rows, CellIs(nomeCol, Text(canceladas))), agingCol))
    ensures g.Ok? ==> SortedBy(g.value, AgingKey(order), true)
  {
    if nomeCol !in f.columns then Err("KeyError: " + nomeCol)
    else
      var sub := Filter(f.rows, CellIs(nomeCol, Text(canceladas)));
      if sub == [] || agingCol !in f.columns then Ok([])
      else Ok(SortByKey(CountPer(sub, agingCol), AgingKey(order), true))
  }

  /**
   * With fewer than 100 configured buckets, every known bucket comes before
   * every unknown one, and known buckets follow the configured order.
   */
  lemma AgingOrder(g: seq<KeyCount>, order: seq<string>, i: int, j: int)
    requires SortedBy(g, AgingKey(order), true)
    requires |order| <= 99
    requires 0 <= i < |g| && 0 <= j < |g| && Known(order, g[i].key)
    ensures !Known(order, g[j].key) ==> i < j
    ensures Known(order, g[j].key) && LastIndex(order, g[i].key.s) < LastIndex(order, g[j].key.s) ==> i < j
  {
    if j <= i {
      if j < i {
        assert KeyLe(AgingKey(order)(g[j]), AgingKey(order)(g[i]), true);
      }
    }
  }
}
