/**
 * Worksheet selection shared by load_produtividade, load_etit and
 * load_residencial_indicadores: the first candidate name present in the
 * workbook, else the workbook's first sheet.
 */
module Workbook {
  import opened Wrappers

  /** The same choice as a value, for the loaders' contracts to refer to. */
  function SheetChoice(sheets: seq<string>, candidates: seq<string>): Option<string>
    decreases |candidates|
  {
    if candidates == [] then (if sheets == [] then None else Some(sheets[0]))
    else if candidates[0] in sheets then Some(candidates[0])
    else SheetChoice(sheets, candidates[1..])
  }

  /**
   * Walks the candidates in order and stops at the first one that is a sheet
   * name; without a match it takes sheets[0]. An empty sheet list is the
   * IndexError of `sheets[0]` (None).
   */
  method SelectSheet(sheets: seq<string>, candidates: seq<string>) returns (sheet: Option<string>)
    ensures sheet.Some? <==> sheets != []
    ensures sheet.Some? ==> sheet.value in sheets
    ensures forall k :: 0 <= k < |candidates| && candidates[k] in sheets ==>
      exists j :: 0 <= j <= k && candidates[j] in sheets && sheet == Some(candidates[j]) &&
        forall i :: 0 <= i < j ==> candidates[i] !in sheets
    ensures sheets != [] && (forall k :: 0 <= k < |candidates| ==> candidates[k] !in sheets) ==>
      sheet == Some(sheets[0])
    ensures sheet == SheetChoice(sheets, candidates)
  {
    var chosen: Option<string> := None;
    var i := 0;
    while i < |candidates|
      invariant 0 <= i <= |candidates|
      invariant chosen == None
      invariant forall j :: 0 <= j < i ==> candidates[j] !in sheets
      invariant SheetChoice(sheets, candidates[i..]) == SheetChoice(sheets, candidates)
    {
      assert candidates[i..][1..] == candidates[i + 1..];
      if candidates[i] in sheets {
        chosen := Some(candidates[i]);
        break;
      }
      i := i + 1;
    }
    if chosen == None {
      assert candidates[i..] == [];
      if sheets == [] {
        sheet := None;
      } else {
        sheet := Some(sheets[0]);
      }
    } else {
      assert candidates[i] in sheets && forall j :: 0 <= j < i ==> candidates[j] !in sheets;
      sheet := chosen;
    }
  }
}
