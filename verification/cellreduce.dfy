/** Shrinking query results before they are shown to the model: long
    strings are cut, and JSON lists are cut to their first few items at
    every level of nesting. */
module CellReduction {
  import opened Wrappers
  import opened Json

  /** The limits `reduce_dataframe_size` passes to `reduce_cell`. */
  const MaxStrLength := 100
  const MaxListLength := 3

  function Min(a: nat, b: nat): nat {
    if a <= b then a else b
  }

  // ===========================================================================
  // truncate_list and truncate_dict, as functions on values
  // ===========================================================================

  /** A value after truncation: lists and dicts are truncated, everything
      else is kept. */
  function Truncated(v: Value, maxLen: nat): Value
    decreases v, 1
  {
    match v
    case Arr(items) => Arr(TruncateList(items, maxLen))
    case Obj(fields) => Obj(TruncateDict(fields, maxLen))
    case _ => v
  }

  /** `truncate_list(lst, max_list_length)`: the first `max_list_length`
      items, each truncated in turn. */
  function TruncateList(items: seq<Value>, maxLen: nat): seq<Value>
    decreases Arr(items), 0
  {
    seq(Min(maxLen, |items|), i requires 0 <= i < Min(maxLen, |items|) =>
      assert items[i] in items; Truncated(items[i], maxLen))
  }

  /** `truncate_dict(dct, max_list_length)`: every value truncated in
      turn, keys and their order kept. */
  function TruncateDict(fields: seq<Field>, maxLen: nat): seq<Field>
    decreases Obj(fields), 0
  {
    seq(|fields|, k requires 0 <= k < |fields| =>
      assert fields[k] in fields; Field(fields[k].key, Truncated(fields[k].value, maxLen)))
  }

  /** No list anywhere inside the value holds more than `maxLen` items. */
  predicate Bounded(v: Value, maxLen: nat)
    decreases v
  {
    match v
    case Arr(items) => |items| <= maxLen && forall i :: 0 <= i < |items| ==> Bounded(items[i], maxLen)
    case Obj(fields) => forall k :: 0 <= k < |fields| ==> Bounded(fields[k].value, maxLen)
    case _ => true
  }

  /** `truncate_list` keeps the first `max_list_length` items and truncates
      each of them; scalars are left as they are. */
  lemma TruncateListFacts(items: seq<Value>, maxLen: nat)
    ensures var r := TruncateList(items, maxLen);
            |r| == Min(maxLen, |items|)
            && forall i :: 0 <= i < |r| ==>
                 r[i] == Truncated(items[i], maxLen)
                 && (!items[i].Arr? && !items[i].Obj? ==> r[i] == items[i])
  {
  }

  /** `truncate_dict` keeps the keys, in order, and truncates every value. */
  lemma TruncateDictFacts(fields: seq<Field>, maxLen: nat)
    ensures var r := TruncateDict(fields, maxLen);
            Keys(r) == Keys(fields)
            && forall k :: 0 <= k < |fields| ==> r[k].value == Truncated(fields[k].value, maxLen)
  {
  }

  /** After truncation no list at any depth is longer than the limit. */
  lemma {:induction false} TruncatedBounded(v: Value, maxLen: nat)
    ensures Bounded(Truncated(v, maxLen), maxLen)
    decreases v
  {
    match v
    case Arr(items) =>
      var r := TruncateList(items, maxLen);
      forall i | 0 <= i < |r| ensures Bounded(r[i], maxLen) {
        assert items[i] in items;
        TruncatedBounded(items[i], maxLen);
      }
    case Obj(fields) =>
      var r := TruncateDict(fields, maxLen);
      forall k | 0 <= k < |r| ensures Bounded(r[k].value, maxLen) {
        assert fields[k] in fields;
        TruncatedBounded(fields[k].value, maxLen);
      }
    case _ =>
  }

  /** A value whose lists are all within the limit is not changed. */
  lemma {:induction false} TruncatedBoundedUnchanged(v: Value, maxLen: nat)
    requires Bounded(v, maxLen)
    ensures Truncated(v, maxLen) == v
    decreases v
  {
    match v
    case Arr(items) =>
      var r := TruncateList(items, maxLen);
      forall i | 0 <= i < |items| ensures r[i] == items[i] {
        assert items[i] in items;
        TruncatedBoundedUnchanged(items[i], maxLen);
      }
      assert r == items;
    case Obj(fields) =>
      var r := TruncateDict(fields, maxLen);
      forall k | 0 <= k < |fields| ensures r[k] == fields[k] {
        assert fields[k] in fields;
        TruncatedBoundedUnchanged(fields[k].value, maxLen);
      }
      assert r == fields;
    case _ =>
  }

  /** Truncating twice is truncating once. */
  lemma TruncatedIdempotent(v: Value, maxLen: nat)
    ensures Truncated(Truncated(v, maxLen), maxLen) == Truncated(v, maxLen)
  {
    TruncatedBounded(v, maxLen);
    TruncatedBoundedUnchanged(Truncated(v, maxLen), maxLen);
  }

  // ===========================================================================
  // The loops of truncate_list and truncate_dict
  // ===========================================================================

  /** The loop of `truncate_list`: slice, then overwrite each dict or list
      item with its truncation. */
  method TruncateListMethod(lst: seq<Value>, maxLen: nat) returns (truncated: seq<Value>)
    ensures truncated == TruncateList(lst, maxLen)
    decreases Arr(lst)
  {
    truncated := lst[..Min(maxLen, |lst|)];
    for i := 0 to |truncated|
      invariant |truncated| == Min(maxLen, |lst|)
      invariant forall j :: 0 <= j < i ==> truncated[j] == Truncated(lst[j], maxLen)
      invariant forall j :: i <= j < |truncated| ==> truncated[j] == lst[j]
    {
      var item := truncated[i];
      assert item in lst;
      if item.Obj? {
        var d := new Dict(item.fields);
        var same := d.Truncate(maxLen);
        truncated := truncated[i := Obj(same.fields)];
      } else if item.Arr? {
        var inner := TruncateListMethod(item.items, maxLen);
        truncated := truncated[i := Arr(inner)];
      }
    }
  }

  /** A Python dict that `truncate_dict` updates in place. */
  class Dict {
    var fields: seq<Field>

    constructor(fields: seq<Field>)
      ensures this.fields == fields
    {
      this.fields := fields;
    }

    /** The loop of `truncate_dict`: each list or dict value is replaced by
        its truncation, in place; the dict itself is returned. */
    method Truncate(maxLen: nat) returns (same: Dict)
      modifies this
      ensures same == this
      ensures fields == TruncateDict(old(fields), maxLen)
      decreases Obj(fields), 1
    {
      ghost var start := fields;
      for k := 0 to |fields|
        invariant |fields| == |start|
        invariant forall j :: 0 <= j < k ==> fields[j] == Field(start[j].key, Truncated(start[j].value, maxLen))
        invariant forall j :: k <= j < |fields| ==> fields[j] == start[j]
      {
        var key := fields[k].key;
        var value := fields[k].value;
        assert fields[k] in start;
        if value.Arr? {
          var inner := TruncateListMethod(value.items, maxLen);
          fields := fields[k := Field(key, Arr(inner))];
        } else if value.Obj? {
          var nested := new Dict(value.fields);
          var same := nested.Truncate(maxLen);
          fields := fields[k := Field(key, Obj(same.fields))];
        }
      }
      same := this;
    }
  }

  // ===========================================================================
  // reduce_cell
  // ===========================================================================

  /** A dataframe cell: a string, or any other object with its `str()`. */
  datatype Cell = Text(s: string) | Other(repr: string)

  /** `json.loads` on a string: `None` when it is not valid JSON. Parsing is
      not part of this model. */
  type Loads = string -> Option<Value>

  /** `reduce_cell(cell, max_str_length, max_list_length)`: a JSON list is
      truncated and re-serialised, other JSON is re-serialised, and a cell
      that is not JSON (or not a string) is cut to `max_str_length`
      characters of its `str()`. */
  function ReduceCell(loads: Loads, floatRepr: real -> string, cell: Cell, maxStr: nat, maxList: nat): string {
    match cell
    case Other(repr) => repr[..Min(maxStr, |repr|)]
    case Text(s) =>
      match loads(s)
      case None => s[..Min(maxStr, |s|)]
      case Some(data) =>
        Dumps(if data.Arr? then Arr(TruncateList(data.items, maxList)) else data, floatRepr)
  }

  /** A cell that is not JSON gives a prefix of its text, at most
      `max_str_length` long. A JSON list gives the serialisation of a list
      no longer than `max_list_length` whose nested lists are bounded as
      well. Any other JSON value, a dict included, is serialised as it was
      parsed, with no truncation inside it. */
  lemma ReduceCellFacts(loads: Loads, floatRepr: real -> string, cell: Cell, maxStr: nat, maxList: nat)
    ensures var r := ReduceCell(loads, floatRepr, cell, maxStr, maxList);
            var text := if cell.Text? then cell.s else cell.repr;
            ((cell.Other? || loads(text).None?) ==> |r| <= maxStr && r == text[..|r|])
            && (cell.Text? && loads(text).Some? && loads(text).value.Arr? ==>
                  exists t :: r == Dumps(t, floatRepr) && t.Arr? && Bounded(t, maxList)
                              && |t.items| == Min(maxList, |loads(text).value.items|))
            && (cell.Text? && loads(text).Some? && !loads(text).value.Arr? ==>
                  r == Dumps(loads(text).value, floatRepr))
  {
    if cell.Text? && loads(cell.s).Some? && loads(cell.s).value.Arr? {
      var t := Truncated(loads(cell.s).value, maxList);
      TruncatedBounded(loads(cell.s).value, maxList);
      assert ReduceCell(loads, floatRepr, cell, maxStr, maxList) == Dumps(t, floatRepr);
    }
  }

  /** The lambda `reduce_dataframe_size` applies to every cell of an
      object column: `reduce_cell` with limits 100 and 3. A cell that is
      not JSON comes back at most 100 characters long, and a JSON list
      with at most 3 items. */
  function ReduceObjectCell(loads: Loads, floatRepr: real -> string, cell: Cell): (r: string)
    ensures (cell.Other? || loads(cell.s).None?) ==> |r| <= MaxStrLength
    ensures cell.Text? && loads(cell.s).Some? && loads(cell.s).value.Arr? ==>
              exists t :: r == Dumps(t, floatRepr) && t.Arr? && |t.items| <= MaxListLength
  {
    ReduceCellFacts(loads, floatRepr, cell, MaxStrLength, MaxListLength);
    ReduceCell(loads, floatRepr, cell, MaxStrLength, MaxListLength)
  }
}
