/** Nested form parameters (src/model/params.rs): a tree of scalars, lists and maps that is
    updated in place along a path of segments, where an empty segment means "append". */
module Params {
  import opened Prelude
  import opened ParamKeys

  datatype ParamValue =
    | Null
    | Scalar(raw: string)
    | List(items: seq<ParamValue>)
    | Map(entries: map<string, ParamValue>)

  type Path = seq<string>

  function ContainerFor(rest: Path): ParamValue {
    if rest != [] && rest[0] == "" then List([]) else Map(map[])
  }

  /** `as_list_mut` and `as_map_mut`: anything else is replaced by an empty container. */
  function ListItems(v: ParamValue): seq<ParamValue> {
    if v.List? then v.items else []
  }

  function MapEntries(v: ParamValue): map<string, ParamValue> {
    if v.Map? then v.entries else map[]
  }

  predicate CanInsert(v: ParamValue, segments: Path)
    decreases |segments|
  {
    if segments == [] then false
    else if segments[0] == "" then v.List?
    else if |segments| == 1 then v.Map? && segments[0] !in v.entries
    else v.Map? && (segments[0] in v.entries ==> CanInsert(v.entries[segments[0]], segments[1..]))
  }

  /** Whether appending along `rest` goes into the last item instead of a new one. */
  predicate Merges(items: seq<ParamValue>, rest: Path) {
    items != [] && CanInsert(items[|items| - 1], rest)
  }

  function Child(v: ParamValue, key: string, rest: Path): ParamValue {
    if key in MapEntries(v) then MapEntries(v)[key] else ContainerFor(rest)
  }

  /** The tree after `insert_path`. */
  function Insert(v: ParamValue, segments: Path, x: ParamValue): ParamValue
    decreases |segments|
  {
    if segments == [] then x
    else
      var rest := segments[1..];
      if segments[0] == "" then
        var items := ListItems(v);
        if rest == [] then List(items + [x])
        else if Merges(items, rest) then
          List(items[..|items| - 1] + [Insert(items[|items| - 1], rest, x)])
        else List(items + [Insert(ContainerFor(rest), rest, x)])
      else if rest == [] then Map(MapEntries(v)[segments[0] := x])
      else Map(MapEntries(v)[segments[0] := Insert(Child(v, segments[0], rest), rest, x)])
  }

  /** The value at a path of map keys: what `take_path` returns. */
  function Lookup(v: ParamValue, path: Path): Option<ParamValue>
    decreases |path|
  {
    if path == [] || !v.Map? || path[0] !in v.entries then None
    else if |path| == 1 then Some(v.entries[path[0]])
    else Lookup(v.entries[path[0]], path[1..])
  }

  /** The tree `take_path` leaves behind. */
  function Without(v: ParamValue, path: Path): ParamValue
    decreases |path|
  {
    if path == [] || !v.Map? || path[0] !in v.entries then v
    else if |path| == 1 then Map(v.entries - {path[0]})
    else Map(v.entries[path[0] := Without(v.entries[path[0]], path[1..])])
  }

  /** `insert_entry` for each entry in turn. */
  function InsertAll(v: ParamValue, entries: seq<(string, ParamValue)>): ParamValue {
    if entries == [] then v
    else
      var last := entries[|entries| - 1];
      Insert(InsertAll(v, entries[..|entries| - 1]), Segments(last.0), last.1)
  }

  /** A mutable place in the tree.  Borrowing a child is moving it to a cell of its own and back. */
  class ParamCell {
    var value: ParamValue

    constructor (value: ParamValue)
      ensures this.value == value
    {
      this.value := value;
    }

    method InsertPath(segments: Path, x: ParamValue)
      modifies this
      ensures value == Insert(old(value), segments, x)
      decreases |segments|
    {
      if segments == [] {
        value := x;
        return;
      }
      var rest := segments[1..];
      if segments[0] == "" {
        if !value.List? {
          value := List([]);
        }
        var items := value.items;
        if rest == [] {
          value := List(items + [x]);
        } else if |items| > 0 && CanInsert(items[|items| - 1], rest) {
          var last := new ParamCell(items[|items| - 1]);
          last.InsertPath(rest, x);
          value := List(items[..|items| - 1] + [last.value]);
        } else {
          var child := new ParamCell(ContainerFor(rest));
          child.InsertPath(rest, x);
          value := List(items + [child.value]);
        }
      } else {
        if !value.Map? {
          value := Map(map[]);
        }
        var entries, key := value.entries, segments[0];
        if rest == [] {
          value := Map(entries[key := x]);
        } else {
          var child := new ParamCell(if key in entries then entries[key] else ContainerFor(rest));
          child.InsertPath(rest, x);
          value := Map(entries[key := child.value]);
        }
      }
    }

    method TakePath(path: Path) returns (taken: Option<ParamValue>)
      modifies this
      ensures taken == Lookup(old(value), path)
      ensures value == Without(old(value), path)
      decreases |path|
    {
      if !value.Map? || path == [] {
        return None;
      }
      var entries, key := value.entries, path[0];
      if key !in entries {
        return None;
      }
      if |path| == 1 {
        value := Map(entries - {key});
        return Some(entries[key]);
      }
      var child := new ParamCell(entries[key]);
      taken := child.TakePath(path[1..]);
      value := Map(entries[key := child.value]);
    }

    method InsertEntry(key: string, x: ParamValue)
      modifies this
      ensures value == Insert(old(value), Segments(key), x)
    {
      var segments := ParamKeySegments(key);
      InsertPath(segments, x);
    }
  }

  /** The loop that reads a form into one tree before the model's fields are taken out of it. */
  method ReadForm(entries: seq<(string, ParamValue)>) returns (v: ParamValue)
    ensures v == InsertAll(Map(map[]), entries)
  {
    var cell := new ParamCell(Map(map[]));
    for i := 0 to |entries|
      invariant cell.value == InsertAll(Map(map[]), entries[..i])
    {
      cell.InsertEntry(entries[i].0, entries[i].1);
      assert entries[..i + 1][..i] == entries[..i];
    }
    assert entries[..|entries|] == entries;
    v := cell.value;
  }
}
