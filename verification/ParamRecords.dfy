/** Lists of records sent as `root[][key]` entries, one entry a field: when do they come back as
    the list that was sent? */
module ParamRecords {
  import opened Prelude
  import opened ParamKeys
  import opened Params
  import opened ParamTheorems

  /** A record in the order its fields are sent. */
  type Record = seq<(string, ParamValue)>

  predicate KeysDistinct(r: Record) {
    forall i, j :: 0 <= i < j < |r| ==> r[i].0 != r[j].0
  }

  predicate HasField(r: Record, key: string) {
    exists i :: 0 <= i < |r| && r[i].0 == key
  }

  predicate Sendable(r: Record) {
    r != [] && KeysDistinct(r) && forall i :: 0 <= i < |r| ==> r[i].0 != "" && ']' !in r[i].0
  }

  function RecordMap(r: Record): (m: map<string, ParamValue>)
    ensures forall k :: k in m <==> HasField(r, k)
  {
    if r == [] then map[]
    else
      var m := RecordMap(r[..|r| - 1])[r[|r| - 1].0 := r[|r| - 1].1];
      assert forall k :: HasField(r, k) <==> HasField(r[..|r| - 1], k) || k == r[|r| - 1].0;
      m
  }

  function Maps(records: seq<Record>): seq<ParamValue> {
    if records == [] then [] else Maps(records[..|records| - 1]) + [Map(RecordMap(records[|records| - 1]))]
  }

  function Fields(records: seq<Record>): Record {
    if records == [] then [] else Fields(records[..|records| - 1]) + records[|records| - 1]
  }

  function FirstKey(r: Record): string {
    if r == [] then "" else r[0].0
  }

  /** Every later record starts with a key of the one before. */
  predicate Chained(records: seq<Record>) {
    forall i :: 0 <= i < |records| - 1 ==> HasField(records[i], FirstKey(records[i + 1]))
  }

  function Entries(prefix: Path, fields: Record): seq<(string, ParamValue)>
    requires prefix != []
  {
    if fields == [] then []
    else Entries(prefix, fields[..|fields| - 1])
         + [(PrintKey(prefix + ["", fields[|fields| - 1].0]), fields[|fields| - 1].1)]
  }

  /* ---------- One field at a time ---------- */

  /** What `[][key]` does to a list. */
  function Put(items: seq<ParamValue>, key: string, x: ParamValue): seq<ParamValue>
    requires key != ""
  {
    if Merges(items, [key]) then items[..|items| - 1] + [Map(items[|items| - 1].entries[key := x])]
    else items + [Map(map[key := x])]
  }

  predicate Named(fields: Record) {
    forall i :: 0 <= i < |fields| ==> fields[i].0 != ""
  }

  function PutAll(items: seq<ParamValue>, fields: Record): seq<ParamValue>
    requires Named(fields)
  {
    if fields == [] then items
    else
      var last := fields[|fields| - 1];
      Put(PutAll(items, fields[..|fields| - 1]), last.0, last.1)
  }

  lemma {:induction false} PutAllAppend(items: seq<ParamValue>, a: Record, b: Record)
    requires Named(a) && Named(b)
    ensures Named(a + b) && PutAll(items, a + b) == PutAll(PutAll(items, a), b)
  {
    if b == [] {
      assert a + b == a;
    } else {
      PutAllAppend(items, a, b[..|b| - 1]);
      assert (a + b)[..|a + b| - 1] == a + b[..|b| - 1];
    }
  }

  /** A record whose first key does not merge becomes an item of its own. */
  lemma {:induction false} PutRecord(items: seq<ParamValue>, r: Record)
    requires Named(r) && r != [] && KeysDistinct(r) && !Merges(items, [r[0].0])
    ensures PutAll(items, r) == items + [Map(RecordMap(r))]
  {
    var front, last := r[..|r| - 1], r[|r| - 1];
    if front == [] {
      assert RecordMap(r) == map[last.0 := last.1];
    } else {
      PutRecord(items, front);
      var before := PutAll(items, front);
      assert !HasField(front, last.0);
      assert before[..|before| - 1] == items;
      assert before[|before| - 1] == Map(RecordMap(front));
    }
  }

  /** A key that reached an item stays there. */
  lemma {:induction false} PutAllKeeps(items: seq<ParamValue>, fields: Record, j: nat, key: string)
    requires Named(fields) && j < |items| && items[j].Map? && key in items[j].entries
    ensures var after := PutAll(items, fields); j < |after| && after[j].Map? && key in after[j].entries
  {
    if fields != [] {
      PutAllKeeps(items, fields[..|fields| - 1], j, key);
    }
  }

  lemma {:induction false} MapsAt(records: seq<Record>, j: nat)
    requires j < |records|
    ensures |Maps(records)| == |records| && Maps(records)[j] == Map(RecordMap(records[j]))
  {
    if j < |records| - 1 {
      MapsAt(records[..|records| - 1], j);
    } else if j > 0 {
      MapsAt(records[..|records| - 1], j - 1);
    } else {
      assert Maps(records[..0]) == [];
    }
  }

  predicate AllSendable(records: seq<Record>) {
    forall i :: 0 <= i < |records| ==> Sendable(records[i])
  }

  lemma {:induction false} FieldsNamed(records: seq<Record>)
    requires AllSendable(records)
    ensures Named(Fields(records))
    ensures forall i :: 0 <= i < |Fields(records)| ==> ']' !in Fields(records)[i].0
  {
    if records != [] {
      FieldsNamed(records[..|records| - 1]);
    }
  }

  /** A field ended up in a record that does not have it. */
  ghost predicate Strayed(items: seq<ParamValue>, records: seq<Record>) {
    exists j, key :: 0 <= j < |records| && j < |items| && Stray(items[j], records[j], key)
  }

  predicate Stray(item: ParamValue, r: Record, key: string) {
    item.Map? && key in item.entries && !HasField(r, key)
  }

  lemma StrayedDiffers(items: seq<ParamValue>, records: seq<Record>)
    requires Strayed(items, records)
    ensures items != Maps(records)
  {
    var j, key :| 0 <= j < |records| && j < |items| && Stray(items[j], records[j], key);
    MapsAt(records, j);
  }

  lemma FieldsSplit(records: seq<Record>)
    requires AllSendable(records) && records != []
    ensures var front := records[..|records| - 1];
            && AllSendable(front) && Named(Fields(front)) && Named(Fields(records)) && Named(records[|records| - 1])
            && PutAll([], Fields(records)) == PutAll(PutAll([], Fields(front)), records[|records| - 1])
  {
    var front := records[..|records| - 1];
    FieldsNamed(front);
    FieldsNamed(records);
    PutAllAppend([], Fields(front), records[|records| - 1]);
  }

  predicate Follows(front: seq<Record>, r: Record) {
    front == [] || HasField(front[|front| - 1], FirstKey(r))
  }

  lemma ChainedSplit(records: seq<Record>)
    requires records != []
    ensures var front, r := records[..|records| - 1], records[|records| - 1];
            Chained(records) <==> Chained(front) && Follows(front, r)
  {
  }

  /** When the records are chained the list comes back; when they are not, some record comes back
      with a field it never had. */
  ghost predicate ComesBack(items: seq<ParamValue>, records: seq<Record>) {
    if Chained(records) then items == Maps(records) else Strayed(items, records)
  }

  lemma OneMoreRecord(before: seq<ParamValue>, front: seq<Record>, r: Record)
    requires Sendable(r) && ComesBack(before, front)
    ensures Named(r) && ComesBack(PutAll(before, r), front + [r])
  {
    var records := front + [r];
    assert records[..|records| - 1] == front && records[|records| - 1] == r;
    ChainedSplit(records);
    if !Chained(front) {
      StrayStays(before, front, records, r);
    } else if Follows(front, r) {
      NextRecord(front, r);
    } else {
      FirstFieldStrays(front, r);
    }
  }

  lemma {:induction false} ListComesBack(records: seq<Record>)
    requires AllSendable(records)
    ensures Named(Fields(records)) && ComesBack(PutAll([], Fields(records)), records)
  {
    if records == [] {
      assert Fields(records) == [] && Maps(records) == [];
    } else {
      var front, r := records[..|records| - 1], records[|records| - 1];
      assert records == front + [r];
      FieldsSplit(records);
      assert Sendable(r) && AllSendable(front);
      ListComesBack(front);
      OneMoreRecord(PutAll([], Fields(front)), front, r);
    }
  }

  lemma NextRecord(front: seq<Record>, r: Record)
    requires Sendable(r) && Follows(front, r)
    ensures Named(r) && PutAll(Maps(front), r) == Maps(front) + [Map(RecordMap(r))]
  {
    DoesNotMerge(front, r[0].0);
    PutRecord(Maps(front), r);
  }

  lemma StrayStays(before: seq<ParamValue>, front: seq<Record>, records: seq<Record>, r: Record)
    requires Strayed(before, front) && front <= records && Named(r)
    ensures Strayed(PutAll(before, r), records)
  {
    var j, key :| 0 <= j < |front| && j < |before| && Stray(before[j], front[j], key);
    PutAllKeeps(before, r, j, key);
    assert records[j] == front[j];
    assert Stray(PutAll(before, r)[j], records[j], key);
  }

  lemma DoesNotMerge(front: seq<Record>, key: string)
    requires key != ""
    ensures Merges(Maps(front), [key]) <==> front != [] && !HasField(front[|front| - 1], key)
  {
    if front != [] {
      MapsAt(front, |front| - 1);
    }
  }

  lemma FirstFieldStrays(front: seq<Record>, r: Record)
    requires Sendable(r) && !Follows(front, r)
    ensures Named(r) && Strayed(PutAll(Maps(front), r), front + [r])
  {
    var items, key := Maps(front), r[0].0;
    DoesNotMerge(front, key);
    MapsAt(front, |front| - 1);
    var first := PutAll(items, [r[0]]);
    assert first == Put(PutAll(items, [r[0]][..0]), key, r[0].1);
    var j := |front| - 1;
    assert first[j].Map? && key in first[j].entries;
    assert Named(r[1..]) && [r[0]] + r[1..] == r;
    PutAllAppend(items, [r[0]], r[1..]);
    PutAllKeeps(first, r[1..], j, key);
    assert (front + [r])[j] == front[j];
    assert Stray(PutAll(items, r)[j], (front + [r])[j], key);
  }

  /* ---------- Inside the tree ---------- */

  lemma {:induction false} InsertThrough(v: ParamValue, p: Path, rest: Path, x: ParamValue)
    requires Keyed(p) && rest != []
    ensures var found := Lookup(v, p);
            Insert(v, p + rest, x)
                 == Insert(v, p, Insert(if found.Some? then found.value else ContainerFor(rest), rest, x))
    decreases |p|
  {
    assert p[0] in p;
    assert (p + rest)[1..] == p[1..] + rest;
    if |p| == 1 {
      assert p[1..] + rest == rest;
    } else {
      InsertThrough(Child(v, p[0], p[1..]), p[1..], rest, x);
      assert p[1] in p;
      assert (p + rest)[0] == p[0] && (p[1..] + rest)[0] == p[1];
    }
  }

  lemma {:induction false} InsertTwice(v: ParamValue, p: Path, a: ParamValue, b: ParamValue)
    requires Keyed(p)
    ensures Insert(Insert(v, p, a), p, b) == Insert(v, p, b)
    decreases |p|
  {
    assert p[0] in p;
    var entries := MapEntries(v);
    if |p| == 1 {
      assert entries[p[0] := a][p[0] := b] == entries[p[0] := b];
    } else {
      var child := Child(v, p[0], p[1..]);
      InsertTwice(child, p[1..], a, b);
      var once := Insert(child, p[1..], a);
      assert Child(Insert(v, p, a), p[0], p[1..]) == once;
      var twice := Insert(once, p[1..], b);
      assert entries[p[0] := once][p[0] := twice] == entries[p[0] := twice];
    }
  }

  lemma PutIsInsert(items: seq<ParamValue>, key: string, x: ParamValue)
    requires key != ""
    ensures Insert(List(items), ["", key], x) == List(Put(items, key, x))
  {
    assert ["", key][1..] == [key];
    if Merges(items, [key]) {
      assert Insert(items[|items| - 1], [key], x) == Map(items[|items| - 1].entries[key := x]);
    } else {
      assert Insert(ContainerFor([key]), [key], x) == Map(map[key := x]);
    }
  }

  /** A prefix the printer writes unambiguously. */
  predicate Printable(prefix: Path) {
    Keyed(prefix) && Unambiguous(prefix)
  }

  predicate FieldsPrintable(fields: Record) {
    forall i :: 0 <= i < |fields| ==> fields[i].0 != "" && ']' !in fields[i].0
  }

  /** Inserting the entries of a list of fields puts the built list at the prefix. */
  lemma {:induction false} EntriesBuildList(v: ParamValue, prefix: Path, fields: Record)
    requires Printable(prefix) && Lookup(v, prefix) == None && FieldsPrintable(fields)
    ensures Named(fields)
    ensures InsertAll(v, Entries(prefix, fields))
         == if fields == [] then v else Insert(v, prefix, List(PutAll([], fields)))
  {
    if fields != [] {
      var front, last := fields[..|fields| - 1], fields[|fields| - 1];
      EntriesBuildList(v, prefix, front);
      var entries := Entries(prefix, fields);
      assert entries[..|entries| - 1] == Entries(prefix, front);
      var path := prefix + ["", last.0];
      ReadPrinted(path);
      var before := InsertAll(v, Entries(prefix, front));
      OneMoreField(v, prefix, front, before, last);
    }
  }

  lemma OneMoreField(v: ParamValue, prefix: Path, front: Record, before: ParamValue, last: (string, ParamValue))
    requires Printable(prefix) && Lookup(v, prefix) == None && Named(front) && last.0 != ""
    requires before == if front == [] then v else Insert(v, prefix, List(PutAll([], front)))
    ensures Insert(before, prefix + ["", last.0], last.1)
              == Insert(v, prefix, List(Put(PutAll([], front), last.0, last.1)))
  {
    var items := PutAll([], front);
    InsertThrough(before, prefix, ["", last.0], last.1);
    PutIsInsert(items, last.0, last.1);
    if front != [] {
      LookupInserted(v, prefix, List(items), []);
      assert prefix + [] == prefix;
      InsertTwice(v, prefix, List(items), List(Put(items, last.0, last.1)));
    }
  }

  /** Sent under a free prefix, a list of non-empty records comes back as that list if and only
      if every later record starts with a key of the one before. */
  lemma RecordListRoundTrip(v: ParamValue, prefix: Path, records: seq<Record>)
    requires Printable(prefix) && Lookup(v, prefix) == None && AllSendable(records)
    ensures var after := InsertAll(v, Entries(prefix, Fields(records)));
            var sent := if records == [] then None else Some(List(Maps(records)));
            Lookup(after, prefix) == sent <==> Chained(records)
  {
    var fields := Fields(records);
    FieldsNamed(records);
    EntriesBuildList(v, prefix, fields);
    ListComesBack(records);
    if records != [] {
      assert Fields(records) == Fields(records[..|records| - 1]) + records[|records| - 1];
      var items := PutAll([], fields);
      LookupInserted(v, prefix, List(items), []);
      assert prefix + [] == prefix;
      if !Chained(records) {
        StrayedDiffers(items, records);
      }
    }
  }

  /** The rest of the tree is untouched. */
  lemma RecordListFrame(v: ParamValue, prefix: Path, records: seq<Record>, q: Path)
    requires Printable(prefix) && Lookup(v, prefix) == None && AllSendable(records) && Apart(prefix, q)
    ensures Lookup(InsertAll(v, Entries(prefix, Fields(records))), q) == Lookup(v, q)
  {
    var fields := Fields(records);
    FieldsNamed(records);
    EntriesBuildList(v, prefix, fields);
    if fields != [] {
      InsertFrame(v, prefix, List(PutAll([], fields)), q);
    }
  }
}
