/** Guarded insertion never destroys: every leaf keeps its place and the inserted leaves are
    added. */
module ParamLeaves {
  import opened Prelude
  import opened Params

  datatype Step = Key(key: string) | Index(i: nat)

  type Location = seq<Step>

  function At(v: ParamValue, location: Location): Option<ParamValue>
    decreases |location|
  {
    if location == [] then Some(v)
    else
      match location[0]
      case Key(k) => if v.Map? && k in v.entries then At(v.entries[k], location[1..]) else None
      case Index(i) => if v.List? && i < |v.items| then At(v.items[i], location[1..]) else None
  }

  /** The null or scalar at a location. */
  function LeafAt(v: ParamValue, location: Location): Option<ParamValue> {
    var found := At(v, location);
    if found.Some? && (found.value.Null? || found.value.Scalar?) then found else None
  }

  /** Where an insertion puts its value. */
  function InsertedAt(v: ParamValue, p: Path): Location
    decreases |p|
  {
    if p == [] then []
    else
      var rest := p[1..];
      if p[0] == "" then
        var items := ListItems(v);
        if rest == [] then [Index(|items|)]
        else if Merges(items, rest) then [Index(|items| - 1)] + InsertedAt(items[|items| - 1], rest)
        else [Index(|items|)] + InsertedAt(ContainerFor(rest), rest)
      else if rest == [] then [Key(p[0])]
      else [Key(p[0])] + InsertedAt(Child(v, p[0], rest), rest)
  }

  /** The step into the tree an insertion takes, and the subtree it takes it to. */
  function Target(v: ParamValue, p: Path): (Step, ParamValue)
    requires |p| > 1
  {
    if p[0] == "" then
      var items := ListItems(v);
      if Merges(items, p[1..]) then (Index(|items| - 1), items[|items| - 1]) else (Index(|items|), ContainerFor(p[1..]))
    else (Key(p[0]), Child(v, p[0], p[1..]))
  }

  lemma InsertedThrough(v: ParamValue, p: Path, x: ParamValue, more: Location)
    requires |p| > 1
    ensures var (step, child) := Target(v, p);
            && InsertedAt(v, p) == [step] + InsertedAt(child, p[1..])
            && At(Insert(v, p, x), [step] + more) == At(Insert(child, p[1..], x), more)
  {
    var (step, child) := Target(v, p);
    assert ([step] + more)[1..] == more;
  }

  /** The value is found where it was inserted, with all its parts. */
  lemma {:induction false} InsertedIsThere(v: ParamValue, p: Path, x: ParamValue, more: Location)
    ensures At(Insert(v, p, x), InsertedAt(v, p) + more) == At(x, more)
    decreases |p|
  {
    if p == [] {
      assert [] + more == more;
    } else if |p| == 1 {
      var at := InsertedAt(v, p);
      assert (at + more)[1..] == more;
    } else {
      var (step, child) := Target(v, p);
      var below := InsertedAt(child, p[1..]);
      InsertedThrough(v, p, x, below + more);
      assert InsertedAt(v, p) + more == [step] + (below + more);
      InsertedIsThere(child, p[1..], x, more);
    }
  }

  lemma FreshContainerAccepts(rest: Path)
    requires rest != []
    ensures CanInsert(ContainerFor(rest), rest)
  {
  }

  /** What a guarded insertion does at one location: outside the inserted place the leaf is the
      old one, and at the place there was none. */
  predicate KeptAt(v: ParamValue, w: ParamValue, at: Location, x: ParamValue, location: Location) {
    if at <= location then
      LeafAt(v, location) == None && LeafAt(w, location) == LeafAt(x, location[|at|..])
    else LeafAt(w, location) == LeafAt(v, location)
  }

  lemma InsertedLeaves(v: ParamValue, p: Path, x: ParamValue, location: Location)
    requires InsertedAt(v, p) <= location
    ensures LeafAt(Insert(v, p, x), location) == LeafAt(x, location[|InsertedAt(v, p)|..])
  {
    var at := InsertedAt(v, p);
    assert location == at + location[|at|..];
    InsertedIsThere(v, p, x, location[|at|..]);
  }

  lemma KeptByLastSegment(v: ParamValue, p: Path, x: ParamValue, location: Location)
    requires CanInsert(v, p) && |p| == 1
    ensures KeptAt(v, Insert(v, p, x), InsertedAt(v, p), x, location)
  {
    var at := InsertedAt(v, p);
    assert |at| == 1;
    if at <= location {
      assert location[0] == at[0];
      InsertedLeaves(v, p, x, location);
    } else if location != [] {
      assert location[0] != at[0] by {
        assert location[0] == at[0] ==> at <= location;
      }
    }
  }

  lemma KeptBesides(v: ParamValue, p: Path, x: ParamValue, location: Location)
    requires CanInsert(v, p) && |p| > 1 && (location == [] || location[0] != Target(v, p).0)
    ensures LeafAt(Insert(v, p, x), location) == LeafAt(v, location)
  {
  }

  lemma {:induction false} LeavesKept(v: ParamValue, p: Path, x: ParamValue, location: Location)
    requires CanInsert(v, p)
    ensures KeptAt(v, Insert(v, p, x), InsertedAt(v, p), x, location)
    decreases |p|
  {
    if |p| == 1 {
      KeptByLastSegment(v, p, x, location);
    } else {
      var (step, child) := Target(v, p);
      InsertedThrough(v, p, x, []);
      if location == [] || location[0] != step {
        KeptBesides(v, p, x, location);
      } else {
        var below := location[1..];
        assert location == [step] + below;
        TargetAccepts(v, p);
        LeavesKept(child, p[1..], x, below);
        KeptBelow(v, p, x, below);
      }
    }
  }

  lemma TargetAccepts(v: ParamValue, p: Path)
    requires CanInsert(v, p) && |p| > 1
    ensures CanInsert(Target(v, p).1, p[1..])
  {
    FreshContainerAccepts(p[1..]);
  }

  lemma KeptBelow(v: ParamValue, p: Path, x: ParamValue, below: Location)
    requires |p| > 1 && CanInsert(v, p)
    requires KeptAt(Target(v, p).1, Insert(Target(v, p).1, p[1..], x), InsertedAt(Target(v, p).1, p[1..]), x, below)
    ensures KeptAt(v, Insert(v, p, x), InsertedAt(v, p), x, [Target(v, p).0] + below)
  {
    var (step, child) := Target(v, p);
    var at := InsertedAt(child, p[1..]);
    InsertedThrough(v, p, x, below);
    SamePrefix(step, at, below);
    OldLeavesBelow(v, p, below);
    if at <= below {
      assert ([step] + below)[|[step] + at|..] == below[|at|..];
    }
  }

  lemma SamePrefix(step: Step, a: Location, b: Location)
    ensures [step] + a <= [step] + b <==> a <= b
  {
    if a <= b {
      assert [step] + b == ([step] + a) + b[|a|..];
    }
    if [step] + a <= [step] + b {
      assert b == ([step] + b)[1..] && a == ([step] + a)[1..];
    }
  }

  /** The subtree an insertion descends to has the leaves the tree has below that step. */
  lemma OldLeavesBelow(v: ParamValue, p: Path, below: Location)
    requires |p| > 1 && CanInsert(v, p)
    ensures var (step, child) := Target(v, p); LeafAt(child, below) == LeafAt(v, [step] + below)
  {
    var (step, child) := Target(v, p);
    assert ([step] + below)[1..] == below;
  }

  /* ---------- Counting ---------- */

  ghost function Leaves(v: ParamValue): set<Location> {
    match v
    case Null => {[]}
    case Scalar(_) => {[]}
    case List(items) => set i, l | 0 <= i < |items| && l in Leaves(items[i]) :: [Index(i)] + l
    case Map(entries) => set k, l | k in entries && l in Leaves(entries[k]) :: [Key(k)] + l
  }

  lemma {:induction false} LeavesAreLeaves(v: ParamValue, location: Location)
    ensures location in Leaves(v) <==> LeafAt(v, location).Some?
    decreases |location|
  {
    if location != [] {
      assert location == [location[0]] + location[1..];
      match location[0] {
        case Key(k) =>
          if v.Map? && k in v.entries {
            LeavesAreLeaves(v.entries[k], location[1..]);
          }
        case Index(i) =>
          if v.List? && i < |v.items| {
            LeavesAreLeaves(v.items[i], location[1..]);
          }
      }
    }
  }

  ghost function Below(at: Location, locations: set<Location>): set<Location> {
    set l | l in locations :: at + l
  }

  lemma {:induction false} BelowSize(at: Location, locations: set<Location>)
    ensures |Below(at, locations)| == |locations|
    decreases locations
  {
    if locations != {} {
      var l :| l in locations;
      var others := locations - {l};
      BelowSize(at, others);
      assert Below(at, locations) == Below(at, others) + {at + l};
      forall m | m in locations ensures (at + m)[|at|..] == m {
      }
    }
  }

  lemma LeafMoves(v: ParamValue, w: ParamValue, at: Location, x: ParamValue, l: Location)
    requires KeptAt(v, w, at, x, l)
    ensures l in Leaves(w) <==> l in Leaves(v) || l in Below(at, Leaves(x))
    ensures l in Leaves(v) ==> LeafAt(w, l) == LeafAt(v, l) && l !in Below(at, Leaves(x))
  {
    LeavesAreLeaves(w, l);
    LeavesAreLeaves(v, l);
    InBelow(at, Leaves(x), l);
    if at <= l {
      LeavesAreLeaves(x, l[|at|..]);
    }
  }

  lemma InBelow(at: Location, locations: set<Location>, l: Location)
    ensures l in Below(at, locations) <==> at <= l && l[|at|..] in locations
  {
    if at <= l {
      assert l == at + l[|at|..];
    }
    forall m | m in locations ensures (at + m)[|at|..] == m && at <= at + m {
    }
  }

  /** The tree afterwards has the old leaves and those of the inserted value, apart. */
  lemma LeavesAdd(v: ParamValue, w: ParamValue, at: Location, x: ParamValue)
    requires forall l :: KeptAt(v, w, at, x, l)
    ensures Leaves(w) == Leaves(v) + Below(at, Leaves(x))
    ensures Leaves(v) !! Below(at, Leaves(x))
    ensures forall l :: l in Leaves(v) ==> LeafAt(w, l) == LeafAt(v, l)
  {
    forall l
      ensures l in Leaves(w) <==> l in Leaves(v) || l in Below(at, Leaves(x))
      ensures l in Leaves(v) ==> LeafAt(w, l) == LeafAt(v, l) && l !in Below(at, Leaves(x))
    {
      LeafMoves(v, w, at, x, l);
    }
  }

  /** `can_insert_path` makes `insert_path` lossless: the leaves afterwards are the old ones, at
      their old places and with their old values, and those of the inserted value. */
  lemma GuardedInsertIsLossless(v: ParamValue, p: Path, x: ParamValue)
    requires CanInsert(v, p)
    ensures Leaves(Insert(v, p, x)) == Leaves(v) + Below(InsertedAt(v, p), Leaves(x))
    ensures |Leaves(Insert(v, p, x))| == |Leaves(v)| + |Leaves(x)|
    ensures forall l :: l in Leaves(v) ==> LeafAt(Insert(v, p, x), l) == LeafAt(v, l)
  {
    var w, at := Insert(v, p, x), InsertedAt(v, p);
    forall l ensures KeptAt(v, w, at, x, l) {
      LeavesKept(v, p, x, l);
    }
    LeavesAdd(v, w, at, x);
    BelowSize(at, Leaves(x));
  }
}
