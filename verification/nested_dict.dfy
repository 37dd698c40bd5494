/** The dotted-path accessors on dictionaries in memory, which are updated in place. */
module NestedDict {
  import opened Common
  import opened NestedFields

  /** What a dictionary holds under a key: another dictionary by reference, or any other JSON value. */
  datatype Value = Scalar(json: Json) | Node(dict: Dict)

  class Dict {
    var fields: map<string, Value>

    constructor ()
      ensures fields == map[]
    {
      fields := map[];
    }
  }

  /** The shape of a nested dictionary in memory. */
  datatype Tree = Leaf(json: Json) | Branch(dict: Dict, kids: map<string, Tree>)

  ghost function Dicts(t: Tree): set<Dict> {
    match t
    case Leaf(_) => {}
    case Branch(d, kids) => {d} + (set k, e | k in kids && e in Dicts(kids[k]) :: e)
  }

  /** No dictionary occurs twice in the tree. */
  ghost predicate Separate(t: Tree) {
    match t
    case Leaf(json) => !json.Obj?
    case Branch(d, kids) =>
      && (forall k :: k in kids ==> Separate(kids[k]) && d !in Dicts(kids[k]))
      && (forall k, k' :: k in kids && k' in kids && k != k' ==> Dicts(kids[k]) !! Dicts(kids[k']))
  }

  ghost function ValueOf(t: Tree): Value {
    match t
    case Leaf(json) => Scalar(json)
    case Branch(d, _) => Node(d)
  }

  /** The dictionaries in memory have the shape of the tree. */
  ghost predicate Holds(t: Tree)
    reads Dicts(t)
  {
    match t
    case Leaf(_) => true
    case Branch(d, kids) =>
      && d.fields.Keys == kids.Keys
      && forall k :: k in kids ==> Dicts(kids[k]) <= Dicts(t) && d.fields[k] == ValueOf(kids[k]) && Holds(kids[k])
  }

  ghost function ToJson(t: Tree): Json {
    match t
    case Leaf(json) => json
    case Branch(_, kids) => Obj(map k | k in kids :: ToJson(kids[k]))
  }

  /** The subtree at a path, if dictionaries lead there. */
  ghost function Sub(t: Tree, p: seq<string>): Option<Tree>
    decreases |p|
  {
    if p == [] then Some(t)
    else if t.Branch? && p[0] in t.kids then Sub(t.kids[p[0]], p[1..])
    else None
  }

  ghost predicate DictAt(t: Tree, p: seq<string>, d: Dict) {
    Sub(t, p).Some? && Sub(t, p).value.Branch? && Sub(t, p).value.dict == d
  }

  /** The tree with a new subtree under `part` in the dictionary at `p`. */
  ghost function Put(t: Tree, p: seq<string>, part: string, kid: Tree): Tree
    requires Sub(t, p).Some? && Sub(t, p).value.Branch?
    decreases |p|
  {
    if p == [] then Branch(t.dict, t.kids[part := kid])
    else Branch(t.dict, t.kids[p[0] := Put(t.kids[p[0]], p[1..], part, kid)])
  }

  lemma {:induction false} DictAtIn(t: Tree, p: seq<string>, d: Dict)
    requires DictAt(t, p, d)
    ensures d in Dicts(t)
    decreases |p|
  {
    if p != [] { DictAtIn(t.kids[p[0]], p[1..], d); }
  }

  lemma {:induction false} PutShape(t: Tree, p: seq<string>, part: string, kid: Tree, d: Dict)
    requires DictAt(t, p, d) && Separate(t) && Separate(kid) && Dicts(kid) !! Dicts(t)
    ensures Separate(Put(t, p, part, kid)) && Put(t, p, part, kid).Branch? && Put(t, p, part, kid).dict == t.dict
    ensures Dicts(Put(t, p, part, kid)) <= Dicts(t) + Dicts(kid)
    decreases |p|
  {
    if p != [] {
      PutShape(t.kids[p[0]], p[1..], part, kid, d);
    }
  }

  lemma {:induction false} PutSub(t: Tree, p: seq<string>, part: string, kid: Tree, d: Dict)
    requires DictAt(t, p, d)
    ensures Sub(Put(t, p, part, kid), p + [part]) == Some(kid)
    decreases |p|
  {
    if p != [] {
      assert (p + [part])[1..] == p[1..] + [part];
      PutSub(t.kids[p[0]], p[1..], part, kid, d);
    } else {
      assert ([] + [part])[1..] == [];
    }
  }

  /** Putting a subtree is setting its JSON at the path. */
  lemma {:induction false} PutSets(t: Tree, p: seq<string>, part: string, kid: Tree, d: Dict)
    requires DictAt(t, p, d)
    ensures ToJson(t).Obj? && ToJson(Put(t, p, part, kid)) == Set(ToJson(t), p + [part], ToJson(kid))
    decreases |p|
  {
    if p != [] {
      assert (p + [part])[1..] == p[1..] + [part];
      PutSets(t.kids[p[0]], p[1..], part, kid, d);
    }
  }

  /** The dictionaries had the shape of the tree when their fields were as recorded. */
  ghost predicate HeldIn(t: Tree, was: map<Dict, map<string, Value>>) {
    match t
    case Leaf(_) => true
    case Branch(d, kids) =>
      && d in was && was[d].Keys == kids.Keys
      && forall k :: k in kids ==> was[d][k] == ValueOf(kids[k]) && HeldIn(kids[k], was)
  }

  lemma {:induction false} HoldsRecorded(t: Tree, was: map<Dict, map<string, Value>>)
    requires forall e :: e in Dicts(t) ==> e in was && was[e] == e.fields
    ensures Holds(t) <==> HeldIn(t, was)
    decreases t
  {
    if t.Branch? {
      forall k | k in t.kids
        ensures Holds(t.kids[k]) <==> HeldIn(t.kids[k], was)
      {
        HoldsRecorded(t.kids[k], was);
      }
    }
  }

  /** Assigning one key of the dictionary at `p` puts the subtree there. */
  lemma {:induction false} PutHolds(
      t: Tree, p: seq<string>, part: string, kid: Tree, d: Dict, was: map<Dict, map<string, Value>>)
    requires Separate(t) && DictAt(t, p, d) && HeldIn(t, was) && Holds(kid)
    requires d in was && d.fields == was[d][part := ValueOf(kid)]
    requires forall e :: e in Dicts(t) && e != d ==> e in was && e.fields == was[e]
    ensures Holds(Put(t, p, part, kid))
    decreases |p|
  {
    if p != [] {
      DictAtIn(t.kids[p[0]], p[1..], d);
      PutHolds(t.kids[p[0]], p[1..], part, kid, d, was);
    }
    forall k | k in t.kids && k != (if p == [] then part else p[0])
      ensures Holds(t.kids[k])
    {
      assert d !in Dicts(t.kids[k]);
      HoldsRecorded(t.kids[k], was);
    }
  }

  /** The fields of the dictionaries of a tree, recorded. */
  ghost function Record(t: Tree): map<Dict, map<string, Value>>
    reads Dicts(t)
  {
    map e | e in Dicts(t) :: e.fields
  }

  lemma {:induction false} SubIsGet(t: Tree, p: seq<string>)
    requires Separate(t)
    ensures Get(ToJson(t), p) == if Sub(t, p).Some? then ToJson(Sub(t, p).value) else Null
    decreases |p|
  {
    if p != [] {
      if t.Branch? && p[0] in t.kids {
        SubIsGet(t.kids[p[0]], p[1..]);
      } else {
        GetOfNull(p[1..]);
      }
    }
  }

  lemma {:induction false} SubExtend(t: Tree, p: seq<string>, part: string, d: Dict)
    requires DictAt(t, p, d)
    ensures Sub(t, p + [part]) == if part in Sub(t, p).value.kids then Some(Sub(t, p).value.kids[part]) else None
    decreases |p|
  {
    if p != [] {
      assert (p + [part])[1..] == p[1..] + [part];
      SubExtend(t.kids[p[0]], p[1..], part, d);
    } else {
      assert ([] + [part])[1..] == [];
    }
  }

  lemma {:induction false} SubHolds(t: Tree, p: seq<string>, d: Dict)
    requires Holds(t) && Separate(t) && DictAt(t, p, d)
    ensures d.fields.Keys == Sub(t, p).value.kids.Keys
    ensures forall k :: k in d.fields ==> d.fields[k] == ValueOf(Sub(t, p).value.kids[k])
    decreases |p|
  {
    if p != [] { SubHolds(t.kids[p[0]], p[1..], d); }
  }

  /** Setting a new empty dictionary on the way does not change what setting the whole path gives. */
  lemma {:induction false} SetThroughNew(v: Json, p: Path, path: Path, x: Json)
    requires v.Obj? && p < path && !Get(v, p).Obj?
    ensures Set(Set(v, p, Obj(map[])), path, x) == Set(v, path, x)
    decreases |p|
  {
    assert p[0] == path[0];
    var w := Set(v, p, Obj(map[]));
    if |p| == 1 {
      assert p[1..] == [];
      assert w.fields[path[0] := Set(Child(v, path[0]), path[1..], x)]
             == v.fields[path[0] := Set(Child(v, path[0]), path[1..], x)];
    } else {
      assert p[1..] < path[1..];
      if !Field(v, p[0]).Obj? { GetOfEmpty(p[1..]); }
      SetThroughNew(Child(v, p[0]), p[1..], path[1..], x);
      assert Child(w, path[0]) == Set(Child(v, p[0]), p[1..], Obj(map[]));
      assert w.fields[path[0] := Set(Child(v, path[0]), path[1..], x)]
             == v.fields[path[0] := Set(Child(v, path[0]), path[1..], x)];
    }
  }

  // ---------------------------------------------------------------------------
  // The two accessors
  // ---------------------------------------------------------------------------

  lemma {:induction false} SeparateBelow(t: Tree, p: seq<string>)
    requires Separate(t) && Sub(t, p).Some?
    ensures Separate(Sub(t, p).value)
    decreases |p|
  {
    if p != [] { SeparateBelow(t.kids[p[0]], p[1..]); }
  }

  /** What a dictionary of the tree holds under a key is what the document has one step below. */
  lemma FieldAt(t: Tree, p: seq<string>, part: string, d: Dict)
    requires Separate(t) && Holds(t) && DictAt(t, p, d)
    ensures part !in d.fields ==> Get(ToJson(t), p + [part]) == Null
    ensures part in d.fields && d.fields[part].Scalar?
            ==> Get(ToJson(t), p + [part]) == d.fields[part].json && !d.fields[part].json.Obj?
    ensures part in d.fields && d.fields[part].Node? ==> DictAt(t, p + [part], d.fields[part].dict)
  {
    SubExtend(t, p, part, d);
    SubHolds(t, p, d);
    SubIsGet(t, p + [part]);
    SeparateBelow(t, p);
  }

  /** `found` is what the document holds at the path, a dictionary being found by reference. */
  ghost predicate FoundAt(t: Tree, p: seq<string>, found: Value) {
    match found
    case Scalar(json) => Get(ToJson(t), p) == json && !json.Obj?
    case Node(d) => DictAt(t, p, d)
  }

  lemma FoundBelow(t: Tree, path: Path, i: nat, d: Dict)
    requires i < |path| && Separate(t) && Holds(t) && DictAt(t, path[..i], d)
    ensures FoundAt(t, path[..i + 1], if path[i] in d.fields then d.fields[path[i]] else Scalar(Null))
  {
    assert path[..i + 1] == path[..i] + [path[i]];
    FieldAt(t, path[..i], path[i], d);
  }

  lemma NothingBelow(t: Tree, path: Path, i: nat, json: Json)
    requires i < |path| && FoundAt(t, path[..i], Scalar(json))
    ensures FoundAt(t, path, Scalar(Null))
  {
    assert path[..i] < path;
    BelowScalar(ToJson(t), path[..i], path);
  }

  /** Walks the path to what the document holds there. */
  method GetNestedField(root: Dict, ghost t: Tree, path: Path) returns (found: Value)
    requires t.Branch? && t.dict == root && Separate(t) && Holds(t)
    ensures FoundAt(t, path, found)
  {
    found := Node(root);
    for i := 0 to |path|
      invariant FoundAt(t, path[..i], found) && Holds(t)
    {
      if found.Scalar? {
        NothingBelow(t, path, i, found.json);
        return Scalar(Null);
      }
      FoundBelow(t, path, i, found.dict);
      found := if path[i] in found.dict.fields then found.dict.fields[path[i]] else Scalar(Null);
    }
    assert path[..|path|] == path;
  }

  /** `d[part] = value` on the dictionary found at `p`. */
  method Assign(d: Dict, part: string, value: Value, ghost t: Tree, ghost p: seq<string>, ghost kid: Tree)
    returns (ghost t': Tree)
    requires t.Branch? && Separate(t) && Holds(t) && DictAt(t, p, d)
    requires value == ValueOf(kid) && Separate(kid) && Holds(kid) && Dicts(kid) !! Dicts(t)
    modifies d
    ensures t'.Branch? && t'.dict == t.dict && Separate(t') && Holds(t')
    ensures Dicts(t') <= Dicts(t) + Dicts(kid)
    ensures Sub(t', p + [part]) == Some(kid)
    ensures ToJson(t).Obj? && ToJson(t') == Set(ToJson(t), p + [part], ToJson(kid))
    ensures Holds(kid)
  {
    DictAtIn(t, p, d);
    PutShape(t, p, part, kid, d);
    PutSub(t, p, part, kid, d);
    PutSets(t, p, part, kid, d);
    ghost var was := Record(t);
    HoldsRecorded(t, was);
    ghost var wasKid := Record(kid);
    HoldsRecorded(kid, wasKid);
    d.fields := d.fields[part := value];
    HoldsRecorded(kid, wasKid);
    PutHolds(t, p, part, kid, d, was);
    t' := Put(t, p, part, kid);
  }

  /** A dictionary is stored under `part` exactly when the document has one there. */
  lemma ChildAt(t: Tree, p: seq<string>, part: string, d: Dict)
    requires Separate(t) && Holds(t) && DictAt(t, p, d)
    ensures (part in d.fields && d.fields[part].Node?) <==> Get(ToJson(t), p + [part]).Obj?
    ensures part in d.fields && d.fields[part].Node? ==> DictAt(t, p + [part], d.fields[part].dict)
  {
    SubExtend(t, p, part, d);
    SubHolds(t, p, d);
    SubIsGet(t, p + [part]);
    SeparateBelow(t, p);
  }

  /** Setting the path gives the same document from either tree. */
  ghost predicate Sets(t': Tree, t: Tree, path: Path, x: Json) {
    t'.Branch? && t.Branch? && Set(ToJson(t'), path, x) == Set(ToJson(t), path, x)
  }

  /** `{}` */
  method NewDict(ghost t: Tree, ghost own: set<Dict>, ghost kid: Tree) returns (child: Dict)
    requires Holds(t) && Holds(kid) && Dicts(t) <= own
    ensures fresh(child) && Holds(t) && Holds(kid) && child !in own && child !in Dicts(kid)
    ensures var empty := Branch(child, map[]); Separate(empty) && Holds(empty) && Dicts(empty) == {child}
  {
    ghost var known := Dicts(kid);
    assert allocated(t) && allocated(kid) && allocated(own) && allocated(known);
    child := new Dict();
    assert child !in own && child !in known;
    assert Dicts(Branch(child, map[])) == {child};
  }

  lemma EmptySets(t: Tree, t': Tree, p: Path, path: Path, x: Json)
    requires t.Branch? && t'.Branch? && p < path && !Get(ToJson(t), p).Obj?
    requires ToJson(t') == Set(ToJson(t), p, Obj(map[]))
    ensures Sets(t', t, path, x)
  {
    SetThroughNew(ToJson(t), p, path, x);
  }

  /** A document rooted at `root` within the dictionaries `own`, and a value apart from them. */
  ghost predicate Ready(root: Dict, t: Tree, own: set<Dict>, kid: Tree)
    reads Dicts(t), Dicts(kid)
  {
    && t.Branch? && t.dict == root && Separate(t) && Holds(t) && Dicts(t) <= own
    && Separate(kid) && Holds(kid) && Dicts(kid) !! own
  }

  /** `current[part] = {}` */
  method Create(current: Dict, part: string, ghost here: seq<string>, ghost root: Dict, ghost t: Tree,
                ghost own: set<Dict>, ghost kid: Tree)
    returns (child: Dict, ghost t': Tree, ghost grown: set<Dict>)
    requires Ready(root, t, own, kid) && DictAt(t, here, current)
    modifies current
    ensures Ready(root, t', grown, kid) && own <= grown && fresh(grown - own)
    ensures DictAt(t', here + [part], child)
    ensures ToJson(t).Obj? && ToJson(t') == Set(ToJson(t), here + [part], Obj(map[]))
  {
    ghost var kept := Dicts(kid);
    assert allocated(kid) && allocated(kept);
    child := NewDict(t, own, kid);
    ghost var empty := Branch(child, map[]);
    assert ToJson(empty) == Obj(map[]);
    DictAtIn(t, here, current);
    t' := Assign(current, part, Node(child), t, here, empty);
    grown := own + {child};
  }

  /** The walk along the path has come to `current` after `i` parts. */
  ghost predicate Reached(root: Dict, t: Tree, path: Path, i: nat, current: Dict, t': Tree, own: set<Dict>, kid: Tree)
    reads Dicts(t'), Dicts(kid)
  {
    && i < |path| && Ready(root, t', own, kid) && current in own
    && DictAt(t', path[..i], current) && Sets(t', t, path, ToJson(kid))
  }

  /** The dictionary to continue in below `path[i]`, created where there is none. */
  method Descend(current: Dict, path: Path, i: nat, ghost root: Dict, ghost was: Tree, ghost t: Tree,
                 ghost own: set<Dict>, ghost kid: Tree)
    returns (child: Dict, ghost t': Tree, ghost grown: set<Dict>)
    requires i < |path| - 1 && Reached(root, was, path, i, current, t, own, kid)
    modifies current
    ensures Reached(root, was, path, i + 1, child, t', grown, kid) && own <= grown && fresh(grown - own)
  {
    var part := path[i];
    ghost var here := path[..i];
    assert here + [part] == path[..i + 1] && here + [part] < path;
    ChildAt(t, here, part, current);
    if part in current.fields && current.fields[part].Node? {
      child, t', grown := current.fields[part].dict, t, own;
    } else {
      child, t', grown := Create(current, part, here, root, t, own, kid);
      EmptySets(t, t', here + [part], path, ToJson(kid));
    }
    DictAtIn(t', here + [part], child);
  }

  /**
   Assigns in place, creating the dictionaries on the way; the document becomes the one the pure writer gives.
   The value may itself be a dictionary, of a document apart from this one, and is stored by reference.
   */
  method SetNestedField(root: Dict, ghost t: Tree, path: Path, value: Value, ghost kid: Tree)
    returns (ghost t': Tree)
    requires t.Branch? && t.dict == root && Separate(t) && Holds(t)
    requires value == ValueOf(kid) && Separate(kid) && Holds(kid) && Dicts(kid) !! Dicts(t)
    modifies Dicts(t)
    ensures t'.Branch? && t'.dict == root && Separate(t') && Holds(t') && Holds(kid)
    ensures ToJson(t') == Set(ToJson(t), path, ToJson(kid))
    ensures fresh(Dicts(t') - Dicts(t) - Dicts(kid))
  {
    var current := root;
    t' := t;
    var i := 0;
    ghost var own := Dicts(t);
    while i < |path| - 1
      invariant Reached(root, t, path, i, current, t', own, kid) && fresh(own - Dicts(t))
    {
      current, t', own := Descend(current, path, i, root, t, t', own, kid);
      i := i + 1;
    }
    LastPart(path);
    t' := Assign(current, path[i], value, t', path[..i], kid);
  }

  lemma LastPart(path: Path)
    ensures path == path[..|path| - 1] + [path[|path| - 1]]
  {
  }
}
