/** Reading and writing nested dictionaries by dotted path. */
module NestedFields {
  import opened Common

  type Path = p: seq<string> | p != [] witness [""]

  /** `dotted.split(".")`. */
  function Split(dotted: string): (parts: Path) {
    if dotted == "" then [""]
    else
      var rest := Split(dotted[1..]);
      if dotted[0] == '.' then [""] + rest else [[dotted[0]] + rest[0]] + rest[1..]
  }

  lemma JoinAfterEmpty(parts: Path)
    ensures JoinWith(".", [""] + parts) == "." + JoinWith(".", parts)
  {
  }

  /** Splitting loses nothing: the parts hold no dot and join back to the dotted path. */
  lemma {:induction false} SplitJoins(dotted: string)
    ensures JoinWith(".", Split(dotted)) == dotted
    ensures forall part :: part in Split(dotted) ==> '.' !in part
  {
    if dotted != "" {
      SplitJoins(dotted[1..]);
      var rest := Split(dotted[1..]);
      assert rest == [rest[0]] + rest[1..];
      JoinWithHead(".", dotted[0], rest[0], rest[1..]);
      JoinAfterEmpty(rest);
      assert dotted == [dotted[0]] + dotted[1..];
    }
  }

  /** The value at a path, or `Null` where the path leaves the dictionaries. */
  function Get(v: Json, path: seq<string>): Json
    decreases |path|
  {
    if path == [] then v else Get(Field(v, path[0]), path[1..])
  }

  /** The dictionary to descend into: the child if it is one, else a new empty one. */
  function Child(v: Json, part: string): (c: Json)
    ensures c.Obj?
  {
    if Field(v, part).Obj? then Field(v, part) else Obj(map[])
  }

  function Set(v: Json, path: Path, x: Json): (r: Json)
    requires v.Obj?
    ensures r.Obj?
    decreases |path|
  {
    if |path| == 1 then Obj(v.fields[path[0] := x])
    else Obj(v.fields[path[0] := Set(Child(v, path[0]), path[1..], x)])
  }

  /** Neither path is a prefix of the other. */
  ghost predicate Diverge(p: seq<string>, q: seq<string>) {
    !(p <= q) && !(q <= p)
  }

  lemma DivergeTail(p: seq<string>, q: seq<string>)
    requires p != [] && q != [] && p[0] == q[0]
    ensures Diverge(p, q) <==> Diverge(p[1..], q[1..])
    ensures p <= q <==> p[1..] <= q[1..]
    ensures p == q <==> p[1..] == q[1..]
  {
  }

  lemma {:induction false} GetOfNull(path: seq<string>)
    ensures Get(Null, path) == Null
  {
    if path != [] { GetOfNull(path[1..]); }
  }

  lemma {:induction false} GetOfEmpty(path: Path)
    ensures Get(Obj(map[]), path) == Null
  {
    GetOfNull(path[1..]);
  }

  /** What was set is what is read. */
  lemma {:induction false} SetThenGet(v: Json, path: Path, x: Json)
    requires v.Obj?
    ensures Get(Set(v, path, x), path) == x
    decreases |path|
  {
    if |path| > 1 {
      SetThenGet(Child(v, path[0]), path[1..], x);
    } else {
      assert path[1..] == [];
    }
  }

  /** A diverging path reads the same before and after. */
  lemma {:induction false} SetLeavesDiverging(v: Json, path: Path, x: Json, q: Path)
    requires v.Obj? && Diverge(path, q)
    ensures Get(Set(v, path, x), q) == Get(v, q)
    decreases |path|
  {
    if q[0] == path[0] {
      DivergeTail(path, q);
      assert |path| > 1 && |q| > 1;
      SetLeavesDiverging(Child(v, path[0]), path[1..], x, q[1..]);
      if !Field(v, path[0]).Obj? {
        GetOfEmpty(q[1..]);
        GetOfNull(q[2..]);
        assert Get(Field(v, q[0]), q[1..]) == Get(Null, q[2..]);
      }
    }
  }

  /** Setting a path where a value was and setting the value back restores the document. */
  lemma {:induction false} SetBack(v: Json, path: Path, x: Json)
    requires v.Obj? && Get(v, path) != Null
    ensures Set(Set(v, path, x), path, Get(v, path)) == v
    decreases |path|
  {
    if |path| > 1 {
      GetOfNull(path[1..]);
      if !Field(v, path[0]).Obj? {
        GetOfNull(path[2..]);
      } else {
        SetBack(Field(v, path[0]), path[1..], x);
        assert v.fields[path[0] := Field(v, path[0])] == v.fields;
      }
    } else {
      assert path[1..] == [];
      assert v.fields[path[0] := x][path[0] := v.fields[path[0]]] == v.fields;
    }
  }

  lemma {:induction false} GetAppend(v: Json, p: seq<string>, q: seq<string>)
    ensures Get(v, p + q) == Get(Get(v, p), q)
    decreases |p|
  {
    if p == [] {
      assert p + q == q;
    } else {
      assert (p + q)[1..] == p[1..] + q;
      GetAppend(Field(v, p[0]), p[1..], q);
    }
  }

  /** Nothing is found below a value that is not a dictionary. */
  lemma {:induction false} BelowScalar(v: Json, p: seq<string>, q: seq<string>)
    requires p < q && !Get(v, p).Obj?
    ensures Get(v, q) == Null
  {
    assert q == p + q[|p|..];
    GetAppend(v, p, q[|p|..]);
    GetOfNull(q[|p| + 1..]);
  }
}
