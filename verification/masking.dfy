/** Masking the sensitive fields of stored credentials, and restoring fields that come back masked. */
module Masking {
  import opened Common
  import opened NestedFields

  const VISIBLE_CHARS: nat := 4
  const MASK_CHAR := '*'

  function Stars(n: nat): (s: string)
    ensures |s| == n && forall i :: 0 <= i < n ==> s[i] == MASK_CHAR
  {
    seq(n, _ => MASK_CHAR)
  }

  function MaskKey(key: string): string {
    if VISIBLE_CHARS >= |key| then Stars(|key|)
    else Stars(|key| - VISIBLE_CHARS) + key[|key| - VISIBLE_CHARS..]
  }

  /** A mask keeps the length, shows at most the last four characters and shows none of a key that short. */
  lemma MaskHides(key: string)
    ensures |MaskKey(key)| == |key|
    ensures forall i :: 0 <= i < |key| && (|key| <= 4 || i < |key| - 4) ==> MaskKey(key)[i] == MASK_CHAR
    ensures forall i :: 0 <= i < |key| && |key| > 4 && i >= |key| - 4 ==> MaskKey(key)[i] == key[i]
    ensures MaskKey(MaskKey(key)) == MaskKey(key)
  {
  }

  /** `str` of a string is that string. */
  ghost predicate KeepsStrings(text: Json -> string) {
    forall s :: text(Str(s)) == s
  }

  /** The text of a collection is longer than the collection, and leaving out leading items shortens it more. */
  ghost predicate IsStr(text: Json -> string) {
    && KeepsStrings(text)
    && (forall m :: |text(Obj(m))| > |m|)
    && (forall l :: |text(List(l))| > |l|)
    && (forall l, k :: 0 < k < |l| ==> |text(List(l))| > |text(List(l[k..]))| + k)
  }

  /** `mask_key` applied to whatever value is stored; `len` and slicing fail on some. */
  function MaskOfStored(text: Json -> string, stored: Json): Result<string, string> {
    if !Truthy(stored) then Ok("")
    else
      match stored
      case Str(s) => Ok(MaskKey(s))
      case List(l) =>
        Ok(if |l| <= VISIBLE_CHARS then Stars(|l|)
           else Stars(|l| - VISIBLE_CHARS) + text(List(l[|l| - VISIBLE_CHARS..])))
      case Obj(m) => if |m| <= VISIBLE_CHARS then Ok(Stars(|m|)) else Err("TypeError")
      case _ => Err("TypeError")
  }

  /** Taking the mask of a stored value raises exactly for truthy numbers and booleans and for longer dictionaries. */
  lemma MaskRaisesExactlyWhen(text: Json -> string, stored: Json)
    ensures MaskOfStored(text, stored).Err? <==>
            || stored == Bool(true) || (stored.Num? && stored.number != 0) || (stored.Obj? && |stored.fields| > 4)
    ensures stored == Null || stored == Bool(false) || stored == Num(0) ==> MaskOfStored(text, stored) == Ok("")
    ensures stored.Obj? && |stored.fields| <= 4 ==> MaskOfStored(text, stored) == Ok(Stars(|stored.fields|))
    ensures stored.List? && |stored.items| <= 4 ==> MaskOfStored(text, stored) == Ok(Stars(|stored.items|))
  {
    assert stored.Obj? && stored.fields == map[] ==> MaskOfStored(text, stored) == Ok(Stars(0));
  }

  // ---------------------------------------------------------------------------
  // Specification of the two loops
  // ---------------------------------------------------------------------------

  function MaskAt(text: Json -> string, v: Json, path: Path): (r: Json)
    requires v.Obj?
    ensures r.Obj?
  {
    var x := Get(v, path);
    if Truthy(x) then Set(v, path, Str(MaskKey(text(x)))) else v
  }

  function Mask(text: Json -> string, v: Json, paths: seq<Path>): (r: Json)
    requires v.Obj?
    ensures r.Obj?
    decreases |paths|
  {
    if paths == [] then v else Mask(text, MaskAt(text, v, paths[0]), paths[1..])
  }

  function PreserveAt(text: Json -> string, request: Json, existing: Json, path: Path): (r: Result<Json, string>)
    requires request.Obj?
    ensures r.Ok? ==> r.value.Obj?
  {
    var v, stored := Get(request, path), Get(existing, path);
    if !Truthy(v) then Ok(request)
    else
      match MaskOfStored(text, stored)
      case Err(e) => Err(e)
      case Ok(mask) => Ok(if Str(mask) == v then Set(request, path, stored) else request)
  }

  function Preserve(text: Json -> string, request: Json, existing: Json, paths: seq<Path>): (r: Result<Json, string>)
    requires request.Obj?
    ensures r.Ok? ==> r.value.Obj?
    decreases |paths|
  {
    if paths == [] then Ok(request)
    else
      match PreserveAt(text, request, existing, paths[0])
      case Err(e) => Err(e)
      case Ok(next) => Preserve(text, next, existing, paths[1..])
  }

  // ---------------------------------------------------------------------------
  // What a masked document is
  // ---------------------------------------------------------------------------

  /** The paths below a key. */
  ghost function Below(s: set<seq<string>>, key: string): set<seq<string>> {
    set p | p in s && p != [] && p[0] == key :: p[1..]
  }

  /** `d` with every non-empty string at one of the paths replaced by its mask and nothing else changed. */
  ghost function Masked(d: Json, s: set<seq<string>>): (r: Json)
    ensures Truthy(r) == Truthy(d) && r.Obj? == d.Obj?
    decreases d
  {
    match d
    case Obj(m) =>
      var r := Obj(map k | k in m :: Masked(m[k], Below(s, k)));
      assert r.fields.Keys == m.Keys;
      assert m != map[] ==> exists k :: k in m.Keys;
      r
    case Str(t) =>
      MaskHides(t);
      if [] in s && t != "" then Str(MaskKey(t)) else d
    case _ => d
  }

  lemma {:induction false} MaskedNothing(d: Json)
    ensures Masked(d, {}) == d
    decreases d
  {
    if d.Obj? {
      forall k | k in d.fields
        ensures Masked(d.fields[k], Below({}, k)) == d.fields[k]
      {
        assert Below({}, k) == {};
        MaskedNothing(d.fields[k]);
      }
      assert Masked(d, {}).fields == d.fields;
    }
  }

  /** A path holds nothing or a string. */
  predicate Maskable(d: Json, path: seq<string>) {
    Truthy(Get(d, path)) ==> Get(d, path).Str?
  }

  lemma BelowUpdate(s: set<seq<string>>, p: seq<string>, key: string)
    requires p != []
    ensures Below(s + {p}, key) == if p[0] == key then Below(s, key) + {p[1..]} else Below(s, key)
    ensures Below(s - {p}, key) == if p[0] == key then Below(s, key) - {p[1..]} else Below(s, key)
    ensures p[1..] in Below(s, p[0]) <==> p in s
  {
    assert p == [p[0]] + p[1..];
    forall q: seq<string>, q': seq<string> | q != [] && q' != [] && q[0] == q'[0] && q[1..] == q'[1..]
      ensures q == q'
    {
      assert q == [q[0]] + q[1..] && q' == [q'[0]] + q'[1..];
    }
  }

  lemma {:induction false} GetMasked(d: Json, s: set<seq<string>>, p: seq<string>)
    ensures Truthy(Get(Masked(d, s), p)) == Truthy(Get(d, p))
    ensures Truthy(Get(d, p)) && Get(d, p).Str?
            ==> Get(Masked(d, s), p) == if p in s then Str(MaskKey(Get(d, p).text)) else Get(d, p)
    decreases |p|
  {
    if p != [] {
      if d.Obj? && p[0] in d.fields {
        GetMasked(d.fields[p[0]], Below(s, p[0]), p[1..]);
        BelowUpdate(s, p, p[0]);
      } else {
        GetOfNull(p[1..]);
      }
    }
  }

  lemma {:induction false} MaskedUnchanged(d: Json, s: set<seq<string>>, p: seq<string>)
    requires !(Truthy(Get(d, p)) && Get(d, p).Str?)
    ensures Masked(d, s + {p}) == Masked(d, s) == Masked(d, s - {p})
    decreases |p|
  {
    if d.Obj? {
      forall k | k in d.fields
        ensures Masked(d.fields[k], Below(s + {p}, k)) == Masked(d.fields[k], Below(s, k))
        ensures Masked(d.fields[k], Below(s - {p}, k)) == Masked(d.fields[k], Below(s, k))
      {
        if p == [] {
          assert Below(s + {p}, k) == Below(s, k) == Below(s - {p}, k);
        } else {
          BelowUpdate(s, p, k);
          if p[0] == k {
            MaskedUnchanged(d.fields[k], Below(s, k), p[1..]);
          }
        }
      }
    }
  }

  lemma MaskedFields(d: Json, s: set<seq<string>>)
    requires d.Obj?
    ensures Masked(d, s).Obj? && Masked(d, s).fields.Keys == d.fields.Keys
    ensures forall k :: k in d.fields ==> Masked(d, s).fields[k] == Masked(d.fields[k], Below(s, k))
  {
  }

  /** `x` at path `p` of `d` masked at `s` gives `d` masked at `after`, for one of the two writes of the loops. */
  ghost predicate IsWrite(t: string, s: set<seq<string>>, p: seq<string>, x: Json, after: set<seq<string>>) {
    || (x == Str(MaskKey(t)) && after == s + {p})
    || (x == Str(t) && after == s - {p})
  }

  lemma SiblingsMasked(d: Json, s: set<seq<string>>, p: Path, after: set<seq<string>>, k: string)
    requires d.Obj? && k in d.fields && k != p[0] && (after == s + {p} || after == s - {p})
    ensures k in Masked(d, after).fields && k in Masked(d, s).fields
    ensures Masked(d, after).fields[k] == Masked(d, s).fields[k]
  {
    BelowUpdate(s, p, k);
  }

  lemma AllButOne<T>(a: map<string, T>, b: map<string, T>, k0: string)
    requires a.Keys == b.Keys && k0 in b && forall k :: k in b && k != k0 ==> a[k] == b[k]
    ensures a[k0 := b[k0]] == b
  {
  }

  /** Replacing the field at the head of the path by its newly masked form masks the whole document anew. */
  lemma FieldReplaced(d: Json, s: set<seq<string>>, p: Path, after: set<seq<string>>, y: Json)
    requires d.Obj? && p[0] in d.fields && (after == s + {p} || after == s - {p})
    requires y == Masked(d.fields[p[0]], Below(after, p[0]))
    ensures Obj(Masked(d, s).fields[p[0] := y]) == Masked(d, after)
  {
    var a, b := Masked(d, s).fields, Masked(d, after).fields;
    assert a.Keys == b.Keys && b[p[0]] == y;
    forall k | k in b && k != p[0]
      ensures a[k] == b[k]
    {
      SiblingsMasked(d, s, p, after, k);
    }
    AllButOne(a, b, p[0]);
  }

  /** Writing the mask at one path masks that path too; writing the original back unmasks only that path. */
  lemma {:induction false} SetMasked(d: Json, s: set<seq<string>>, p: Path, x: Json, after: set<seq<string>>)
    requires d.Obj? && Truthy(Get(d, p)) && Get(d, p).Str? && IsWrite(Get(d, p).text, s, p, x, after)
    ensures Set(Masked(d, s), p, x) == Masked(d, after)
    decreases |p|
  {
    var k := p[0];
    GetOfNull(p[1..]);
    BelowUpdate(s, p, k);
    MaskedFields(d, s);
    var sub := d.fields[k];
    assert Get(d, p) == Get(sub, p[1..]);
    if |p| == 1 {
      assert p[1..] == [] && sub.Str?;
      FieldReplaced(d, s, p, after, x);
    } else {
      if !sub.Obj? {
        GetOfNull(p[2..]);
      }
      SetMasked(sub, Below(s, k), p[1..], x, Below(after, k));
      FieldReplaced(d, s, p, after, Set(Masked(sub, Below(s, k)), p[1..], x));
    }
  }

  // ---------------------------------------------------------------------------
  // The round trip
  // ---------------------------------------------------------------------------

  lemma MaskAtMasked(text: Json -> string, d: Json, s: set<seq<string>>, p: Path)
    requires KeepsStrings(text) && d.Obj? && Maskable(d, p)
    ensures MaskAt(text, Masked(d, s), p) == Masked(d, s + {p})
  {
    GetMasked(d, s, p);
    if Truthy(Get(d, p)) {
      MaskHides(Get(d, p).text);
      SetMasked(d, s, p, Str(MaskKey(Get(d, p).text)), s + {p});
    } else {
      MaskedUnchanged(d, s, p);
    }
  }

  lemma PreserveAtMasked(text: Json -> string, d: Json, s: set<seq<string>>, p: Path)
    requires KeepsStrings(text) && d.Obj? && Maskable(d, p)
    ensures PreserveAt(text, Masked(d, s), d, p) == Ok(Masked(d, s - {p}))
  {
    GetMasked(d, s, p);
    if !Truthy(Get(d, p)) {
      MaskedUnchanged(d, s, p);
    } else if Get(Masked(d, s), p) == Str(MaskKey(Get(d, p).text)) {
      SetMasked(d, s, p, Get(d, p), s - {p});
    } else {
      assert s - {p} == s;
    }
  }

  ghost function Elements(paths: seq<Path>): set<seq<string>> {
    set p: seq<string> | p in paths
  }

  lemma ElementsHead(paths: seq<Path>)
    requires paths != []
    ensures Elements(paths) == {paths[0]} + Elements(paths[1..])
  {
  }

  /** The masking loop masks exactly the listed paths, in whatever order and however often they are listed. */
  lemma {:induction false} MaskIsMasked(text: Json -> string, d: Json, s: set<seq<string>>, paths: seq<Path>)
    requires KeepsStrings(text) && d.Obj? && forall p :: p in paths ==> Maskable(d, p)
    ensures Mask(text, Masked(d, s), paths) == Masked(d, s + Elements(paths))
    decreases |paths|
  {
    if paths == [] {
      assert s + Elements(paths) == s;
    } else {
      MaskAtMasked(text, d, s, paths[0]);
      MaskIsMasked(text, d, s + {paths[0]}, paths[1..]);
      ElementsHead(paths);
      assert s + {paths[0]} + Elements(paths[1..]) == s + Elements(paths);
    }
  }

  /** The restoring loop undoes exactly the listed masks. */
  lemma {:induction false} PreserveUnmasks(text: Json -> string, d: Json, s: set<seq<string>>, paths: seq<Path>)
    requires KeepsStrings(text) && d.Obj? && forall p :: p in paths ==> Maskable(d, p)
    ensures Preserve(text, Masked(d, s), d, paths) == Ok(Masked(d, s - Elements(paths)))
    decreases |paths|
  {
    if paths == [] {
      assert s - Elements(paths) == s;
    } else {
      PreserveAtMasked(text, d, s, paths[0]);
      PreserveUnmasks(text, d, s - {paths[0]}, paths[1..]);
      ElementsHead(paths);
      assert s - {paths[0]} - Elements(paths[1..]) == s - Elements(paths);
    }
  }

  lemma RoundTrip(text: Json -> string, d: Json, paths: seq<Path>)
    requires KeepsStrings(text) && d.Obj? && forall p :: p in paths ==> Maskable(d, p)
    ensures Mask(text, d, paths) == Masked(d, Elements(paths))
    ensures Preserve(text, Mask(text, d, paths), d, paths) == Ok(d)
  {
    MaskedNothing(d);
    MaskIsMasked(text, d, {}, paths);
    assert {} + Elements(paths) == Elements(paths);
    PreserveUnmasks(text, d, Elements(paths), paths);
    assert Elements(paths) - Elements(paths) == {};
  }

  // ---------------------------------------------------------------------------
  // The round trip fails for every sensitive value that is neither falsy nor a string
  // ---------------------------------------------------------------------------

  lemma {:induction false} PrefixNotMaskable(d: Json, p: seq<string>, q: seq<string>)
    requires q < p && !Maskable(d, p)
    ensures !Maskable(d, q) && Get(d, q).Obj?
  {
    assert p == q + p[|q|..];
    GetAppend(d, q, p[|q|..]);
    GetOfNull(p[|q| + 1..]);
  }

  lemma {:induction false} Shortest(d: Json, paths: seq<Path>) returns (p: Path)
    requires exists p :: p in paths && !Maskable(d, p)
    ensures p in paths && !Maskable(d, p) && forall q :: q in paths && !Maskable(d, q) ==> |p| <= |q|
    decreases |paths|
  {
    if exists q :: q in paths[1..] && !Maskable(d, q) {
      p := Shortest(d, paths[1..]);
      if !Maskable(d, paths[0]) && |paths[0]| < |p| { p := paths[0]; }
    } else {
      p := paths[0];
    }
  }

  /** `w` is the stored value, possibly with fields inside it already masked. */
  predicate Like(w: Json, stored: Json) {
    w == stored || (w.Obj? && stored.Obj? && |w.fields| == |stored.fields|)
  }

  /** The mask written over such a value is never recognised as the mask of the stored value. */
  lemma NeverRecognised(text: Json -> string, w: Json, stored: Json, mask: string)
    requires IsStr(text) && Truthy(stored) && !stored.Str? && Like(w, stored) && |mask| == |text(w)|
    ensures MaskOfStored(text, stored) != Ok(mask)
  {
  }

  lemma {:induction false} SetInside(v: Json, p: seq<string>, q: Path, x: Json)
    requires v.Obj? && p < q && Get(v, q) != Null
    ensures Like(Get(Set(v, q, x), p), Get(v, p))
    decreases |p|
  {
    if p == [] {
      GetOfNull(q[1..]);
      assert Set(v, q, x).fields.Keys == v.fields.Keys;
      assert |Set(v, q, x).fields| == |Set(v, q, x).fields.Keys| == |v.fields.Keys|;
    } else {
      assert p[0] == q[0] && p[1..] < q[1..];
      GetOfNull(q[1..]);
      if !Field(v, q[0]).Obj? { GetOfNull(q[2..]); }
      SetInside(Field(v, q[0]), p[1..], q[1..], x);
    }
  }

  /** Masking a path that does not lead to `p` keeps the value there, up to masking inside it. */
  lemma MaskAtElsewhere(text: Json -> string, x: Json, p: Path, q: Path)
    requires x.Obj? && !(q <= p)
    ensures Like(Get(MaskAt(text, x, q), p), Get(x, p))
  {
    if p < q {
      if Get(x, p).Obj? {
        if Truthy(Get(x, q)) { SetInside(x, p, q, Str(MaskKey(text(Get(x, q))))); }
      } else {
        BelowScalar(x, p, q);
      }
    } else if Truthy(Get(x, q)) {
      SetLeavesDiverging(x, q, Str(MaskKey(text(Get(x, q)))), p);
    }
  }

  ghost predicate NoneAbove(paths: seq<Path>, p: Path) {
    forall i :: 0 <= i < |paths| ==> !(paths[i] < p)
  }

  lemma NotPrefix(q: seq<string>, p: seq<string>)
    requires !(q < p) && q != p
    ensures !(q <= p)
  {
  }

  /** Once the value at `p` is a string of some length, masking keeps it one. */
  lemma {:induction false} MaskKeepsString(text: Json -> string, x: Json, p: Path, paths: seq<Path>)
    requires KeepsStrings(text) && x.Obj? && Get(x, p).Str?
    requires NoneAbove(paths, p)
    ensures Get(Mask(text, x, paths), p).Str? && |Get(Mask(text, x, paths), p).text| == |Get(x, p).text|
    decreases |paths|
  {
    if paths != [] {
      var q, t := paths[0], Get(x, p).text;
      if q == p {
        MaskHides(t);
        SetThenGet(x, p, Str(MaskKey(t)));
      } else {
        NotPrefix(q, p);
        MaskAtElsewhere(text, x, p, q);
      }
      MaskKeepsString(text, MaskAt(text, x, q), p, paths[1..]);
    }
  }

  /** Masking turns the value at `p` into a string as long as the text of that value. */
  lemma {:induction false} MaskMakesString(
      text: Json -> string, x: Json, stored: Json, p: Path, paths: seq<Path>) returns (w: Json)
    requires KeepsStrings(text) && x.Obj? && p in paths && NoneAbove(paths, p)
    requires Like(Get(x, p), stored) && Truthy(stored) && !stored.Str?
    ensures Like(w, stored) && Get(Mask(text, x, paths), p).Str?
    ensures |Get(Mask(text, x, paths), p).text| == |text(w)|
    decreases |paths|
  {
    var q := paths[0];
    if q == p {
      w := Get(x, p);
      MaskHides(text(w));
      SetThenGet(x, p, Str(MaskKey(text(w))));
      MaskKeepsString(text, Set(x, p, Str(MaskKey(text(w)))), p, paths[1..]);
    } else {
      NotPrefix(q, p);
      MaskAtElsewhere(text, x, p, q);
      assert paths == [q] + paths[1..];
      w := MaskMakesString(text, MaskAt(text, x, q), stored, p, paths[1..]);
    }
  }

  /** Restoring never touches a string at `p` that is not recognised as the mask of the stored value. */
  lemma {:induction false} PreserveKeepsString(
      text: Json -> string, x: Json, existing: Json, p: Path, paths: seq<Path>)
    requires x.Obj? && Get(x, p).Str? && MaskOfStored(text, Get(existing, p)) != Ok(Get(x, p).text)
    requires NoneAbove(paths, p)
    ensures var r := Preserve(text, x, existing, paths); r.Ok? ==> Get(r.value, p) == Get(x, p)
    decreases |paths|
  {
    if paths != [] {
      var q := paths[0];
      var next := PreserveAt(text, x, existing, q);
      if next.Ok? {
        if p < q {
          BelowScalar(x, p, q);
        } else if q != p && next.value != x {
          NotPrefix(q, p);
          assert Diverge(q, p);
          SetLeavesDiverging(x, q, Get(existing, q), p);
        }
        PreserveKeepsString(text, next.value, existing, p, paths[1..]);
      }
    }
  }

  /** Masking, then restoring, gives the stored document back exactly when each sensitive value is falsy or a string. */
  lemma RoundTripExactlyWhen(text: Json -> string, d: Json, paths: seq<Path>)
    requires IsStr(text) && d.Obj?
    ensures Preserve(text, Mask(text, d, paths), d, paths) == Ok(d)
            <==> forall p :: p in paths ==> Maskable(d, p)
  {
    if forall p :: p in paths ==> Maskable(d, p) {
      RoundTrip(text, d, paths);
    } else {
      var p := Shortest(d, paths);
      forall i | 0 <= i < |paths|
        ensures !(paths[i] < p)
      {
        if paths[i] < p { PrefixNotMaskable(d, p, paths[i]); }
      }
      var w := MaskMakesString(text, d, Get(d, p), p, paths);
      NeverRecognised(text, w, Get(d, p), Get(Mask(text, d, paths), p).text);
      PreserveKeepsString(text, Mask(text, d, paths), d, p, paths);
    }
  }

  // ---------------------------------------------------------------------------
  // Any request against any stored document
  // ---------------------------------------------------------------------------

  /** What was submitted at the path is truthy and the mask of the stored value. */
  predicate Recognised(text: Json -> string, x: Json, existing: Json, p: Path) {
    && Truthy(Get(x, p))
    && MaskOfStored(text, Get(existing, p)).Ok?
    && Str(MaskOfStored(text, Get(existing, p)).value) == Get(x, p)
  }

  lemma {:induction false} AboveValue(v: Json, p: seq<string>, q: seq<string>)
    requires p < q && Get(v, q) != Null
    ensures Get(v, p).Obj? && Truthy(Get(v, p))
  {
    assert q == p + q[|p|..];
    GetAppend(v, p, q[|p|..]);
    GetOfNull(q[|p| + 1..]);
  }

  /** Setting a path to the value it has changes nothing. */
  lemma {:induction false} SetSame(v: Json, path: Path)
    requires v.Obj? && Get(v, path) != Null
    ensures Set(v, path, Get(v, path)) == v
    decreases |path|
  {
    GetOfNull(path[1..]);
    var child := Field(v, path[0]);
    if |path| > 1 {
      if !child.Obj? { GetOfNull(path[2..]); }
      SetSame(child, path[1..]);
    } else {
      assert path[1..] == [];
    }
    assert v.fields[path[0] := child] == v.fields;
  }

  /** Where a path leads once it is set: the paths below it lead into the new value. */
  lemma SetThenGetBelow(v: Json, q: Path, x: Json, p: seq<string>)
    requires v.Obj? && q <= p
    ensures Get(Set(v, q, x), p) == Get(x, p[|q|..])
  {
    assert p == q + p[|q|..];
    GetAppend(Set(v, q, x), q, p[|q|..]);
    SetThenGet(v, q, x);
  }

  /** Once the stored value is back at `q`, further restoring leaves it there. */
  lemma {:induction false} RestoredStays(text: Json -> string, y: Json, existing: Json, paths: seq<Path>, q: Path)
    requires y.Obj? && Truthy(Get(existing, q)) && Get(y, q) == Get(existing, q)
    requires Preserve(text, y, existing, paths).Ok?
    ensures Get(Preserve(text, y, existing, paths).value, q) == Get(existing, q)
    decreases |paths|
  {
    if paths != [] {
      var r, next := paths[0], PreserveAt(text, y, existing, paths[0]).value;
      if Recognised(text, y, existing, r) {
        if q <= r {
          assert r == q + r[|q|..];
          GetAppend(y, q, r[|q|..]);
          GetAppend(existing, q, r[|q|..]);
          SetSame(y, r);
        } else if r <= q {
          AboveValue(y, r, q);
        } else {
          SetLeavesDiverging(y, r, Get(existing, r), q);
        }
      }
      RestoredStays(text, next, existing, paths[1..], q);
    }
  }

  /** Restoring at `q` does not change what is recognised above a path that diverges from `q`. */
  lemma RecognisedElsewhere(text: Json -> string, x: Json, existing: Json, q: Path, p: seq<string>, r: Path)
    requires x.Obj? && Recognised(text, x, existing, q) && Diverge(q, p) && r <= p
    ensures Recognised(text, Set(x, q, Get(existing, q)), existing, r) == Recognised(text, x, existing, r)
  {
    var next := Set(x, q, Get(existing, q));
    if r <= q {
      assert r != q;
      SetThenGet(x, q, Get(existing, q));
      AboveValue(x, r, q);
      AboveValue(next, r, q);
    } else {
      assert !(q <= r);
      SetLeavesDiverging(x, q, Get(existing, q), r);
    }
  }

  /** Some listed path that is `p` or leads to it was submitted as the mask of what is stored there. */
  ghost predicate RecognisedAbove(text: Json -> string, x: Json, existing: Json, paths: seq<Path>, p: Path) {
    exists i :: 0 <= i < |paths| && paths[i] <= p && Recognised(text, x, existing, paths[i])
  }

  ghost predicate NoneBelow(paths: seq<Path>, p: Path) {
    forall i :: 0 <= i < |paths| ==> !(p < paths[i])
  }

  lemma RecognisedTail(text: Json -> string, x: Json, existing: Json, paths: seq<Path>, p: Path)
    requires paths != []
    ensures RecognisedAbove(text, x, existing, paths, p)
            <==> (paths[0] <= p && Recognised(text, x, existing, paths[0]))
                 || RecognisedAbove(text, x, existing, paths[1..], p)
  {
    var rest := paths[1..];
    assert forall i :: 0 < i < |paths| ==> paths[i] == rest[i - 1];
    assert forall i :: 0 <= i < |rest| ==> rest[i] == paths[i + 1];
  }

  /**
   The value at any path after restoring, whatever the list: the stored one if the path or a listed path
   leading to it was submitted masked, else the submitted one.  Only a submitted dictionary with listed paths
   inside it is composed of both, and the values inside it are again such paths.
   */
  lemma {:induction false} PreserveAtPath(
      text: Json -> string, x: Json, existing: Json, paths: seq<Path>, p: Path)
    requires x.Obj? && Preserve(text, x, existing, paths).Ok? && (Get(x, p).Obj? ==> NoneBelow(paths, p))
    ensures Get(Preserve(text, x, existing, paths).value, p)
            == if RecognisedAbove(text, x, existing, paths, p) then Get(existing, p) else Get(x, p)
    decreases |paths|
  {
    if paths != [] {
      var q, rest := paths[0], paths[1..];
      var next := PreserveAt(text, x, existing, q).value;
      RecognisedTail(text, x, existing, paths, p);
      if !Recognised(text, x, existing, q) {
        PreserveAtPath(text, x, existing, rest, p);
      } else if q <= p {
        SetThenGet(x, q, Get(existing, q));
        RestoredStays(text, next, existing, rest, q);
        assert p == q + p[|q|..];
        GetAppend(existing, q, p[|q|..]);
        GetAppend(Preserve(text, next, existing, rest).value, q, p[|q|..]);
      } else if p <= q {
        AboveValue(x, p, q);
      } else {
        SetLeavesDiverging(x, q, Get(existing, q), p);
        forall i | 0 <= i < |rest| && rest[i] <= p
          ensures Recognised(text, next, existing, rest[i]) == Recognised(text, x, existing, rest[i])
        {
          RecognisedElsewhere(text, x, existing, q, p, rest[i]);
        }
        PreserveAtPath(text, next, existing, rest, p);
      }
    }
  }

  /**
   Restoring fails at list position `i`: the stored value has no mask, and something is submitted there or was
   put there by an earlier path leading to it.
   */
  ghost predicate Unmaskable(text: Json -> string, x: Json, existing: Json, paths: seq<Path>, i: nat)
    requires i < |paths|
  {
    && MaskOfStored(text, Get(existing, paths[i])).Err?
    && (Truthy(Get(x, paths[i]))
        || exists j :: 0 <= j < i && paths[j] < paths[i] && Recognised(text, x, existing, paths[j]))
  }

  /** One restoring step does not change at which later positions restoring fails. */
  lemma UnmaskableTail(text: Json -> string, x: Json, existing: Json, paths: seq<Path>, i: nat)
    requires x.Obj? && 0 < i < |paths| && PreserveAt(text, x, existing, paths[0]).Ok?
    ensures Unmaskable(text, PreserveAt(text, x, existing, paths[0]).value, existing, paths[1..], i - 1)
            == Unmaskable(text, x, existing, paths, i)
  {
    var q, r, rest := paths[0], paths[i], paths[1..];
    assert rest[i - 1] == r;
    assert forall j :: 0 <= j < i - 1 ==> rest[j] == paths[j + 1];
    assert forall j :: 1 <= j < i ==> paths[j] == rest[j - 1];
    if Recognised(text, x, existing, q) && MaskOfStored(text, Get(existing, r)).Err? {
      var next := Set(x, q, Get(existing, q));
      SetThenGet(x, q, Get(existing, q));
      if q <= r {
        SetThenGetBelow(x, q, Get(existing, q), r);
        assert r == q + r[|q|..];
        GetAppend(existing, q, r[|q|..]);
        assert Truthy(Get(next, r));
      } else if r <= q {
        AboveValue(x, r, q);
        AboveValue(next, r, q);
      } else {
        SetLeavesDiverging(x, q, Get(existing, q), r);
        forall j | 0 <= j < i - 1 && rest[j] < r
          ensures Recognised(text, next, existing, rest[j]) == Recognised(text, x, existing, rest[j])
        {
          RecognisedElsewhere(text, x, existing, q, r, rest[j]);
        }
      }
    }
  }

  /** Restoring raises exactly when it fails at some position of the list, whatever the list. */
  lemma {:induction false} PreserveFailsExactlyWhen(
      text: Json -> string, x: Json, existing: Json, paths: seq<Path>)
    requires x.Obj?
    ensures Preserve(text, x, existing, paths).Err?
            <==> exists i: nat :: i < |paths| && Unmaskable(text, x, existing, paths, i)
    decreases |paths|
  {
    if paths != [] {
      var next := PreserveAt(text, x, existing, paths[0]);
      if next.Err? {
        assert Unmaskable(text, x, existing, paths, 0);
      } else {
        assert !Unmaskable(text, x, existing, paths, 0);
        PreserveFailsExactlyWhen(text, next.value, existing, paths[1..]);
        if i: nat :| i < |paths| && Unmaskable(text, x, existing, paths, i) {
          UnmaskableTail(text, x, existing, paths, i);
          assert Unmaskable(text, next.value, existing, paths[1..], i - 1);
        }
        if i: nat :| i < |paths[1..]| && Unmaskable(text, next.value, existing, paths[1..], i) {
          UnmaskableTail(text, x, existing, paths, i + 1);
          assert Unmaskable(text, x, existing, paths, i + 1);
        }
      }
    }
  }

  /** Masking leaves every diverging path as it was. */
  lemma {:induction false} MaskLeavesOthers(text: Json -> string, v: Json, paths: seq<Path>, q: Path)
    requires v.Obj? && forall i :: 0 <= i < |paths| ==> Diverge(paths[i], q)
    ensures Get(Mask(text, v, paths), q) == Get(v, q)
    decreases |paths|
  {
    if paths != [] {
      var p := paths[0];
      if Truthy(Get(v, p)) {
        SetLeavesDiverging(v, p, Str(MaskKey(text(Get(v, p)))), q);
      }
      MaskLeavesOthers(text, MaskAt(text, v, p), paths[1..], q);
    }
  }

  // ---------------------------------------------------------------------------
  // The two loops over the sensitive fields of a provider
  // ---------------------------------------------------------------------------

  function Paths(fieldNames: seq<string>): seq<Path> {
    seq(|fieldNames|, i requires 0 <= i < |fieldNames| => Split(fieldNames[i]))
  }

  lemma {:induction false} MaskAppend(text: Json -> string, v: Json, paths: seq<Path>, p: Path)
    requires v.Obj?
    ensures Mask(text, v, paths + [p]) == MaskAt(text, Mask(text, v, paths), p)
    decreases |paths|
  {
    if paths == [] {
      assert [] + [p] == [p];
    } else {
      assert (paths + [p])[1..] == paths[1..] + [p];
      MaskAppend(text, MaskAt(text, v, paths[0]), paths[1..], p);
    }
  }

  method MaskSensitive(text: Json -> string, fieldNames: seq<string>, value: Json) returns (out: Json)
    requires value.Obj?
    ensures out == Mask(text, value, Paths(fieldNames))
  {
    out := value;
    for i := 0 to |fieldNames|
      invariant out.Obj? && out == Mask(text, value, Paths(fieldNames[..i]))
    {
      MaskAppend(text, value, Paths(fieldNames[..i]), Split(fieldNames[i]));
      assert Paths(fieldNames[..i + 1]) == Paths(fieldNames[..i]) + [Split(fieldNames[i])];
      var v := Get(out, Split(fieldNames[i]));
      if Truthy(v) {
        out := Set(out, Split(fieldNames[i]), Str(MaskKey(text(v))));
      }
    }
    assert fieldNames[..|fieldNames|] == fieldNames;
  }

  method PreserveMaskedFields(text: Json -> string, fieldNames: seq<string>, request: Json, existing: Json)
    returns (r: Result<Json, string>)
    requires request.Obj?
    ensures r == Preserve(text, request, existing, Paths(fieldNames))
  {
    var out := request;
    for i := 0 to |fieldNames|
      invariant out.Obj?
      invariant Preserve(text, request, existing, Paths(fieldNames))
                == Preserve(text, out, existing, Paths(fieldNames[i..]))
    {
      assert Paths(fieldNames[i..])[1..] == Paths(fieldNames[i + 1..]);
      var path := Split(fieldNames[i]);
      var v := Get(out, path);
      var stored := Get(existing, path);
      if Truthy(v) {
        var mask := MaskOfStored(text, stored);
        if mask.Err? {
          return Err(mask.error);
        }
        if Str(mask.value) == v {
          out := Set(out, path, stored);
        }
      }
    }
    r := Ok(out);
  }
}
