/**
 Python's `str` of JSON values, as far as masking depends on it.  Quotes and backslashes inside nested strings
 are not escaped, and the fields of a dictionary come in some fixed order.
 */
module PythonText {
  import opened Common
  import opened Masking
  import opened NestedFields

  ghost function PyStr(v: Json): string
    decreases v, 0
  {
    match v
    case Null => "None"
    case Bool(b) => if b then "True" else "False"
    case Num(n) => IntText(n)
    case Str(s) => s
    case List(l) => "[" + Items(l) + "]"
    case Obj(m) => "{" + Fields(v, m.Keys) + "}"
  }

  /** `repr`: strings are quoted. */
  ghost function PyRepr(v: Json): (r: string)
    ensures r != ""
    decreases v, 1
  {
    if v.Str? then "'" + v.text + "'"
    else
      assert v.Num? ==> IntText(v.number) != "";
      PyStr(v)
  }

  ghost function Items(l: seq<Json>): string
    decreases l
  {
    if l == [] then ""
    else if |l| == 1 then PyRepr(l[0])
    else PyRepr(l[0]) + ", " + Items(l[1..])
  }

  ghost function Fields(v: Json, keys: set<string>): (r: string)
    requires v.Obj? && keys <= v.fields.Keys
    ensures |r| >= |keys|
    decreases v, 0, |keys|
  {
    if keys == {} then ""
    else
      var k :| k in keys;
      "'" + k + "': " + PyRepr(v.fields[k]) + (if |keys| == 1 then "" else ", ") + Fields(v, keys - {k})
  }

  lemma {:induction false} ItemsAreLong(l: seq<Json>, k: nat)
    requires k < |l|
    ensures |Items(l)| >= |Items(l[k..])| + 3 * k && |Items(l)| >= |l|
    decreases |l|
  {
    if |l| > 1 {
      ItemsAreLong(l[1..], if k > 0 then k - 1 else 0);
      if k > 0 {
        assert l[1..][k - 1..] == l[k..];
      } else {
        assert l[k..] == l;
      }
    } else {
      assert l[k..] == l;
    }
  }

  /** The laws that masking uses hold of it. */
  lemma PyStrMeetsLaws()
    ensures IsStr(PyStr)
  {
    forall l, k: nat | k < |l|
      ensures |PyStr(List(l))| > |l|
      ensures k > 0 ==> |PyStr(List(l))| > |PyStr(List(l[k..]))| + k
    {
      ItemsAreLong(l, k);
    }
    forall m
      ensures |PyStr(Obj(m))| > |m|
    {
      assert |Fields(Obj(m), m.Keys)| >= |m.Keys| == |m|;
    }
  }

  /** Python's texts meet the laws, so the round trip is exact for them. */
  lemma RoundTripInPython(d: Json, paths: seq<Path>)
    requires d.Obj?
    ensures Preserve(PyStr, Mask(PyStr, d, paths), d, paths) == Ok(d)
            <==> forall p :: p in paths ==> Maskable(d, p)
  {
    PyStrMeetsLaws();
    RoundTripExactlyWhen(PyStr, d, paths);
  }

  /** A stored number is masked as a text that cannot be restored: the comparison raises. */
  lemma NumberIsLost()
    ensures var d, paths := Obj(map["pin" := Num(7)]), [["pin"]];
            && Mask(PyStr, d, paths) == Obj(map["pin" := Str("*")])
            && Preserve(PyStr, Mask(PyStr, d, paths), d, paths) == Err("TypeError")
  {
    var d, path: Path := Obj(map["pin" := Num(7)]), ["pin"];
    assert path[1..] == [];
    assert Get(d, path) == Num(7);
    assert MaskKey(PyStr(Num(7))) == "*";
    assert Mask(PyStr, d, [path]) == MaskAt(PyStr, d, path);
    assert MaskAt(PyStr, d, path) == Obj(map["pin" := Str("*")]);
    assert Get(Obj(map["pin" := Str("*")]), path) == Str("*");
  }
}
