/** Shared value types: optional values, results with an error, and JSON documents. */
module Common {

  datatype Option<+T> = None | Some(value: T)

  datatype Result<+T, +E> = Ok(value: T) | Err(error: E)

  /** A JSON document as Python sees it after loading: `None`, scalars, lists and dictionaries. */
  datatype Json =
    | Null
    | Bool(flag: bool)
    | Num(number: int)
    | Str(text: string)
    | List(items: seq<Json>)
    | Obj(fields: map<string, Json>)

  /** Python's truth value of a JSON document. */
  predicate Truthy(v: Json) {
    match v
    case Null => false
    case Bool(b) => b
    case Num(n) => n != 0
    case Str(s) => s != ""
    case List(items) => items != []
    case Obj(fields) => fields != map[]
  }

  /** `{**base, **patch}`: the keys of both, the patch winning. */
  function MergeDict(base: map<string, Json>, patch: map<string, Json>): map<string, Json> {
    base + patch
  }

  function Digits(n: nat): string {
    if n < 10 then [('0' as int + n) as char] else Digits(n / 10) + [('0' as int + n % 10) as char]
  }

  /** Python's `str` of an integer. */
  function IntText(n: int): string {
    if n < 0 then "-" + Digits(-n) else Digits(n)
  }

  /** `separator.join(parts)`. */
  function JoinWith(separator: string, parts: seq<string>): string {
    if |parts| == 0 then ""
    else if |parts| == 1 then parts[0]
    else parts[0] + separator + JoinWith(separator, parts[1..])
  }

  /** A character put in front of the first part is in front of the joined text. */
  lemma JoinWithHead(separator: string, c: char, head: string, tail: seq<string>)
    ensures JoinWith(separator, [[c] + head] + tail) == [c] + JoinWith(separator, [head] + tail)
  {
    assert ([[c] + head] + tail)[1..] == tail && ([head] + tail)[1..] == tail;
    if tail != [] {
      assert ([c] + head) + separator + JoinWith(separator, tail)
             == [c] + (head + separator + JoinWith(separator, tail));
    }
  }

  /** `v.get(part)` on a dictionary; nothing is found in any other value. */
  function Field(v: Json, part: string): Json {
    if v.Obj? && part in v.fields then v.fields[part] else Null
  }
}
