/** The Python object graphs that reach the canonical printer, and dictionary access. */
module PythonValues {
  import opened Wrappers
  import opened Unicode
  import opened Numbers

  /**
   `Arr` is a list or a tuple; `Obj` is a dict with its members in insertion order;
   `Time` is a datetime, the one foreign object the repository passes around.
   */
  datatype Json =
    | Null
    | Bool(b: bool)
    | Num(num: Number)
    | Str(s: Text)
    | Arr(tuple: bool, elems: seq<Json>)
    | Obj(members: seq<Member>)
    | Time(instant: int)

  datatype Member = Member(key: Text, value: Json)

  predicate DistinctNames(ms: seq<Member>) {
    forall i, j :: 0 <= i < j < |ms| ==> ms[i].key != ms[j].key
  }

  /** A dict holds each key once, at every depth. */
  predicate IsPython(j: Json) {
    match j
    case Arr(_, elems) => forall i :: 0 <= i < |elems| ==> IsPython(elems[i])
    case Obj(ms) => DistinctNames(ms) && forall i :: 0 <= i < |ms| ==> IsPython(ms[i].value)
    case _ => true
  }

  /** `dict.get(key)`, with `None` for an absent key. */
  function Get(ms: seq<Member>, key: Text): (r: Option<Json>)
    ensures r.Some? <==> exists i :: 0 <= i < |ms| && ms[i].key == key
  {
    if ms == [] then None else if ms[0].key == key then Some(ms[0].value) else Get(ms[1..], key)
  }

  /** `{k: v for k, v in d.items() if k != key}` */
  function Without(ms: seq<Member>, key: Text): seq<Member> {
    if ms == [] then []
    else if ms[0].key == key then Without(ms[1..], key)
    else [ms[0]] + Without(ms[1..], key)
  }

  /** `d[key] = value`: replace in place, or append a new member. */
  function Put(ms: seq<Member>, key: Text, value: Json): seq<Member> {
    if ms == [] then [Member(key, value)]
    else if ms[0].key == key then [Member(key, value)] + ms[1..]
    else [ms[0]] + Put(ms[1..], key, value)
  }

  lemma {:induction false} GetIs(ms: seq<Member>, i: nat)
    requires DistinctNames(ms) && i < |ms|
    ensures Get(ms, ms[i].key) == Some(ms[i].value)
  {
    if i > 0 {
      GetIs(ms[1..], i - 1);
    }
  }

  lemma {:induction false} WithoutMembers(ms: seq<Member>, key: Text, m: Member)
    ensures m in Without(ms, key) <==> m in ms && m.key != key
  {
    if ms != [] {
      WithoutMembers(ms[1..], key, m);
      assert ms == [ms[0]] + ms[1..];
    }
  }
}
