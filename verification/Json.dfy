/** JSON trees as the drafts, contracts and tool arguments of the agent hold them.
    An object keeps its members in insertion order, as a Python dictionary does. */
module Json {

  datatype Option<+T> = None | Some(value: T)

  datatype Json =
    | Null
    | Bool(b: bool)
    | Num(n: real)
    | Str(s: string)
    | Arr(items: seq<Json>)
    | Obj(members: seq<Member>)

  datatype Member = Member(key: string, value: Json)

  /** dict.get: the value under a key, if the key is present. */
  function Get(ms: seq<Member>, key: string): (r: Option<Json>) {
    if ms == [] then None
    else if ms[0].key == key then Some(ms[0].value)
    else Get(ms[1..], key)
  }

  /** Item assignment: an existing key keeps its place, a new key goes last. */
  function Put(ms: seq<Member>, key: string, v: Json): (r: seq<Member>) {
    if ms == [] then [Member(key, v)]
    else if ms[0].key == key then [Member(key, v)] + ms[1..]
    else [ms[0]] + Put(ms[1..], key, v)
  }

  /** No key occurs twice, which every Python dictionary guarantees. */
  predicate UniqueKeys(ms: seq<Member>) {
    forall i, j :: 0 <= i < j < |ms| ==> ms[i].key != ms[j].key
  }

  lemma {:induction false} GetPut(ms: seq<Member>, key: string, v: Json, k: string)
    ensures Get(Put(ms, key, v), k) == if k == key then Some(v) else Get(ms, k)
  {
    if ms == [] {
    } else if ms[0].key == key {
    } else {
      GetPut(ms[1..], key, v, k);
      assert Put(ms, key, v)[1..] == Put(ms[1..], key, v);
    }
  }

  lemma {:induction false} PutUnique(ms: seq<Member>, key: string, v: Json)
    requires UniqueKeys(ms)
    ensures UniqueKeys(Put(ms, key, v))
    ensures forall m :: m in Put(ms, key, v) ==> m.key == key || m in ms
  {
    if ms != [] && ms[0].key != key {
      PutUnique(ms[1..], key, v);
      var rest := Put(ms[1..], key, v);
      forall j | 0 <= j < |rest| ensures rest[j].key != ms[0].key {
        assert rest[j] in rest;
      }
    }
  }

  lemma {:induction false} GetMember(ms: seq<Member>, i: nat)
    requires UniqueKeys(ms) && i < |ms|
    ensures Get(ms, ms[i].key) == Some(ms[i].value)
  {
    if i > 0 {
      assert ms[0].key != ms[i].key;
      GetMember(ms[1..], i - 1);
    }
  }

  /** Python truth value. */
  predicate Truthy(v: Json) {
    match v
    case Null => false
    case Bool(b) => b
    case Num(n) => n != 0.0
    case Str(s) => s != ""
    case Arr(items) => items != []
    case Obj(ms) => ms != []
  }

  /** The values the wizard treats as "not answered": None, "" and []. */
  predicate Blank(v: Json) {
    v == Null || v == Str("") || v == Arr([])
  }
}
