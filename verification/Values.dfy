/**
 Values shared by every module: the option type, JSON values as Python's `json`
 module reads them, and lookups that give `None` for a missing key.
 */
module Values {

  datatype Option<+T> = None | Some(value: T) {
    function GetOr(default: T): T {
      match this
      case Some(v) => v
      case None => default
    }
  }

  datatype Json =
    | Null
    | Bool(b: bool)
    | Num(n: real)
    | Str(s: string)
    | List(items: seq<Json>)
    | Obj(entries: map<string, Json>)

  type Dict = map<string, Json>

  /** `d.get(key)`: the entry, or null when there is none. */
  function Get(d: Dict, key: string): Json {
    if key in d then d[key] else Null
  }

  /** `m.get(key)` on a map of any value type. */
  function Lookup<K, V>(m: map<K, V>, key: K): Option<V> {
    if key in m then Some(m[key]) else None
  }

  /** The newest `n` entries, as a bounded deque keeps them. */
  function Last<T>(s: seq<T>, n: nat): (r: seq<T>)
    ensures |r| == (if |s| <= n then |s| else n)
    ensures forall i :: 0 <= i < |r| ==> r[i] == s[|s| - |r| + i]
  {
    if |s| <= n then s else s[|s| - n..]
  }
}
