/** Result types and elementary facts shared by the other modules. */
module Wrappers {

  datatype Option<+T> = None | Some(value: T)

  lemma Regroup<T>(a: seq<T>, b: seq<T>, c: seq<T>)
    ensures a + b + c == a + (b + c)
  {
  }

  /** An update of a union is an update of the map that wins in it. */
  lemma UpdateUnion<K, V>(a: map<K, V>, b: map<K, V>, key: K, value: V)
    ensures (a + b)[key := value] == a + b[key := value]
  {
  }
}
