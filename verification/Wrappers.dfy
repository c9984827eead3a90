module Wrappers {

  datatype Found<T> = Absent | Present(value: T)

  function Get<K, V>(m: map<K, V>, k: K): Found<V> {
    if k in m then Present(m[k]) else Absent
  }
}
