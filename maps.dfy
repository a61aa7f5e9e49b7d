/** Go's map-copy loop `for k, v := range src { dst[k] = v }`. */
module GoMaps {

  /** Copies every entry of `src` over `dst`, one key at a time in an arbitrary
      order (Go's map iteration order is unspecified): the result holds every
      key of both maps, and on a shared key the entry from `src` wins. */
  method Overlay<K, V>(dst: map<K, V>, src: map<K, V>) returns (r: map<K, V>)
    ensures r.Keys == dst.Keys + src.Keys
    ensures forall k :: k in src ==> r[k] == src[k]
    ensures forall k :: k in dst && k !in src ==> r[k] == dst[k]
    ensures r == dst + src
  {
    r := dst;
    var todo := src.Keys;
    while todo != {}
      invariant todo <= src.Keys
      invariant r.Keys == dst.Keys + (src.Keys - todo)
      invariant forall k :: k in src && k !in todo ==> r[k] == src[k]
      invariant forall k :: k in dst && (k !in src || k in todo) ==> r[k] == dst[k]
      decreases todo
    {
      var k :| k in todo;
      r := r[k := src[k]];
      todo := todo - {k};
    }
  }
}
