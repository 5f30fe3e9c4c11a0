/** The "highest delete layer per key" map that every equality-delete lookup is built on
    (`safe::FlatHashMap`, `safe::UpdateMax`). */
module MaxLayers {

  function UpdateMax<K>(values: map<K, int>, key: K, layer: int): map<K, int>
  {
    if key !in values then values[key := layer]
    else values[key := if values[key] < layer then layer else values[key]]
  }

  /** The lookup's test: some layer is stored for the key and it is not below `dataLayer`. */
  predicate Has<K(==)>(values: map<K, int>, key: K, dataLayer: int)
  {
    key in values && values[key] >= dataLayer
  }

  /** One update makes exactly the new pair, and everything below it, visible. */
  lemma {:induction false} UpdateMaxHas<K>(values: map<K, int>, key: K, layer: int, k: K, l: int)
    ensures Has(UpdateMax(values, key, layer), k, l) <==> Has(values, k, l) || (k == key && l <= layer)
  {
  }
}
