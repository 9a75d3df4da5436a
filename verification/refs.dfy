/** The `TSReference` records that `nuxi prepare` collects and renders. */
module Refs {

  /** The JavaScript value an attribute of a reference holds: a string, or
      `undefined` when a key is present without a value. */
  datatype AttrValue = Str(s: string) | Undefined

  /** JavaScript truthiness over these values: only a non-empty string is truthy. */
  predicate Truthy(v: AttrValue)
  {
    v.Str? && v.s != ""
  }

  /** One own property of a reference object. */
  datatype Attr = Attr(key: string, value: AttrValue)

  /** A reference object, represented by the list `Object.entries` yields for it. */
  datatype Reference = Reference(entries: seq<Attr>)

  const TypesKey := "types"
  const PathKey := "path"

  /** The reference has an entry for `key`. */
  predicate HasKey(ref: Reference, key: string)
  {
    exists i :: 0 <= i < |ref.entries| && ref.entries[i].key == key
  }

  /** No key appears twice, as in any JavaScript object. */
  predicate WellFormed(ref: Reference)
  {
    forall i, j :: 0 <= i < j < |ref.entries| ==> ref.entries[i].key != ref.entries[j].key
  }

  /** The reference whose only entry is `types`, holding `name`. */
  function TypesRef(name: string): Reference
  {
    Reference([Attr(TypesKey, Str(name))])
  }
}
