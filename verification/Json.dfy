/** JSON values as JSON.parse returns them; a number is known by its printed text. */
module Json {
  import opened Basics

  datatype Json =
    | Null
    | Bool(value: bool)
    | Num(text: string)
    | Str(chars: string)
    | Arr(items: seq<Json>)
    | Obj(fields: seq<Field>)

  datatype Field = Field(key: string, value: Json)

  /** Property access: a later property of the same name replaces an earlier one. */
  function Get(fields: seq<Field>, key: string): Option<Json> {
    if fields == [] then None
    else if fields[|fields| - 1].key == key then Some(fields[|fields| - 1].value)
    else Get(fields[..|fields| - 1], key)
  }

  lemma GetLast(fields: seq<Field>, f: Field, key: string)
    ensures Get(fields + [f], key) == if f.key == key then Some(f.value) else Get(fields, key)
  {
    assert (fields + [f])[..|fields|] == fields;
  }
}
