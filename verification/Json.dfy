/** JSON values as the repository holds them after `model_dump` or `json.loads`.
    Objects compare as Python dictionaries do: by members, not by order. */
module Json {
  datatype Value =
    | Null
    | Bool(flag: bool)
    | Num(number: real)
    | Str(text: string)
    | Arr(items: seq<Value>)
    | Obj(members: map<string, Value>)
}
