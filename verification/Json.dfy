/** JSON values. Object members are listed in serialization order. */
module Json {
  import opened Prelude

  datatype Json =
    | Null
    | Bool(b: bool)
    | Num(text: string)
    | Str(s: string)
    | Arr(items: seq<Json>)
    | Obj(members: seq<Member>)

  datatype Member = Member(name: string, value: Json)

  /** The value of a member, if `v` is an object that has it. */
  function Get(v: Json, name: string): Option<Json> {
    if v.Obj? then Find(v.members, name) else None
  }

  function Find(ms: seq<Member>, name: string): Option<Json> {
    if ms == [] then None
    else if ms[0].name == name then Some(ms[0].value)
    else Find(ms[1..], name)
  }
}
