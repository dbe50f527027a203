/** JSON values, with objects as entry lists, and paths into them. */
module Json {
  import opened JsText
  import opened OrderedMaps

  datatype Json =
    | Null
    | Bool(b: bool)
    | Number(n: real)
    | Str(s: string)
    | Arr(items: seq<Json>)
    | Obj(fields: Entries<Json>)

  datatype PathStep = Field(name: string) | Index(i: nat)

  function Child(j: Json, step: PathStep): Option<Json> {
    match step
    case Field(name) => if j.Obj? then Get(j.fields, name) else None
    case Index(i) => if j.Arr? && i < |j.items| then Some(j.items[i]) else None
  }

  /** The value at a path; None when the path leads nowhere. */
  function Lookup(j: Json, path: seq<PathStep>): Option<Json>
    decreases |path|
  {
    if path == [] then Some(j)
    else
      var child := Child(j, path[0]);
      if child.None? then None else Lookup(child.value, path[1..])
  }

  /** A value without what lies below it. */
  datatype Shape = Scalar(j: Json) | ArrayOf(length: nat) | ObjectOf(keys: seq<string>)

  function ShapeOf(j: Json): Shape {
    match j
    case Arr(items) => ArrayOf(|items|)
    case Obj(fields) => ObjectOf(Keys(fields))
    case _ => Scalar(j)
  }

  function ShapeAt(j: Json, path: seq<PathStep>): Option<Shape> {
    var v := Lookup(j, path);
    if v.None? then None else Some(ShapeOf(v.value))
  }
}
