/** Removal of schema fields the Antigravity API rejects, without touching tool identity. */
module ToolCloaking {
  import opened JsText
  import opened OrderedMaps
  import opened Json

  const REJECTED := "enumDescriptions"

  function Strip(schema: Json): Json
    decreases schema, 1
  {
    match schema
    case Arr(items) => Arr(StripItems(items))
    case Obj(fields) => Obj(StripFields(fields))
    case _ => schema
  }

  function StripItems(items: seq<Json>): seq<Json>
    decreases items, 0
  {
    if items == [] then [] else [Strip(items[0])] + StripItems(items[1..])
  }

  function StripFields(fields: Entries<Json>): Entries<Json>
    decreases fields, 0
  {
    if fields == [] then [] else StripField(fields[0]) + StripFields(fields[1..])
  }

  function StripField(field: (string, Json)): Entries<Json>
    decreases field, 0
  {
    if field.0 == REJECTED then [] else [(field.0, Strip(field.1))]
  }

  /** The path names no rejected field. */
  predicate Avoids(path: seq<PathStep>) {
    Field(REJECTED) !in path
  }

  function StripOption(v: Option<Json>): Option<Json> {
    if v.None? then None else Some(Strip(v.value))
  }

  lemma {:induction false} StripItemsAt(items: seq<Json>)
    ensures |StripItems(items)| == |items|
    ensures forall i :: 0 <= i < |items| ==> StripItems(items)[i] == Strip(items[i])
  {
    if items != [] {
      StripItemsAt(items[1..]);
    }
  }

  lemma {:induction false} StripFieldsGet(fields: Entries<Json>, k: string)
    ensures Get(StripFields(fields), k) == if k == REJECTED then None else StripOption(Get(fields, k))
  {
    if fields != [] {
      StripFieldsGet(fields[1..], k);
      if fields[0].0 != REJECTED {
        assert StripFields(fields) == [(fields[0].0, Strip(fields[0].1))] + StripFields(fields[1..]);
        assert StripFields(fields)[1..] == StripFields(fields[1..]);
      } else {
        assert StripFields(fields) == StripFields(fields[1..]);
      }
    }
  }

  /** Stripping commutes with lookup along every path that avoids the key, and no path finds the key. */
  lemma {:induction false} StripLookup(schema: Json, path: seq<PathStep>)
    ensures Lookup(Strip(schema), path) == if Avoids(path) then StripOption(Lookup(schema, path)) else None
    decreases |path|
  {
    if path != [] {
      assert path == [path[0]] + path[1..];
      if schema.Arr? {
        StripItemsAt(schema.items);
      } else if schema.Obj? && path[0].Field? {
        StripFieldsGet(schema.fields, path[0].name);
      }
      var child := Child(schema, path[0]);
      if child.Some? {
        StripLookup(child.value, path[1..]);
      }
    }
  }

  lemma {:induction false} StripIdempotent(schema: Json)
    ensures Strip(Strip(schema)) == Strip(schema)
    decreases schema, 1
  {
    match schema
    case Arr(items) => StripItemsIdempotent(items);
    case Obj(fields) => StripFieldsIdempotent(fields);
    case _ =>
  }

  lemma {:induction false} StripItemsIdempotent(items: seq<Json>)
    ensures StripItems(StripItems(items)) == StripItems(items)
    decreases items, 0
  {
    if items != [] {
      StripIdempotent(items[0]);
      StripItemsIdempotent(items[1..]);
      assert StripItems(items)[1..] == StripItems(items[1..]);
    }
  }

  lemma {:induction false} StripFieldsIdempotent(fields: Entries<Json>)
    ensures StripFields(StripFields(fields)) == StripFields(fields)
    decreases fields, 0
  {
    if fields != [] {
      StripFieldIdempotent(fields[0]);
      StripFieldsIdempotent(fields[1..]);
      if fields[0].0 == REJECTED {
        assert StripFields(fields) == StripFields(fields[1..]);
      } else {
        assert StripFields(fields)[1..] == StripFields(fields[1..]);
      }
    }
  }

  lemma {:induction false} StripFieldIdempotent(field: (string, Json))
    ensures Strip(Strip(field.1)) == Strip(field.1)
    decreases field, 0
  {
    StripIdempotent(field.1);
  }

  // ----- the payload -----

  datatype Pattern = Key(name: string) | Each

  /** Where the declarations' parameter schemas lie in a request body. */
  const PARAMETERS :=
    [Key("request"), Key("tools"), Each, Key("functionDeclarations"), Each, Key("parameters")]

  predicate MatchesStep(pattern: Pattern, step: PathStep) {
    match pattern
    case Key(name) => step == Field(name)
    case Each => step.Index?
  }

  predicate Matches(pattern: seq<Pattern>, path: seq<PathStep>) {
    |pattern| <= |path| && forall i :: 0 <= i < |pattern| ==> MatchesStep(pattern[i], path[i])
  }

  /** The value with everything found at the pattern stripped. */
  function StripAt(pattern: seq<Pattern>, j: Json): Json
    decreases |pattern|, 0
  {
    if pattern == [] then Strip(j)
    else match pattern[0]
      case Key(name) =>
        if j.Obj? && Get(j.fields, name).Some?
        then Obj(Put(j.fields, name, StripAt(pattern[1..], Get(j.fields, name).value)))
        else j
      case Each => if j.Arr? then Arr(StripEachAt(pattern[1..], j.items)) else j
  }

  function StripEachAt(pattern: seq<Pattern>, items: seq<Json>): seq<Json>
    decreases |pattern|, 1
  {
    seq(|items|, i requires 0 <= i < |items| => StripAt(pattern, items[i]))
  }

  /**
   * What becomes of every path: below the pattern it is stripped, and everywhere else the shape
   * stays, that is every scalar, every array length and every list of field names.
   */
  lemma {:induction false} StripAtPath(pattern: seq<Pattern>, j: Json, path: seq<PathStep>)
    ensures Matches(pattern, path) ==>
              Lookup(StripAt(pattern, j), path) ==
              if Avoids(path[|pattern|..]) then StripOption(Lookup(j, path)) else None
    ensures !Matches(pattern, path) ==> ShapeAt(StripAt(pattern, j), path) == ShapeAt(j, path)
    decreases |pattern|
  {
    if pattern == [] {
      assert path[0..] == path;
      StripLookup(j, path);
    } else if path == [] {
      KeepsShape(pattern, j);
    } else {
      MatchesTail(pattern, path);
      StripAtChild(pattern, j, path[0]);
      var child := Child(j, path[0]);
      if child.Some? && MatchesStep(pattern[0], path[0]) {
        StripAtPath(pattern[1..], child.value, path[1..]);
        if Matches(pattern, path) {
          assert path[1..][|pattern[1..]|..] == path[|pattern|..];
        }
      }
    }
  }

  lemma MatchesTail(pattern: seq<Pattern>, path: seq<PathStep>)
    requires pattern != [] && path != []
    ensures Matches(pattern, path) <==> MatchesStep(pattern[0], path[0]) && Matches(pattern[1..], path[1..])
  {
    if MatchesStep(pattern[0], path[0]) && Matches(pattern[1..], path[1..]) {
      forall i | 0 <= i < |pattern|
        ensures MatchesStep(pattern[i], path[i])
      {
        if i > 0 {
          assert MatchesStep(pattern[1..][i - 1], path[1..][i - 1]);
        }
      }
    }
  }

  lemma KeepsShape(pattern: seq<Pattern>, j: Json)
    requires pattern != []
    ensures ShapeOf(StripAt(pattern, j)) == ShapeOf(j)
  {
    if pattern[0].Key? && j.Obj? && Get(j.fields, pattern[0].name).Some? {
      GetHas(j.fields, pattern[0].name);
      PutKeys(j.fields, pattern[0].name, StripAt(pattern[1..], Get(j.fields, pattern[0].name).value));
    }
  }

  lemma StripAtChild(pattern: seq<Pattern>, j: Json, step: PathStep)
    requires pattern != []
    ensures var child := Child(j, step);
            Child(StripAt(pattern, j), step) ==
            if child.Some? && MatchesStep(pattern[0], step) then Some(StripAt(pattern[1..], child.value)) else child
  {
    if pattern[0].Key? && j.Obj? && Get(j.fields, pattern[0].name).Some? && step.Field? {
      GetPut(j.fields, pattern[0].name, StripAt(pattern[1..], Get(j.fields, pattern[0].name).value), step.name);
    }
  }

  lemma {:induction false} StripAtIdempotent(pattern: seq<Pattern>, j: Json)
    ensures StripAt(pattern, StripAt(pattern, j)) == StripAt(pattern, j)
    decreases |pattern|
  {
    if pattern == [] {
      StripIdempotent(j);
    } else if pattern[0].Key? {
      if j.Obj? && Get(j.fields, pattern[0].name).Some? {
        var before := Get(j.fields, pattern[0].name).value;
        var after := StripAt(pattern[1..], before);
        var fields := Put(j.fields, pattern[0].name, after);
        StripAtIdempotent(pattern[1..], before);
        GetPut(j.fields, pattern[0].name, after, pattern[0].name);
        PutSame(fields, pattern[0].name, after);
      }
    } else if j.Arr? {
      forall i | 0 <= i < |j.items| {
        StripAtIdempotent(pattern[1..], j.items[i]);
      }
      assert StripEachAt(pattern[1..], StripEachAt(pattern[1..], j.items)) == StripEachAt(pattern[1..], j.items);
    }
  }

  /** A rewriting that leaves the field as it is leaves the record as it is. */
  lemma UnchangedField(pattern: seq<Pattern>, j: Json)
    requires pattern != [] && pattern[0].Key?
    requires j.Obj? ==> var v := Get(j.fields, pattern[0].name);
                        v.Some? ==> StripAt(pattern[1..], v.value) == v.value
    ensures StripAt(pattern, j) == j
  {
    if j.Obj? && Get(j.fields, pattern[0].name).Some? {
      PutSame(j.fields, pattern[0].name, Get(j.fields, pattern[0].name).value);
    }
  }

  /** The body itself when nothing had to change, else a copy with the schemas stripped. */
  method SanitizeToolPayload(body: Json) returns (result: Json)
    ensures result == StripAt(PARAMETERS, body)
  {
    var rest := PARAMETERS[1..];
    assert PARAMETERS[0] == Key("request") && rest[0] == Key("tools");
    if !body.Obj? || Get(body.fields, "request").None? {
      return body;
    }
    var request := Get(body.fields, "request").value;
    if !request.Obj? || Get(request.fields, "tools").None? || !Get(request.fields, "tools").value.Arr? {
      assert StripAt(rest, request) == request by {
        assert rest[1..][0] == Each;
        UnchangedField(rest, request);
      }
      UnchangedField(PARAMETERS, body);
      return body;
    }
    var tools, changed := SanitizeTools(Get(request.fields, "tools").value.items);
    assert rest[1..] == [Each] + PARAMETERS[3..] && rest[1..][1..] == PARAMETERS[3..];
    if !changed {
      UnchangedField(rest, request);
      UnchangedField(PARAMETERS, body);
      return body;
    }
    return Obj(Put(body.fields, "request", Obj(Put(request.fields, "tools", Arr(tools)))));
  }

  method SanitizeTools(tools: seq<Json>) returns (result: seq<Json>, changed: bool)
    ensures result == StripEachAt(PARAMETERS[3..], tools)
    ensures !changed ==> result == tools
  {
    result, changed := [], false;
    for i := 0 to |tools|
      invariant result == StripEachAt(PARAMETERS[3..], tools[..i])
      invariant !changed ==> result == tools[..i]
    {
      var tool, toolChanged := SanitizeTool(tools[i]);
      assert tools[..i + 1] == tools[..i] + [tools[i]];
      result := result + [tool];
      changed := changed || toolChanged;
    }
    assert tools[..|tools|] == tools;
  }

  method SanitizeTool(tool: Json) returns (result: Json, changed: bool)
    ensures result == StripAt(PARAMETERS[3..], tool)
    ensures !changed ==> result == tool
  {
    var pattern := PARAMETERS[3..];
    assert pattern[0] == Key("functionDeclarations") && pattern[1..] == [Each, Key("parameters")];
    assert [Each, Key("parameters")][1..] == [Key("parameters")];
    if !tool.Obj? || Get(tool.fields, "functionDeclarations").None? {
      return tool, false;
    }
    if !Get(tool.fields, "functionDeclarations").value.Arr? {
      UnchangedField(pattern, tool);
      return tool, false;
    }
    var declarations, declarationsChanged :=
      SanitizeDeclarations(Get(tool.fields, "functionDeclarations").value.items);
    if !declarationsChanged {
      UnchangedField(pattern, tool);
      return tool, false;
    }
    return Obj(Put(tool.fields, "functionDeclarations", Arr(declarations))), true;
  }

  method SanitizeDeclarations(declarations: seq<Json>) returns (result: seq<Json>, changed: bool)
    ensures result == StripEachAt([Key("parameters")], declarations)
    ensures !changed ==> result == declarations
  {
    result, changed := [], false;
    assert [Key("parameters")][1..] == [];
    for i := 0 to |declarations|
      invariant result == StripEachAt([Key("parameters")], declarations[..i])
      invariant !changed ==> result == declarations[..i]
    {
      var d := declarations[i];
      assert declarations[..i + 1] == declarations[..i] + [d];
      if !d.Obj? || Get(d.fields, "parameters").None? {
        result := result + [d];
      } else {
        changed := true;
        result := result + [Obj(Put(d.fields, "parameters", Strip(Get(d.fields, "parameters").value)))];
      }
    }
    assert declarations[..|declarations|] == declarations;
  }

  // ----- the schemas -----

  function NamesLeft(names: seq<string>): seq<string> {
    Filter(names, (name: string) => name != "enumDescriptions")
  }

  lemma {:induction false} StripFieldsKeys(fields: Entries<Json>)
    ensures Keys(StripFields(fields)) == NamesLeft(Keys(fields))
  {
    if fields == [] {
      assert Keys(fields) == [];
    } else {
      StripFieldsKeys(fields[1..]);
      assert Keys(fields)[1..] == Keys(fields[1..]);
      var head := StripField(fields[0]);
      assert Keys(head + StripFields(fields[1..])) == Keys(head) + Keys(StripFields(fields[1..]));
    }
  }

  /** A stripped value: scalars stay, arrays keep their length, objects their fields in order but for the one. */
  lemma StripIs(schema: Json)
    ensures !schema.Arr? && !schema.Obj? ==> Strip(schema) == schema
    ensures schema.Arr? ==> Strip(schema).Arr? && |Strip(schema).items| == |schema.items|
    ensures schema.Obj? ==> Strip(schema).Obj? && Keys(Strip(schema).fields) == NamesLeft(Keys(schema.fields))
  {
    match schema
    case Arr(items) => StripItemsAt(items);
    case Obj(fields) => StripFieldsKeys(fields);
    case _ =>
  }

  /** The place of a value below the parameters of a declaration in a request. */
  function InParameters(tool: nat, declaration: nat, below: seq<PathStep>): seq<PathStep> {
    [Field("request"), Field("tools"), Index(tool), Field("functionDeclarations"), Index(declaration),
     Field("parameters")] + below
  }

  lemma ParametersMatch(tool: nat, declaration: nat, below: seq<PathStep>)
    ensures var path := InParameters(tool, declaration, below);
            Matches(PARAMETERS, path) && |PARAMETERS| == 6 && path[6..] == below
  {
  }

  /**
   * Below a declaration's parameters a value is found afterwards exactly when it was found before and no step
   * leads through the rejected field, and what is found there is the same but for rejected fields in it.
   */
  lemma BelowParameters(body: Json, tool: nat, declaration: nat, below: seq<PathStep>)
    ensures var path := InParameters(tool, declaration, below);
            var before, after := Lookup(body, path), Lookup(StripAt(PARAMETERS, body), path);
            && (after.Some? <==> before.Some? && Field("enumDescriptions") !in below)
            && (after.Some? ==>
                  match before.value
                  case Arr(items) => after.value.Arr? && |after.value.items| == |items|
                  case Obj(fields) => after.value.Obj? && Keys(after.value.fields) == NamesLeft(Keys(fields))
                  case scalar => after.value == scalar)
  {
    var path := InParameters(tool, declaration, below);
    ParametersMatch(tool, declaration, below);
    StripAtPath(PARAMETERS, body, path);
    var before := Lookup(body, path);
    if before.Some? {
      StripIs(before.value);
    }
  }
}
