/** Delegated context editing: the edit list of an Anthropic request body. */
module ContextEditing {
  import opened JsText
  import opened OrderedMaps
  import opened Json

  const CLEAR_TOOL_USES := "clear_tool_uses_20250919"
  const CLEAR_THINKING := "clear_thinking_20251015"
  const TRIGGER_TOKENS := 100000.0
  const KEEP_TOOL_USES := 3.0

  type Edits = seq<Json>

  predicate HasType(edit: Json, kind: string) {
    edit.Obj? && Get(edit.fields, "type") == Some(Str(kind))
  }

  predicate IsToolUse(edit: Json) {
    HasType(edit, CLEAR_TOOL_USES)
  }

  predicate IsThinking(edit: Json) {
    HasType(edit, CLEAR_THINKING)
  }

  predicate HasToolUse(edits: Edits) {
    exists e :: e in edits && IsToolUse(e)
  }

  function NewToolUse(): Json {
    Obj([("type", Str(CLEAR_TOOL_USES)),
         ("trigger", Obj([("type", Str("input_tokens")), ("value", Number(TRIGGER_TOKENS))])),
         ("keep", Obj([("type", Str("tool_uses")), ("value", Number(KEEP_TOOL_USES))]))])
  }

  // ----- stable sorting -----

  /** The order of the sort: rank 0 for `first`, 1 for the rest. */
  function RankedAfter(first: Json -> bool): (Json, Json) -> bool {
    (a, b) => !first(a) && first(b)
  }

  function Sort(edits: Edits, first: Json -> bool): Edits {
    SortBy(edits, RankedAfter(first))
  }

  function Not(p: Json -> bool): Json -> bool {
    e => !p(e)
  }

  /** Sorting is the stable partition: the first kind, then the rest, each in their own order. */
  lemma {:induction false} SortPartitions(edits: Edits, first: Json -> bool)
    ensures Sort(edits, first) == Filter(edits, first) + Filter(edits, Not(first))
  {
    if edits != [] {
      var rest := edits[1..];
      SortPartitions(rest, first);
      FilterMembers(rest, first);
      FilterMembers(rest, Not(first));
      FilterHead(edits, first);
      FilterHead(edits, Not(first));
      InsertPartitions(edits[0], Filter(rest, first), Filter(rest, Not(first)), first);
    }
  }

  lemma FilterHead(edits: Edits, p: Json -> bool)
    requires edits != []
    ensures Filter(edits, p) == if p(edits[0]) then [edits[0]] + Filter(edits[1..], p) else Filter(edits[1..], p)
  {
  }

  lemma {:induction false} InsertPartitions(edit: Json, low: Edits, high: Edits, first: Json -> bool)
    requires forall e :: e in low ==> first(e)
    requires forall e :: e in high ==> !first(e)
    ensures first(edit) ==> InsertBy(edit, low + high, RankedAfter(first)) == ([edit] + low) + high
    ensures !first(edit) ==> InsertBy(edit, low + high, RankedAfter(first)) == low + ([edit] + high)
  {
    Assoc([edit], low, high);
    if low == [] {
      assert low + high == high;
      assert high != [] ==> high[0] in high;
    } else {
      assert (low + high)[0] == low[0] && low[0] in low;
      assert (low + high)[1..] == low[1..] + high;
      InsertPartitions(edit, low[1..], high, first);
      assert [low[0]] + (low[1..] + ([edit] + high)) == low + ([edit] + high);
    }
  }

  lemma {:induction false} PartsOfWhole(edits: Edits, first: Json -> bool)
    ensures multiset(Filter(edits, first)) + multiset(Filter(edits, Not(first))) == multiset(edits)
  {
    if edits != [] {
      PartsOfWhole(edits[1..], first);
      assert edits == [edits[0]] + edits[1..];
    }
  }

  // ----- the body -----

  function Edited(edits: Edits): Edits {
    if HasToolUse(edits) then edits else Sort(edits + [NewToolUse()], IsThinking)
  }

  function EditsOf(management: Entries<Json>): Edits {
    var listed: Option<Json> := Get(management, "edits");
    if listed.Some? && listed.value.Arr? then listed.value.items else []
  }

  function ManagementOf(fields: Entries<Json>): Entries<Json> {
    var current: Option<Json> := Get(fields, "context_management");
    if current.Some? && current.value.Obj? then current.value.fields else []
  }

  /** A field set on an array is not part of its JSON, so an array in that place stays as it is. */
  function Applied(fields: Entries<Json>): Entries<Json> {
    var current: Option<Json> := Get(fields, "context_management");
    if current.Some? && current.value.Arr? then fields
    else
      var management := ManagementOf(fields);
      Put(fields, "context_management", Obj(Put(management, "edits", Arr(Edited(EditsOf(management))))))
  }

  class RequestBody {
    var fields: Entries<Json>

    constructor (fields: Entries<Json>)
      ensures this.fields == fields
    {
      this.fields := fields;
    }

    method ApplyContextEditing(enabled: bool)
      modifies this
      ensures fields == if enabled then Applied(old(fields)) else old(fields)
    {
      if !enabled {
        return;
      }
      var current: Option<Json> := Get(fields, "context_management");
      if current.Some? && current.value.Arr? {
        return;
      }
      var existing: Entries<Json> := [];
      if current.Some? && current.value.Obj? {
        existing := current.value.fields;
      }
      var edits: Edits := [];
      var listed: Option<Json> := Get(existing, "edits");
      if listed.Some? && listed.value.Arr? {
        edits := listed.value.items;
      }
      if !HasToolUse(edits) {
        edits := edits + [NewToolUse()];
        edits := Sort(edits, IsThinking);
      }
      existing := Put(existing, "edits", Arr(edits));
      fields := Put(fields, "context_management", Obj(existing));
    }
  }

  // ----- what it guarantees -----

  lemma NewIsToolUse()
    ensures IsToolUse(NewToolUse()) && !IsThinking(NewToolUse())
  {
    assert CLEAR_TOOL_USES[6] == 't' && CLEAR_THINKING[7] == 'h' && CLEAR_TOOL_USES[7] == 'o';
  }

  /** Sorting with one more entry of the second kind at the end leaves it there. */
  lemma SortWithLast(edits: Edits, last: Json, first: Json -> bool)
    requires !first(last)
    ensures Sort(edits + [last], first) == Filter(edits, first) + Filter(edits, Not(first)) + [last]
    ensures multiset(Sort(edits + [last], first)) == multiset(edits) + multiset{last}
  {
    SortPartitions(edits + [last], first);
    PartsWithLast(edits, last, first);
    PartsWithLast(edits, last, Not(first));
    Assoc(Filter(edits, first), Filter(edits, Not(first)), [last]);
    PartsOfWhole(edits, first);
  }

  lemma PartsWithLast(edits: Edits, last: Json, p: Json -> bool)
    ensures Filter(edits + [last], p) == if p(last) then Filter(edits, p) + [last] else Filter(edits, p)
  {
    FilterAppend(edits, [last], p);
    assert [last][1..] == [];
  }

  /** Without a tool-use edit: the thinking edits, then the others, in their order, then one new tool-use edit. */
  lemma EditedIs(edits: Edits)
    requires !HasToolUse(edits)
    ensures Edited(edits) == Filter(edits, IsThinking) + Filter(edits, Not(IsThinking)) + [NewToolUse()]
    ensures multiset(Edited(edits)) == multiset(edits) + multiset{NewToolUse()}
    ensures HasToolUse(Edited(edits))
  {
    NewIsToolUse();
    SortWithLast(edits, NewToolUse(), IsThinking);
    assert NewToolUse() in multiset(Edited(edits));
  }

  lemma EditedIdempotent(edits: Edits)
    ensures Edited(Edited(edits)) == Edited(edits)
    ensures HasToolUse(Edited(edits))
  {
    if !HasToolUse(edits) {
      EditedIs(edits);
    }
  }

  /** Applying twice equals applying once. */
  lemma AppliedIdempotent(fields: Entries<Json>)
    ensures Applied(Applied(fields)) == Applied(fields)
  {
    var current: Option<Json> := Get(fields, "context_management");
    if !(current.Some? && current.value.Arr?) {
      var management := ManagementOf(fields);
      var edits := Edited(EditsOf(management));
      var managed := Put(management, "edits", Arr(edits));
      EditedIdempotent(EditsOf(management));
      GetPut(fields, "context_management", Obj(managed), "context_management");
      GetPut(management, "edits", Arr(edits), "edits");
      PutSame(managed, "edits", Arr(edits));
      PutSame(Applied(fields), "context_management", Obj(managed));
    }
  }

  /** The body's edit list becomes the edited one, unless the context management is an array: then it stays. */
  lemma AppliedEdits(fields: Entries<Json>)
    ensures var current: Option<Json> := Get(fields, "context_management");
            var before, after := EditsOf(ManagementOf(fields)), EditsOf(ManagementOf(Applied(fields)));
            var isArray := current.Some? && current.value.Arr?;
            && (!isArray ==> after == Edited(before))
            && (isArray ==> Applied(fields) == fields)
            && (HasToolUse(after) <==> !isArray)
  {
    var current: Option<Json> := Get(fields, "context_management");
    if !(current.Some? && current.value.Arr?) {
      var management := ManagementOf(fields);
      var edits := Edited(EditsOf(management));
      EditedIdempotent(EditsOf(management));
      GetPut(fields, "context_management", Obj(Put(management, "edits", Arr(edits))), "context_management");
      GetPut(management, "edits", Arr(edits), "edits");
    }
  }

  /** Nothing but the edit list changes, in the body or in its context management. */
  lemma AppliedElsewhere(fields: Entries<Json>, k: string)
    ensures k != "context_management" ==> Get(Applied(fields), k) == Get(fields, k)
    ensures k != "edits" ==> Get(ManagementOf(Applied(fields)), k) == Get(ManagementOf(fields), k)
  {
    var current: Option<Json> := Get(fields, "context_management");
    if !(current.Some? && current.value.Arr?) {
      var management := ManagementOf(fields);
      var managed := Put(management, "edits", Arr(Edited(EditsOf(management))));
      GetPut(fields, "context_management", Obj(managed), k);
      GetPut(fields, "context_management", Obj(managed), "context_management");
      GetPut(management, "edits", Arr(Edited(EditsOf(management))), k);
    }
  }

  /** Every thinking edit precedes every tool-use edit, as the provider requires. */
  predicate ThinkingFirst(edits: Edits) {
    forall i, j :: 0 <= i < |edits| && 0 <= j < |edits| && IsThinking(edits[i]) && IsToolUse(edits[j]) ==> i < j
  }

  /** The provider's order is met exactly when no tool-use edit was there, or the caller kept the order. */
  lemma ThinkingFirstExactly(edits: Edits)
    ensures ThinkingFirst(Edited(edits)) <==> !HasToolUse(edits) || ThinkingFirst(edits)
  {
    if !HasToolUse(edits) {
      EditedIs(edits);
      FilterMembers(edits, IsThinking);
      FilterMembers(edits, Not(IsThinking));
      NewIsToolUse();
      LastOfKinds(Filter(edits, IsThinking), Filter(edits, Not(IsThinking)), NewToolUse());
    }
  }

  lemma LastOfKinds(low: Edits, high: Edits, last: Json)
    requires forall e :: e in low ==> !IsToolUse(e)
    requires forall e :: e in high ==> !IsToolUse(e)
    requires !IsThinking(last)
    ensures ThinkingFirst(low + high + [last])
  {
    var all := low + high + [last];
    forall j | 0 <= j < |all| - 1
      ensures !IsToolUse(all[j])
    {
      assert all[j] in low + high;
    }
  }

  /** A tool-use edit listed before a thinking edit: the list stays as it is, in the wrong order. */
  lemma WrongOrderStays()
    ensures var edits := [NewToolUse(), Obj([("type", Str(CLEAR_THINKING))])];
            Edited(edits) == edits && !ThinkingFirst(edits)
  {
    var edits := [NewToolUse(), Obj([("type", Str(CLEAR_THINKING))])];
    NewIsToolUse();
    assert edits[0] in edits && IsToolUse(edits[0]) && IsThinking(edits[1]);
  }

  // ----- the request as it is sent -----

  /** A body without context management gets this one. */
  lemma FreshManagement()
    ensures Applied([]) ==
            [("context_management", Obj([("edits", Arr([
              Obj([("type", Str("clear_tool_uses_20250919")),
                   ("trigger", Obj([("type", Str("input_tokens")), ("value", Number(100000.0))])),
                   ("keep", Obj([("type", Str("tool_uses")), ("value", Number(3.0))]))])]))]))]
  {
    NewIsToolUse();
    var none: Edits := [];
    EditedIs(none);
    assert Edited(none) == [NewToolUse()];
  }

  /** A list with a tool-use edit anywhere stays; in any other, edits of the thinking type come first. */
  lemma EditedByType(other: Json, thinking: Json, toolUse: Json)
    requires other.Obj? && thinking.Obj? && toolUse.Obj?
    requires Get(other.fields, "type") != Some(Str("clear_tool_uses_20250919"))
    requires Get(other.fields, "type") != Some(Str("clear_thinking_20251015"))
    requires Get(thinking.fields, "type") == Some(Str("clear_thinking_20251015"))
    requires Get(toolUse.fields, "type") == Some(Str("clear_tool_uses_20250919"))
    ensures Edited([other, thinking]) == [thinking, other, NewToolUse()]
    ensures Edited([other, toolUse, thinking]) == [other, toolUse, thinking]
  {
    KindsDiffer(thinking);
    TwoEdits(other, thinking);
    ToolUseStays(other, toolUse, thinking);
  }

  lemma KindsDiffer(edit: Json)
    requires IsThinking(edit)
    ensures !IsToolUse(edit)
  {
    assert CLEAR_TOOL_USES[7] == 'o' && CLEAR_THINKING[7] == 'h';
  }

  lemma TwoEdits(other: Json, thinking: Json)
    requires !IsThinking(other) && !IsToolUse(other) && IsThinking(thinking) && !IsToolUse(thinking)
    ensures Edited([other, thinking]) == [thinking, other, NewToolUse()]
  {
    EditedIs([other, thinking]);
    TwoParts(other, thinking, IsThinking);
  }

  lemma ToolUseStays(a: Json, toolUse: Json, b: Json)
    requires IsToolUse(toolUse)
    ensures Edited([a, toolUse, b]) == [a, toolUse, b]
  {
    assert [a, toolUse, b][1] == toolUse;
  }

  lemma TwoParts(a: Json, b: Json, p: Json -> bool)
    requires !p(a) && p(b)
    ensures Filter([a, b], p) == [b] && Filter([a, b], Not(p)) == [a]
  {
    assert [a, b][1..] == [b] && [b][1..] == [];
    assert Filter([b], p) == [b] && Filter([b], Not(p)) == [];
  }

  /** The edit list is the array under this name, in the record under that name; */
  lemma EditsAre(fields: Entries<Json>, management: Entries<Json>, edits: Edits)
    requires Get(fields, "context_management") == Some(Obj(management))
    requires Get(management, "edits") == Some(Arr(edits))
    ensures Get(Applied(fields), "context_management") == Some(Obj(Put(management, "edits", Arr(Edited(edits)))))
  {
    GetPut(fields, "context_management", Obj(Put(management, "edits", Arr(Edited(edits)))), "context_management");
  }

  /** without the record, or without the array in it, there is none. */
  lemma MalformedCountsAsNone(fields: Entries<Json>, management: Entries<Json>)
    ensures var current: Option<Json> := Get(fields, "context_management");
            var listed: Option<Json> := Get(management, "edits");
            var after: Option<Json> := Get(Applied(fields), "context_management");
            && (current.None? || (!current.value.Obj? && !current.value.Arr?) ==>
                  after == Some(Obj([("edits", Arr([NewToolUse()]))])))
            && (current == Some(Obj(management)) && (listed.None? || !listed.value.Arr?) ==>
                  after == Some(Obj(Put(management, "edits", Arr([NewToolUse()])))))
  {
    var none: Edits := [];
    NewIsToolUse();
    EditedIs(none);
    assert Edited(none) == [NewToolUse()];
    var base := ManagementOf(fields);
    GetPut(fields, "context_management", Obj(Put(base, "edits", Arr(Edited(EditsOf(base))))), "context_management");
  }
}
