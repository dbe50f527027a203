/** Capture of configured request headers as credentials of a login. */
module LoginHeaderCapture {
  import opened JsText

  type Headers = map<string, string>

  /** The value of a request header: a string, or anything else. */
  datatype HeaderValue = Text(text: string) | Other

  /** The headers of one request, in order. */
  type Request = seq<(string, HeaderValue)>

  /** The value of the last header with a lower-case name. */
  function LastValue(lower: string -> string, request: Request, name: string): Option<HeaderValue> {
    if request == [] then None
    else if lower(Last(request).0) == name then Some(Last(request).1)
    else LastValue(lower, Init(request), name)
  }

  /** What a request offers for a configured name: a trimmed text that is not blank. */
  function Offered(lower: string -> string, request: Request, name: string): Option<string> {
    var v := LastValue(lower, request, lower(name));
    if v.Some? && v.value.Text? && Trim(v.value.text) != "" then Some(Trim(v.value.text)) else None
  }

  /** No value is held yet; an empty one counts as none. */
  predicate Open(held: Headers, name: string) {
    name !in held || held[name] == ""
  }

  predicate Captures(lower: string -> string, names: seq<string>, held: Headers, request: Request, k: string) {
    k in names && Open(held, k) && Offered(lower, request, k).Some?
  }

  /** What is held under a name after the capture. */
  function ValueAfter(lower: string -> string, names: seq<string>, held: Headers, request: Request, k: string)
    : Option<string>
  {
    if Captures(lower, names, held, request, k) then Offered(lower, request, k)
    else if k in held then Some(held[k]) else None
  }

  function Captured(lower: string -> string, names: seq<string>, held: Headers, request: Request): Headers {
    map k | k in held.Keys + (set n | n in names) && ValueAfter(lower, names, held, request, k).Some? ::
      ValueAfter(lower, names, held, request, k).value
  }

  function Lookup(held: Headers, k: string): Option<string> {
    if k in held then Some(held[k]) else None
  }

  method CaptureConfiguredHeaders(lower: string -> string, names: seq<string>, request: Request, held: Headers)
    returns (credentials: Headers)
    ensures credentials == Captured(lower, names, held, request)
  {
    var normalized := Normalize(lower, request);
    credentials := held;
    for i := 0 to |names|
      invariant forall k :: Lookup(credentials, k) == ValueAfter(lower, names[..i], held, request, k)
    {
      var name := names[i];
      ghost var now := credentials;
      var key := lower(name);
      forall k
        ensures ValueAfter(lower, names[..i + 1], held, request, k) ==
                if k == name && (Lookup(now, k).None? || now[k] == "") && Offered(lower, request, k).Some?
                then Offered(lower, request, k) else Lookup(now, k)
      {
        assert Lookup(now, k) == ValueAfter(lower, names[..i], held, request, k);
        ValueAfterNext(lower, names, held, request, i, k);
      }
      assert LastValue(lower, request, key) == if key in normalized then Some(normalized[key]) else None;
      if name in credentials && credentials[name] != "" {
        continue;
      }
      if key in normalized && normalized[key].Text? && Trim(normalized[key].text) != "" {
        credentials := credentials[name := Trim(normalized[key].text)];
      }
    }
    assert names[..|names|] == names;
    SameLookups(credentials, lower, names, held, request);
  }

  lemma SameLookups(r: Headers, lower: string -> string, names: seq<string>, held: Headers, request: Request)
    requires forall k :: Lookup(r, k) == ValueAfter(lower, names, held, request, k)
    ensures r == Captured(lower, names, held, request)
  {
    forall k
      ensures k in r <==> k in Captured(lower, names, held, request)
      ensures k in r ==> r[k] == Captured(lower, names, held, request)[k]
    {
      assert Lookup(r, k) == ValueAfter(lower, names, held, request, k);
    }
  }

  method Normalize(lower: string -> string, request: Request) returns (normalized: map<string, HeaderValue>)
    ensures forall k :: LastValue(lower, request, k) == if k in normalized then Some(normalized[k]) else None
  {
    normalized := map[];
    for i := 0 to |request|
      invariant forall k ::
          LastValue(lower, request[..i], k) == if k in normalized then Some(normalized[k]) else None
    {
      assert Init(request[..i + 1]) == request[..i];
      normalized := normalized[lower(request[i].0) := request[i].1];
    }
    assert request[..|request|] == request;
  }

  /** One round of the loop over the configured names. */
  lemma ValueAfterNext(
      lower: string -> string, names: seq<string>, held: Headers, request: Request, i: nat, k: string)
    requires i < |names|
    ensures var now := ValueAfter(lower, names[..i], held, request, k);
            ValueAfter(lower, names[..i + 1], held, request, k) ==
            if k == names[i] && (now.None? || now.value == "") && Offered(lower, request, k).Some?
            then Offered(lower, request, k) else now
  {
    assert names[..i + 1] == names[..i] + [names[i]];
  }

  // ----- what a capture guarantees -----

  /** The i-th header is the last of its name up to case. */
  predicate IsLast(lower: string -> string, request: Request, name: string, i: int) {
    && 0 <= i < |request| && lower(request[i].0) == lower(name)
    && forall j :: i < j < |request| ==> lower(request[j].0) != lower(name)
  }

  lemma {:induction false} LastValueIs(lower: string -> string, request: Request, name: string)
    ensures forall i :: IsLast(lower, request, name, i) ==>
              LastValue(lower, request, lower(name)) == Some(request[i].1)
    ensures LastValue(lower, request, lower(name)).Some? ==> exists i :: IsLast(lower, request, name, i)
  {
    if request != [] {
      var front := Init(request);
      LastValueIs(lower, front, name);
      if lower(Last(request).0) == lower(name) {
        assert IsLast(lower, request, name, |request| - 1);
      } else {
        forall i
          ensures IsLast(lower, request, name, i) <==> IsLast(lower, front, name, i)
        {
          assert forall j :: 0 <= j < |front| ==> front[j] == request[j];
        }
      }
    }
  }

  /** A text is the trimmed value, not blank, of the last header of the name up to case. */
  ghost predicate IsOffered(lower: string -> string, request: Request, name: string, value: string) {
    value != "" &&
    exists i :: IsLast(lower, request, name, i) && request[i].1.Text? && value == Trim(request[i].1.text)
  }

  lemma OfferedIs(lower: string -> string, request: Request, name: string)
    ensures forall v :: Offered(lower, request, name) == Some(v) <==> IsOffered(lower, request, name, v)
  {
    LastValueIs(lower, request, name);
  }

  /**
   * A value held stays; only configured names are added; what is added is what the request offers under
   * the name; and an offer for a configured name without value is taken.
   */
  lemma CaptureGuarantees(lower: string -> string, names: seq<string>, held: Headers, request: Request, k: string)
    ensures var r := Captured(lower, names, held, request);
            && (k in held && held[k] != "" ==> k in r && r[k] == held[k])
            && (k in r && (k !in held || r[k] != held[k]) ==> k in names && IsOffered(lower, request, k, r[k]))
            && (forall v :: k in names && Open(held, k) && IsOffered(lower, request, k, v) ==> k in r && r[k] == v)
  {
    OfferedIs(lower, request, k);
    if Captures(lower, names, held, request, k) {
      assert IsOffered(lower, request, k, Offered(lower, request, k).value);
    }
  }

  /** A capture changes something exactly when a configured name without value is offered one. */
  lemma CaptureChangesExactly(lower: string -> string, names: seq<string>, held: Headers, request: Request)
    ensures Captured(lower, names, held, request) != held <==>
            exists k :: k in names && Captures(lower, names, held, request, k)
  {
    var r := Captured(lower, names, held, request);
    if forall k :: k in names ==> !Captures(lower, names, held, request, k) {
      assert r == held;
    } else {
      var k :| k in names && Captures(lower, names, held, request, k);
      assert k in r && r[k] != "" && (k in held ==> held[k] == "");
    }
  }
}
