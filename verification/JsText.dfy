/** The JavaScript string and list operations the modelled code leans on. */
module JsText {

  datatype Option<+T> = None | Some(value: T)

  /** The code points String.prototype.trim removes. */
  predicate IsSpace(c: char) {
    var u := c as int;
    9 <= u <= 13 || u == 0x20 || u == 0xA0 || u == 0x1680 || 0x2000 <= u <= 0x200A ||
    u == 0x2028 || u == 0x2029 || u == 0x202F || u == 0x205F || u == 0x3000 || u == 0xFEFF
  }

  function TrimStart(s: string): string {
    if s != "" && IsSpace(s[0]) then TrimStart(s[1..]) else s
  }

  function TrimEnd(s: string): string {
    if s != "" && IsSpace(s[|s| - 1]) then TrimEnd(s[..|s| - 1]) else s
  }

  function Trim(s: string): string {
    TrimEnd(TrimStart(s))
  }

  /** Nothing for trim to remove. */
  predicate Trimmed(s: string) {
    s != "" ==> !IsSpace(s[0]) && !IsSpace(s[|s| - 1])
  }

  predicate StartsWith(s: string, prefix: string) {
    prefix <= s
  }

  predicate EndsWith(s: string, suffix: string) {
    |suffix| <= |s| && s[|s| - |suffix|..] == suffix
  }

  /** Position of the first c in s, or |s| when there is none. */
  function IndexOf(s: string, c: char): (i: nat)
    ensures i <= |s|
    ensures forall j :: 0 <= j < i ==> s[j] != c
    ensures i < |s| ==> s[i] == c
  {
    if s == "" || s[0] == c then 0 else 1 + IndexOf(s[1..], c)
  }

  lemma {:induction false} IndexOfAbsent(s: string, c: char)
    requires c !in s
    ensures IndexOf(s, c) == |s|
  {
    if s != "" {
      IndexOfAbsent(s[1..], c);
    }
  }

  /** The separator behind a separator-free text is the first one. */
  lemma {:induction false} IndexOfFirst(s: string, c: char, rest: string)
    requires c !in s
    ensures var t := s + [c] + rest;
            IndexOf(t, c) == |s| && t[..|s|] == s && t[|s| + 1..] == rest
  {
    if s != "" {
      IndexOfFirst(s[1..], c, rest);
      assert (s + [c] + rest)[1..] == s[1..] + [c] + rest;
    }
  }

  /** String.prototype.split on a one-character separator. */
  function SplitOn(s: string, sep: char): (pieces: seq<string>)
    ensures pieces != []
  {
    if s == "" then [""]
    else
      var rest := SplitOn(s[1..], sep);
      if s[0] == sep then [""] + rest else Extend(s[0], rest)
  }

  /** One more character at the front of the first piece. */
  function Extend(c: char, pieces: seq<string>): seq<string>
    requires pieces != []
  {
    [[c] + pieces[0]] + pieces[1..]
  }

  /** Array.prototype.join with a one-character separator. */
  function JoinOn(pieces: seq<string>, sep: char): string {
    if pieces == [] then ""
    else if |pieces| == 1 then pieces[0]
    else pieces[0] + [sep] + JoinOn(pieces[1..], sep)
  }

  function Flatten(chunks: seq<string>): string {
    if chunks == [] then "" else chunks[0] + Flatten(chunks[1..])
  }

  function Last<T>(xs: seq<T>): T
    requires xs != []
  {
    xs[|xs| - 1]
  }

  function Init<T>(xs: seq<T>): seq<T>
    requires xs != []
  {
    xs[..|xs| - 1]
  }

  function Filter<T>(ms: seq<T>, keep: T -> bool): seq<T> {
    if ms == [] then []
    else (if keep(ms[0]) then [ms[0]] else []) + Filter(ms[1..], keep)
  }

  function InsertBy<T>(x: T, sorted: seq<T>, after: (T, T) -> bool): seq<T> {
    if sorted == [] || !after(x, sorted[0]) then [x] + sorted
    else [sorted[0]] + InsertBy(x, sorted[1..], after)
  }

  /** The stable Array.prototype.sort; `after(a, b)` says that the comparison of a with b is positive. */
  function SortBy<T>(xs: seq<T>, after: (T, T) -> bool): seq<T> {
    if xs == [] then [] else InsertBy(xs[0], SortBy(xs[1..], after), after)
  }

  lemma Assoc<T>(a: seq<T>, b: seq<T>, c: seq<T>)
    ensures a + (b + c) == (a + b) + c
  {
  }

  function Without<T>(s: seq<T>, i: nat): seq<T>
    requires i < |s|
  {
    s[..i] + s[i + 1..]
  }

  lemma WithoutMultiset<T>(s: seq<T>, i: nat)
    requires i < |s|
    ensures multiset(Without(s, i)) == multiset(s) - multiset{s[i]}
  {
    assert s == s[..i] + [s[i]] + s[i + 1..];
  }

  // ----- trim -----

  lemma {:induction false} TrimEndLeavesPrefix(s: string)
    ensures TrimEnd(s) <= s
    ensures TrimEnd(s) != "" ==> !IsSpace(Last(TrimEnd(s)))
  {
    if s != "" && IsSpace(s[|s| - 1]) {
      TrimEndLeavesPrefix(s[..|s| - 1]);
    }
  }

  lemma {:induction false} TrimStartLeavesSuffix(s: string)
    ensures |TrimStart(s)| <= |s| && TrimStart(s) == s[|s| - |TrimStart(s)|..]
    ensures TrimStart(s) != "" ==> !IsSpace(TrimStart(s)[0])
  {
    if s != "" && IsSpace(s[0]) {
      TrimStartLeavesSuffix(s[1..]);
    }
  }

  /** Trim yields a slice of its argument that trim leaves alone. */
  lemma TrimIsTrimmed(s: string)
    ensures Trimmed(Trim(s))
    ensures forall c :: c in Trim(s) ==> c in s
  {
    TrimStartLeavesSuffix(s);
    TrimEndLeavesPrefix(TrimStart(s));
  }

  lemma {:induction false} TrimEndTakesSpaces(s: string)
    ensures TrimEnd(s) <= s && forall i :: |TrimEnd(s)| <= i < |s| ==> IsSpace(s[i])
  {
    if s != "" && IsSpace(s[|s| - 1]) {
      TrimEndTakesSpaces(s[..|s| - 1]);
    }
  }

  lemma {:induction false} TrimStartTakesSpaces(s: string)
    ensures var n := |s| - |TrimStart(s)|;
            0 <= n && TrimStart(s) == s[n..] && forall i :: 0 <= i < n ==> IsSpace(s[i])
  {
    if s != "" && IsSpace(s[0]) {
      TrimStartTakesSpaces(s[1..]);
      assert forall i :: 1 <= i < |s| - |TrimStart(s)| ==> s[i] == s[1..][i - 1];
    }
  }

  /** Trim takes spaces away at both ends and nothing else. */
  lemma TrimIs(s: string)
    ensures Trimmed(Trim(s))
    ensures exists i, j :: 0 <= i <= j <= |s| && Trim(s) == s[i..j]
                           && forall k :: 0 <= k < i || j <= k < |s| ==> IsSpace(s[k])
  {
    TrimIsTrimmed(s);
    TrimStartTakesSpaces(s);
    TrimEndTakesSpaces(TrimStart(s));
    var i := |s| - |TrimStart(s)|;
    var j := i + |Trim(s)|;
    assert Trim(s) == s[i..j];
    forall k | 0 <= k < i || j <= k < |s|
      ensures IsSpace(s[k])
    {
      assert j <= k ==> s[k] == TrimStart(s)[k - i];
    }
  }

  /** The spaces one by one: the white space and the line terminators of ECMAScript. */
  lemma SpacesAre(c: char)
    ensures IsSpace(c) <==>
            c as int in [0x09, 0x0A, 0x0B, 0x0C, 0x0D, 0x20, 0xA0, 0x1680, 0x2000, 0x2001, 0x2002, 0x2003, 0x2004,
                         0x2005, 0x2006, 0x2007, 0x2008, 0x2009, 0x200A, 0x2028, 0x2029, 0x202F, 0x205F, 0x3000,
                         0xFEFF]
  {
  }

  lemma TrimOfTrimmed(s: string)
    requires Trimmed(s)
    ensures Trim(s) == s
  {
  }

  lemma {:induction false} TrimStartPadded(s: string, c: char)
    requires IsSpace(c)
    ensures TrimStart(s + [c]) == if TrimStart(s) == "" then "" else TrimStart(s) + [c]
  {
    if s == "" {
      assert s + [c] == [c] && [c][1..] == "";
    } else if IsSpace(s[0]) {
      assert (s + [c])[1..] == s[1..] + [c];
      TrimStartPadded(s[1..], c);
    }
  }

  /** A space behind a text changes nothing for trim. */
  lemma TrimPadded(s: string, c: char)
    requires IsSpace(c)
    ensures Trim(s + [c]) == Trim(s)
  {
    TrimStartPadded(s, c);
    var t := TrimStart(s);
    assert (t + [c])[..|t|] == t;
  }

  // ----- split and join -----

  lemma ExtendInit(c: char, xs: seq<string>, ys: seq<string>)
    requires |xs| > 1
    ensures Extend(c, Init(xs) + ys) == Init(Extend(c, xs)) + ys
    ensures Last(Extend(c, xs)) == Last(xs)
  {
    assert (Init(xs) + ys)[1..] == Init(xs)[1..] + ys;
  }

  /** Cutting off at any point and resuming with the unfinished last piece loses nothing. */
  lemma {:induction false} SplitResume(s: string, t: string, sep: char)
    ensures SplitOn(s + t, sep) == Init(SplitOn(s, sep)) + SplitOn(Last(SplitOn(s, sep)) + t, sep)
  {
    if s == "" {
      assert s + t == t && Last(SplitOn(s, sep)) + t == t;
    } else {
      SplitResume(s[1..], t, sep);
      assert (s + t)[1..] == s[1..] + t;
      if s[0] == sep {
        SplitResumeSeparator(SplitOn(s[1..], sep), t, sep);
      } else {
        SplitResumeFirst(s[0], SplitOn(s[1..], sep), t, sep);
      }
    }
  }

  lemma SplitResumeSeparator(rest: seq<string>, t: string, sep: char)
    requires rest != []
    ensures Last([""] + rest) == Last(rest)
    ensures Init([""] + rest) + SplitOn(Last(rest) + t, sep) == [""] + (Init(rest) + SplitOn(Last(rest) + t, sep))
  {
    assert Init([""] + rest) == [""] + Init(rest);
  }

  lemma SplitResumeFirst(c: char, rest: seq<string>, t: string, sep: char)
    requires c != sep && rest != []
    ensures var first, again := Extend(c, rest), SplitOn(Last(rest) + t, sep);
            Init(first) + SplitOn(Last(first) + t, sep) == Extend(c, Init(rest) + again)
  {
    var again := SplitOn(Last(rest) + t, sep);
    if |rest| > 1 {
      ExtendInit(c, rest, again);
    } else {
      var u := [c] + rest[0] + t;
      assert Init(rest) + again == again;
      assert u[1..] == rest[0] + t;
      assert Last(Extend(c, rest)) + t == u;
    }
  }

  lemma {:induction false} SplitOfFree(s: string, sep: char)
    requires sep !in s
    ensures SplitOn(s, sep) == [s]
  {
    if s != "" {
      SplitOfFree(s[1..], sep);
      assert [s[0]] + s[1..] == s;
    }
  }

  lemma {:induction false} SplitAtSeparator(s: string, t: string, sep: char)
    requires sep !in s
    ensures SplitOn(s + [sep] + t, sep) == [s] + SplitOn(t, sep)
  {
    if s == "" {
      assert s + [sep] + t == [sep] + t;
    } else {
      SplitAtSeparator(s[1..], t, sep);
      assert (s + [sep] + t)[1..] == s[1..] + [sep] + t;
      assert [s[0]] + s[1..] == s;
    }
  }

  /** Split undoes join on separator-free pieces. */
  lemma {:induction false} SplitOfJoin(pieces: seq<string>, sep: char)
    requires pieces != []
    requires forall p :: p in pieces ==> sep !in p
    ensures SplitOn(JoinOn(pieces, sep), sep) == pieces
  {
    if |pieces| == 1 {
      SplitOfFree(pieces[0], sep);
    } else {
      SplitOfJoin(pieces[1..], sep);
      SplitAtSeparator(pieces[0], JoinOn(pieces[1..], sep), sep);
    }
  }

  lemma ExtendJoined(c: char, pieces: seq<string>, sep: char)
    requires pieces != []
    ensures JoinOn(Extend(c, pieces), sep) == [c] + JoinOn(pieces, sep)
  {
    if |pieces| > 1 {
      var rest := [sep] + JoinOn(pieces[1..], sep);
      assert Extend(c, pieces)[1..] == pieces[1..];
      assert [c] + pieces[0] + rest == [c] + (pieces[0] + rest);
      assert pieces[0] + rest == JoinOn(pieces, sep);
      assert [c] + pieces[0] + rest == JoinOn(Extend(c, pieces), sep);
    }
  }

  /** Join undoes split. */
  lemma {:induction false} JoinOfSplit(s: string, sep: char)
    ensures JoinOn(SplitOn(s, sep), sep) == s
  {
    if s != "" {
      var rest := SplitOn(s[1..], sep);
      JoinOfSplit(s[1..], sep);
      ExtendJoined(s[0], rest, sep);
      assert s == [s[0]] + s[1..];
      assert ([""] + rest)[1..] == rest;
    }
  }

  lemma {:induction false} JoinSnoc(pieces: seq<string>, p: string, sep: char)
    requires pieces != []
    ensures JoinOn(pieces + [p], sep) == JoinOn(pieces, sep) + [sep] + p
  {
    assert (pieces + [p])[1..] == pieces[1..] + [p];
    if |pieces| > 1 {
      JoinSnoc(pieces[1..], p, sep);
    }
  }

  /** No piece of a split contains the separator, nor any character foreign to the text. */
  lemma {:induction false} SplitPieces(s: string, sep: char)
    ensures forall p :: p in SplitOn(s, sep) ==> sep !in p && forall c :: c in p ==> c in s
  {
    if s != "" {
      SplitPieces(s[1..], sep);
    }
  }

  lemma {:induction false} FlattenAppend(chunks: seq<string>, c: string)
    ensures Flatten(chunks + [c]) == Flatten(chunks) + c
  {
    if chunks == [] {
      assert chunks + [c] == [c];
      assert Flatten([]) == "";
    } else {
      FlattenAppend(chunks[1..], c);
      assert (chunks + [c])[1..] == chunks[1..] + [c];
    }
  }

  // ----- filter -----

  lemma FilterSnoc<T>(models: seq<T>, i: nat, keep: T -> bool)
    requires i < |models|
    ensures keep(models[i]) ==> Filter(models[..i + 1], keep) == Filter(models[..i], keep) + [models[i]]
    ensures !keep(models[i]) ==> Filter(models[..i + 1], keep) == Filter(models[..i], keep)
  {
    assert models[..i + 1] == models[..i] + [models[i]];
    FilterAppend(models[..i], [models[i]], keep);
    assert [models[i]][1..] == [];
  }

  lemma {:induction false} FilterAppend<T>(xs: seq<T>, ys: seq<T>, keep: T -> bool)
    ensures Filter(xs + ys, keep) == Filter(xs, keep) + Filter(ys, keep)
  {
    if xs == [] {
      assert xs + ys == ys;
    } else {
      FilterAppend(xs[1..], ys, keep);
      assert (xs + ys)[1..] == xs[1..] + ys;
      Assoc(if keep(xs[0]) then [xs[0]] else [], Filter(xs[1..], keep), Filter(ys, keep));
    }
  }

  lemma {:induction false} FilterCount<T>(ms: seq<T>, keep: T -> bool, m: T)
    ensures multiset(Filter(ms, keep))[m] == if keep(m) then multiset(ms)[m] else 0
  {
    if ms != [] {
      FilterCount(ms[1..], keep, m);
      assert ms == [ms[0]] + ms[1..];
    }
  }

  lemma {:induction false} FilterMembers<T>(ms: seq<T>, keep: T -> bool)
    ensures forall m :: m in Filter(ms, keep) <==> m in ms && keep(m)
  {
    if ms != [] {
      FilterMembers(ms[1..], keep);
      assert ms == [ms[0]] + ms[1..];
    }
  }

  lemma {:induction false} FilterSwap<T>(ms: seq<T>, a: T -> bool, b: T -> bool)
    ensures Filter(Filter(ms, a), b) == Filter(Filter(ms, b), a)
    ensures |Filter(ms, a)| <= |ms|
  {
    if ms != [] {
      FilterSwap(ms[1..], a, b);
      FilterAppend(if a(ms[0]) then [ms[0]] else [], Filter(ms[1..], a), b);
      FilterAppend(if b(ms[0]) then [ms[0]] else [], Filter(ms[1..], b), a);
      assert [ms[0]][1..] == [];
    }
  }
}
