/** The env-file reader and writer of the desktop shell, and its bootstrap of the server secrets. */
module EnvBootstrap {
  import opened JsText
  import opened OrderedMaps

  type Env = Entries<string>

  const HEADER := "# Auto-generated by OmniRoute bootstrap"

  // ----- reading -----

  function StripCr(line: string): string {
    if line != "" && Last(line) == '\r' then Init(line) else line
  }

  /** A text split at line feeds, each with the carriage return before it if there is one. */
  function EnvLines(text: string): seq<string> {
    StripAll(Init(SplitOn(text, '\n'))) + [Last(SplitOn(text, '\n'))]
  }

  function StripAll(lines: seq<string>): seq<string> {
    seq(|lines|, i requires 0 <= i < |lines| => StripCr(lines[i]))
  }

  /** The key and value of a line, unless it is blank, a comment or has no key. */
  function ParseLine(line: string): Option<(string, string)> {
    var t := Trim(line);
    var eq := IndexOf(t, '=');
    if t == "" || t[0] == '#' || eq < 1 || eq == |t| then None
    else Some((Trim(t[..eq]), Trim(t[eq + 1..])))
  }

  function ParseLines(env: Env, lines: seq<string>): Env
    decreases |lines|
  {
    if lines == [] then env
    else
      var entry := ParseLine(lines[0]);
      ParseLines(if entry.None? then env else Put(env, entry.value.0, entry.value.1), lines[1..])
  }

  function Parse(text: string): Env {
    ParseLines([], EnvLines(text))
  }

  /** `file` is None when there is no such file. */
  method ParseEnvFile(file: Option<string>) returns (env: Env)
    ensures env == if file.Some? then Parse(file.value) else []
  {
    env := [];
    if file.None? {
      return;
    }
    var lines := EnvLines(file.value);
    for i := 0 to |lines|
      invariant ParseLines(env, lines[i..]) == Parse(file.value)
    {
      assert lines[i..][0] == lines[i] && lines[i..][1..] == lines[i + 1..];
      var t := Trim(lines[i]);
      if t == "" || t[0] == '#' {
        continue;
      }
      var eq := IndexOf(t, '=');
      if eq < 1 || eq == |t| {
        continue;
      }
      env := Put(env, Trim(t[..eq]), Trim(t[eq + 1..]));
    }
  }

  // ----- writing -----

  function EntryLine(entry: (string, string)): string {
    entry.0 + "=" + entry.1
  }

  function EntryLines(env: Env): seq<string> {
    seq(|env|, i requires 0 <= i < |env| => EntryLine(env[i]))
  }

  function PrintedLines(env: Env): seq<string> {
    [HEADER, ""] + EntryLines(env) + [""]
  }

  function Print(env: Env): string {
    JoinOn(PrintedLines(env), '\n')
  }

  // ----- round trip -----

  /** What the reader produces: a trimmed, non-empty key without '=' that starts no comment. */
  predicate WellFormedEntry(entry: (string, string)) {
    && entry.0 != "" && Trimmed(entry.0) && entry.0[0] != '#' && '=' !in entry.0 && '\n' !in entry.0
    && Trimmed(entry.1) && '\n' !in entry.1
  }

  predicate WellFormed(env: Env) {
    Unique(env) && forall i :: 0 <= i < |env| ==> WellFormedEntry(env[i])
  }

  lemma ParsedLineWellFormed(line: string)
    requires '\n' !in line
    ensures ParseLine(line).Some? ==> WellFormedEntry(ParseLine(line).value)
  {
    var t := Trim(line);
    TrimIsTrimmed(line);
    var eq := IndexOf(t, '=');
    if t != "" && 1 <= eq < |t| {
      TrimIsTrimmed(t[..eq]);
      TrimIsTrimmed(t[eq + 1..]);
      KeepsFirst(t[..eq]);
    }
  }

  /** Trim keeps a first character that is no space. */
  lemma KeepsFirst(s: string)
    requires s != "" && !IsSpace(s[0])
    ensures Trim(s) != "" && Trim(s)[0] == s[0]
  {
    assert TrimStart(s) == s;
    TrimEndKeeps(s);
  }

  lemma {:induction false} TrimEndKeeps(s: string)
    requires s != "" && !IsSpace(s[0])
    ensures TrimEnd(s) != "" && TrimEnd(s)[0] == s[0]
  {
    if IsSpace(s[|s| - 1]) {
      TrimEndKeeps(s[..|s| - 1]);
    }
  }

  lemma PutWellFormed(env: Env, entry: (string, string))
    requires WellFormed(env) && WellFormedEntry(entry)
    ensures WellFormed(Put(env, entry.0, entry.1))
  {
    PutUnique(env, entry.0, entry.1);
    PutEntries(env, entry.0, entry.1);
  }

  lemma {:induction false} PutEntries(env: Env, k: string, v: string)
    ensures forall e :: e in Put(env, k, v) ==> e == (k, v) || e in env
  {
    if env != [] {
      PutEntries(env[1..], k, v);
    }
  }

  lemma {:induction false} ParseLinesWellFormed(env: Env, lines: seq<string>)
    requires WellFormed(env)
    requires forall line :: line in lines ==> '\n' !in line
    ensures WellFormed(ParseLines(env, lines))
    decreases |lines|
  {
    if lines != [] {
      ParsedLineWellFormed(lines[0]);
      var entry := ParseLine(lines[0]);
      if entry.Some? {
        PutWellFormed(env, entry.value);
      }
      ParseLinesWellFormed(if entry.None? then env else Put(env, entry.value.0, entry.value.1), lines[1..]);
    }
  }

  lemma ParseWellFormed(text: string)
    ensures WellFormed(Parse(text))
  {
    SplitPieces(text, '\n');
    var pieces := SplitOn(text, '\n');
    forall line | line in EnvLines(text)
      ensures '\n' !in line
    {
      if line in StripAll(Init(pieces)) {
        var i :| 0 <= i < |Init(pieces)| && line == StripCr(Init(pieces)[i]);
        assert Init(pieces)[i] in pieces;
      }
    }
    ParseLinesWellFormed([], EnvLines(text));
  }

  /** A well-formed entry's line reads back as that entry. */
  lemma EntryLineReadsBack(entry: (string, string))
    requires WellFormedEntry(entry)
    ensures ParseLine(EntryLine(entry)) == Some(entry)
    ensures StripCr(EntryLine(entry)) == EntryLine(entry) && '\n' !in EntryLine(entry)
  {
    var line := EntryLine(entry);
    assert Last(line) == if entry.1 == "" then '=' else Last(entry.1);
    TrimOfTrimmed(line);
    assert line[|entry.0|] == '=';
    assert forall j :: 0 <= j < |entry.0| ==> line[j] == entry.0[j] && entry.0[j] in entry.0;
    assert IndexOf(line, '=') == |entry.0|;
    assert line[..|entry.0|] == entry.0 && line[|entry.0| + 1..] == entry.1;
    TrimOfTrimmed(entry.0);
    TrimOfTrimmed(entry.1);
  }

  lemma PrintedReadsAsLines(env: Env)
    requires WellFormed(env)
    ensures EnvLines(Print(env)) == PrintedLines(env)
  {
    var lines := PrintedLines(env);
    forall i | 0 <= i < |env|
      ensures StripCr(EntryLine(env[i])) == EntryLine(env[i]) && '\n' !in EntryLine(env[i])
    {
      EntryLineReadsBack(env[i]);
    }
    assert '\n' !in HEADER && Last(HEADER) != '\r';
    forall p | p in lines
      ensures '\n' !in p
    {
      if p in EntryLines(env) {
        var i :| 0 <= i < |env| && p == EntryLine(env[i]);
      }
    }
    SplitOfJoin(lines, '\n');
    assert StripAll(Init(lines)) == Init(lines);
    assert Init(lines) + [Last(lines)] == lines;
  }

  lemma PutNext(env: Env, i: nat)
    requires Unique(env) && i < |env|
    ensures Put(env[..i], env[i].0, env[i].1) == env[..i + 1]
  {
    PutKeys(env[..i], env[i].0, env[i].1);
    assert env[..i + 1] == env[..i] + [env[i]];
  }

  lemma {:induction false} EntryLinesReadBack(env: Env, i: nat)
    requires WellFormed(env) && i <= |env|
    ensures ParseLines(env[..i], EntryLines(env)[i..] + [""]) == env
    decreases |env| - i
  {
    var lines := EntryLines(env)[i..] + [""];
    if i == |env| {
      assert lines == [""] && env[..i] == env && lines[1..] == [];
      assert ParseLine("") == None;
    } else {
      EntryLineReadsBack(env[i]);
      assert lines[0] == EntryLine(env[i]);
      assert lines[1..] == EntryLines(env)[i + 1..] + [""];
      PutNext(env, i);
      EntryLinesReadBack(env, i + 1);
    }
  }

  /** The reader undoes the writer on everything a reader can have produced. */
  lemma ParseOfPrint(env: Env)
    requires WellFormed(env)
    ensures Parse(Print(env)) == env
  {
    PrintedReadsAsLines(env);
    HeaderIsNoEntry();
    PreambleSkipped(env, HEADER, "");
  }

  lemma PreambleSkipped(env: Env, header: string, blank: string)
    requires WellFormed(env)
    requires ParseLine(header) == None && ParseLine(blank) == None
    ensures ParseLines([], [header, blank] + EntryLines(env) + [""]) == env
  {
    var rest := EntryLines(env) + [""];
    assert [header, blank] + EntryLines(env) + [""] == [header] + ([blank] + rest);
    SkippedLine([], header, [blank] + rest);
    SkippedLine([], blank, rest);
    assert EntryLines(env)[0..] == EntryLines(env) && env[..0] == [];
    EntryLinesReadBack(env, 0);
  }

  lemma SkippedLine(env: Env, line: string, rest: seq<string>)
    requires ParseLine(line) == None
    ensures ParseLines(env, [line] + rest) == ParseLines(env, rest)
  {
    assert ([line] + rest)[1..] == rest;
  }

  lemma HeaderIsNoEntry()
    ensures ParseLine(HEADER) == None
  {
    assert Trimmed(HEADER);
    TrimOfTrimmed(HEADER);
  }

  /** For every text, reading the printed form of what was read gives the same entries in the same order. */
  lemma RoundTrip(text: string)
    ensures Parse(Print(Parse(text))) == Parse(text)
  {
    ParseWellFormed(text);
    ParseOfPrint(Parse(text));
  }

  // ----- which line decides -----

  /** The trimmed line is a text without '=' that starts no comment, then '=', then any text. */
  ghost predicate IsEntry(line: string, k: string, v: string) {
    exists a, b :: Trim(line) == a + "=" + b && a != "" && a[0] != '#' && '=' !in a && k == Trim(a) && v == Trim(b)
  }

  ghost predicate Names(line: string, k: string) {
    exists v :: IsEntry(line, k, v)
  }

  lemma ParseLineIs(line: string, k: string, v: string)
    ensures ParseLine(line) == Some((k, v)) <==> IsEntry(line, k, v)
  {
    var t := Trim(line);
    var eq := IndexOf(t, '=');
    if ParseLine(line) == Some((k, v)) {
      assert t == t[..eq] + "=" + t[eq + 1..];
    }
    if IsEntry(line, k, v) {
      var a, b :| t == a + "=" + b && a != "" && a[0] != '#' && '=' !in a && k == Trim(a) && v == Trim(b);
      IndexOfFirst(a, '=', b);
      assert t == a + ['='] + b;
    }
  }

  lemma NamesExactly(line: string, k: string)
    ensures Names(line, k) <==> ParseLine(line).Some? && ParseLine(line).value.0 == k
  {
    if ParseLine(line).Some? {
      ParseLineIs(line, ParseLine(line).value.0, ParseLine(line).value.1);
    }
    if Names(line, k) {
      var v :| IsEntry(line, k, v);
      ParseLineIs(line, k, v);
    }
  }

  lemma CarriageReturnIsNoMatter(line: string)
    ensures ParseLine(StripCr(line)) == ParseLine(line)
  {
    if StripCr(line) != line {
      assert line == Init(line) + ['\r'];
      TrimPadded(Init(line), '\r');
    }
  }

  lemma {:induction false} ParseLinesAlike(env: Env, xs: seq<string>, ys: seq<string>)
    requires |xs| == |ys| && forall i :: 0 <= i < |xs| ==> ParseLine(xs[i]) == ParseLine(ys[i])
    ensures ParseLines(env, xs) == ParseLines(env, ys)
    decreases |xs|
  {
    if xs != [] {
      var entry := ParseLine(xs[0]);
      ParseLinesAlike(if entry.None? then env else Put(env, entry.value.0, entry.value.1), xs[1..], ys[1..]);
    }
  }

  lemma ParseByPieces(text: string)
    ensures Parse(text) == ParseLines([], SplitOn(text, '\n'))
  {
    var pieces := SplitOn(text, '\n');
    forall i | 0 <= i < |pieces|
      ensures ParseLine(EnvLines(text)[i]) == ParseLine(pieces[i])
    {
      CarriageReturnIsNoMatter(pieces[i]);
    }
    ParseLinesAlike([], EnvLines(text), pieces);
  }

  lemma {:induction false} OneMoreLine(env: Env, lines: seq<string>, line: string)
    ensures var before, entry := ParseLines(env, lines), ParseLine(line);
            ParseLines(env, lines + [line]) ==
            if entry.None? then before else Put(before, entry.value.0, entry.value.1)
    decreases |lines|
  {
    if lines == [] {
      assert lines + [line] == [line] && [line][1..] == [];
    } else {
      assert (lines + [line])[1..] == lines[1..] + [line];
      var entry := ParseLine(lines[0]);
      OneMoreLine(if entry.None? then env else Put(env, entry.value.0, entry.value.1), lines[1..], line);
    }
  }

  /** The last line that is an entry for the key is this one, with this value. */
  ghost predicate IsLastEntry(lines: seq<string>, k: string, i: int, v: string) {
    && 0 <= i < |lines| && IsEntry(lines[i], k, v)
    && forall j :: i < j < |lines| ==> !Names(lines[j], k)
  }

  ghost predicate IsFirstEntry(lines: seq<string>, k: string, i: int) {
    && 0 <= i < |lines| && Names(lines[i], k)
    && forall j :: 0 <= j < i ==> !Names(lines[j], k)
  }

  lemma LastEntryInFront(lines: seq<string>, line: string, k: string, v: string)
    ensures (exists i :: IsLastEntry(lines + [line], k, i, v)) <==>
            if Names(line, k) then IsEntry(line, k, v) else exists i :: IsLastEntry(lines, k, i, v)
  {
    var more := lines + [line];
    assert more[|lines|] == line;
    if Names(line, k) {
      if IsEntry(line, k, v) {
        assert IsLastEntry(more, k, |lines|, v);
      }
    } else {
      forall i
        ensures IsLastEntry(more, k, i, v) <==> IsLastEntry(lines, k, i, v)
      {
        assert 0 <= i < |lines| ==> more[i] == lines[i];
        assert IsLastEntry(more, k, i, v) ==> i != |lines|;
        if IsLastEntry(more, k, i, v) {
          assert forall j :: i < j < |lines| ==> lines[j] == more[j];
        }
      }
    }
  }

  lemma LineDecides(env: Env, line: string, k: string, v: string)
    ensures var entry := ParseLine(line);
            Get(if entry.None? then env else Put(env, entry.value.0, entry.value.1), k) == Some(v) <==>
            if Names(line, k) then IsEntry(line, k, v) else Get(env, k) == Some(v)
  {
    NamesExactly(line, k);
    ParseLineIs(line, k, v);
    var entry := ParseLine(line);
    if entry.Some? {
      GetPut(env, entry.value.0, entry.value.1, k);
    }
  }

  lemma {:induction false} LastEntryDecides(lines: seq<string>, k: string, v: string)
    ensures Get(ParseLines([], lines), k) == Some(v) <==> exists i :: IsLastEntry(lines, k, i, v)
  {
    if lines != [] {
      LastEntryDecides(Init(lines), k, v);
      assert lines == Init(lines) + [Last(lines)];
      OneMoreLine([], Init(lines), Last(lines));
      LastEntryInFront(Init(lines), Last(lines), k, v);
      LineDecides(ParseLines([], Init(lines)), Last(lines), k, v);
    }
  }

  lemma HasAfterLine(env: Env, line: string, k: string)
    ensures var entry := ParseLine(line);
            Has(if entry.None? then env else Put(env, entry.value.0, entry.value.1), k)
            <==> Has(env, k) || Names(line, k)
  {
    var entry := ParseLine(line);
    NamesExactly(line, k);
    if entry.Some? {
      GetHas(env, k);
      GetHas(Put(env, entry.value.0, entry.value.1), k);
      GetPut(env, entry.value.0, entry.value.1, k);
    }
  }

  ghost predicate SomeNames(lines: seq<string>, k: string) {
    exists line :: line in lines && Names(line, k)
  }

  lemma {:induction false} NoEntryNoKey(lines: seq<string>, k: string)
    ensures Has(ParseLines([], lines), k) <==> SomeNames(lines, k)
  {
    if lines != [] {
      NoEntryNoKey(Init(lines), k);
      assert lines == Init(lines) + [Last(lines)];
      OneMoreLine([], Init(lines), Last(lines));
      HasAfterLine(ParseLines([], Init(lines)), Last(lines), k);
      OneMoreNames(Init(lines), Last(lines), k);
    }
  }

  lemma OneMoreNames(lines: seq<string>, line: string, k: string)
    ensures SomeNames(lines + [line], k) <==> SomeNames(lines, k) || Names(line, k)
  {
    assert line in lines + [line];
  }

  /** The value read for a key is that of the last line of the file that is an entry for it, and None without one. */
  lemma LastLineDecides(text: string, k: string)
    ensures var lines := SplitOn(text, '\n');
            && (forall v :: Get(Parse(text), k) == Some(v) <==> exists i :: IsLastEntry(lines, k, i, v))
            && (Get(Parse(text), k) == None <==> forall line :: line in lines ==> !Names(line, k))
  {
    ParseByPieces(text);
    var lines := SplitOn(text, '\n');
    assert SomeNames(lines, k) <==> exists line :: line in lines && Names(line, k);
    forall v
      ensures Get(Parse(text), k) == Some(v) <==> exists i :: IsLastEntry(lines, k, i, v)
    {
      LastEntryDecides(lines, k, v);
    }
    NoEntryNoKey(lines, k);
    GetHas(Parse(text), k);
  }

  /** Keys stand in the order of the lines that first name them. */
  ghost predicate InLineOrder(env: Env, lines: seq<string>) {
    forall p, q, i, j :: 0 <= p < q < |env| && IsFirstEntry(lines, env[p].0, i) && IsFirstEntry(lines, env[q].0, j) ==>
      i < j
  }

  lemma FirstEntryInFront(lines: seq<string>, line: string, k: string, i: int)
    requires IsFirstEntry(lines + [line], k, i)
    ensures if SomeNames(lines, k) then IsFirstEntry(lines, k, i) && i < |lines| else i == |lines|
  {
    var more := lines + [line];
    assert forall j :: 0 <= j < |lines| ==> more[j] == lines[j];
    if l :| l in lines && Names(l, k) {
      var m :| 0 <= m < |lines| && lines[m] == l;
      assert more[m] == l && m >= i;
    }
  }

  lemma {:induction false} OrderKept(lines: seq<string>)
    ensures InLineOrder(ParseLines([], lines), lines)
  {
    if lines != [] {
      OrderKept(Init(lines));
      assert lines == Init(lines) + [Last(lines)];
      OrderStep(Init(lines), Last(lines));
    }
  }

  lemma OrderStep(lines: seq<string>, line: string)
    requires InLineOrder(ParseLines([], lines), lines)
    ensures InLineOrder(ParseLines([], lines + [line]), lines + [line])
  {
    var before, after, more := ParseLines([], lines), ParseLines([], lines + [line]), lines + [line];
    OneMoreLine([], lines, line);
    KeysAfterLine(before, line);
    forall p, q, i, j | 0 <= p < q < |after| && IsFirstEntry(more, after[p].0, i) && IsFirstEntry(more, after[q].0, j)
      ensures i < j
    {
      PairInOrder(before, lines, line, p, q, after[q].0, i, j);
    }
  }

  lemma PairInOrder(before: Env, lines: seq<string>, line: string, p: nat, q: nat, k: string, i: int, j: int)
    requires before == ParseLines([], lines) && InLineOrder(before, lines)
    requires p < q <= |before| && (if q < |before| then k == before[q].0 else !Has(before, k))
    requires IsFirstEntry(lines + [line], before[p].0, i) && IsFirstEntry(lines + [line], k, j)
    ensures i < j
  {
    NoEntryNoKey(lines, before[p].0);
    NoEntryNoKey(lines, k);
    FirstEntryInFront(lines, line, before[p].0, i);
    FirstEntryInFront(lines, line, k, j);
  }

  lemma KeysAfterLine(env: Env, line: string)
    ensures var entry := ParseLine(line);
            var after := if entry.None? then env else Put(env, entry.value.0, entry.value.1);
            && |env| <= |after| <= |env| + 1
            && (forall p :: 0 <= p < |env| ==> after[p].0 == env[p].0)
            && (|after| > |env| ==> !Has(env, after[|env|].0))
  {
    var entry := ParseLine(line);
    if entry.Some? {
      PutKeys(env, entry.value.0, entry.value.1);
      var after := Put(env, entry.value.0, entry.value.1);
      if Has(env, entry.value.0) {
        assert |Keys(after)| == |Keys(env)|;
        assert forall p :: 0 <= p < |env| ==> after[p].0 == Keys(after)[p] && env[p].0 == Keys(env)[p];
      }
    }
  }

  /** A repeated key keeps the place of the first line that names it. */
  lemma FirstLinePlaces(text: string)
    ensures InLineOrder(Parse(text), SplitOn(text, '\n'))
  {
    ParseByPieces(text);
    OrderKept(SplitOn(text, '\n'));
  }

  /** The written file: the header, a blank line, and one line for each entry, the last one ended too. */
  lemma PrintIs(env: Env, k: string, v: string)
    ensures Print([]) == "# Auto-generated by OmniRoute bootstrap\n\n"
    ensures Print(env + [(k, v)]) == Print(env) + k + "=" + v + "\n"
  {
    PrintGrows(env, (k, v));
    EmptyPrint(HEADER);
    assert EntryLines([]) == [];
    assert PrintedLines([]) == [HEADER, "", ""];
    assert HEADER + "\n\n" == "# Auto-generated by OmniRoute bootstrap\n\n";
  }

  lemma EmptyPrint(header: string)
    ensures JoinOn([header, "", ""], '\n') == header + "\n\n"
  {
    JoinSnoc([header, ""], "", '\n');
    JoinSnoc([header], "", '\n');
    assert [header, ""] + [""] == [header, "", ""] && [header] + [""] == [header, ""];
  }

  lemma PrintGrows(env: Env, entry: (string, string))
    ensures Print(env + [entry]) == Print(env) + entry.0 + "=" + entry.1 + "\n"
  {
    var lines := [HEADER, ""] + EntryLines(env);
    assert EntryLines(env + [entry]) == EntryLines(env) + [EntryLine(entry)];
    assert PrintedLines(env + [entry]) == lines + [EntryLine(entry)] + [""];
    assert PrintedLines(env) == lines + [""];
    JoinSnoc(lines, "", '\n');
    JoinSnoc(lines, EntryLine(entry), '\n');
    JoinSnoc(lines + [EntryLine(entry)], "", '\n');
    LineBehind(JoinOn(lines, '\n'), entry.0, entry.1);
  }

  lemma LineBehind(text: string, k: string, v: string)
    ensures text + ['\n'] + (k + "=" + v) + ['\n'] + "" == text + ['\n'] + "" + k + "=" + v + "\n"
  {
  }

  // ----- bootstrap -----

  datatype Secret = JwtSecret | StorageKey | ApiSecret

  function KeyOf(s: Secret): string {
    match s
    case JwtSecret => JWT
    case StorageKey => STORAGE
    case ApiSecret => API
  }

  const JWT := "JWT_SECRET"
  const STORAGE := "STORAGE_ENCRYPTION_KEY"
  const STORAGE_VERSION := "STORAGE_ENCRYPTION_KEY_VERSION"
  const API := "API_KEY_SECRET"

  /** Fresh random secrets in hexadecimal. */
  datatype Secrets = Secrets(jwt: string, storage: string, api: string)

  predicate IsHex(s: string) {
    s != "" && forall c :: c in s ==> '0' <= c <= '9' || 'a' <= c <= 'f'
  }

  predicate AreHex(secrets: Secrets) {
    IsHex(secrets.jwt) && IsHex(secrets.storage) && IsHex(secrets.api)
  }

  /** The value a key has when process environment beats preferred file beats persisted file. */
  function Effective(persisted: Env, preferred: Env, process: Env, k: string): string {
    if Get(process, k).Some? then Get(process, k).value
    else if Get(preferred, k).Some? then Get(preferred, k).value
    else if Get(persisted, k).Some? then Get(persisted, k).value
    else ""
  }

  /** The effective value is empty whatever the persisted file says. */
  predicate Masked(preferred: Env, process: Env, k: string) {
    if Get(process, k).Some? then Get(process, k).value == ""
    else Get(preferred, k) == Some("")
  }

  datatype Outcome = Started(persisted: Env, generated: set<Secret>) | Refused

  /** The secrets whose effective value is empty. */
  function Needed(persisted: Env, preferred: Env, process: Env): set<Secret> {
    set s: Secret | Effective(persisted, preferred, process, KeyOf(s)) == ""
  }

  /** The persisted entries with fresh secrets put in, in the order of the code. */
  function Secured(persisted: Env, needed: set<Secret>, minted: Secrets): Env {
    var p1 := if JwtSecret in needed then Put(persisted, JWT, minted.jwt) else persisted;
    var p2 := if StorageKey in needed then Put(Put(p1, STORAGE, minted.storage), STORAGE_VERSION, "v1") else p1;
    if ApiSecret in needed then Put(p2, API, minted.api) else p2
  }

  /** Existing encrypted credentials refuse a new storage key. */
  function Bootstrap(persisted: Env, preferred: Env, process: Env, encrypted: bool, minted: Secrets): Outcome {
    var needed := Needed(persisted, preferred, process);
    if StorageKey in needed && encrypted then Refused
    else Started(Secured(persisted, needed, minted), needed)
  }

  class DataDir {
    var serverEnvFile: Option<string>

    constructor (file: Option<string>)
      ensures serverEnvFile == file
    {
      serverEnvFile := file;
    }

    function Persisted(): Env
      reads this
    {
      if serverEnvFile.Some? then Parse(serverEnvFile.value) else []
    }

    /** One start. `writable` is false when persisting fails, which is only warned about. */
    method Start(preferred: Env, process: Env, encrypted: bool, minted: Secrets, writable: bool)
      returns (outcome: Outcome)
      requires AreHex(minted)
      modifies this
      ensures outcome == Bootstrap(old(Persisted()), preferred, process, encrypted, minted)
      ensures outcome.Started? && outcome.generated != {} && writable ==> Persisted() == outcome.persisted
      ensures outcome.Refused? || outcome.generated == {} || !writable ==> serverEnvFile == old(serverEnvFile)
    {
      var persisted := ParseEnvFile(serverEnvFile);
      outcome := GenerateMissing(persisted, preferred, process, encrypted, minted);
      if outcome.Started? && outcome.generated != {} && writable {
        PersistedWellFormed(serverEnvFile);
        SecuredWellFormed(persisted, outcome.generated, minted);
        Write(outcome.persisted);
      }
    }

    static method GenerateMissing(read: Env, preferred: Env, process: Env, encrypted: bool, minted: Secrets)
      returns (outcome: Outcome)
      ensures outcome == Bootstrap(read, preferred, process, encrypted, minted)
    {
      var persisted := read;
      var generated: set<Secret> := {};
      if Effective(read, preferred, process, JWT) == "" {
        persisted := Put(persisted, JWT, minted.jwt);
        generated := generated + {JwtSecret};
      }
      if Effective(read, preferred, process, STORAGE) == "" {
        if encrypted {
          assert StorageKey in Needed(read, preferred, process);
          return Refused;
        }
        persisted := Put(persisted, STORAGE, minted.storage);
        persisted := Put(persisted, STORAGE_VERSION, "v1");
        generated := generated + {StorageKey};
      }
      if Effective(read, preferred, process, API) == "" {
        persisted := Put(persisted, API, minted.api);
        generated := generated + {ApiSecret};
      }
      assert forall s: Secret :: s in generated <==> s in Needed(read, preferred, process);
      assert generated == Needed(read, preferred, process);
      return Started(persisted, generated);
    }

    method Write(env: Env)
      requires WellFormed(env)
      modifies this
      ensures Persisted() == env
    {
      serverEnvFile := Some(Print(env));
      ParseOfPrint(env);
    }
  }

  lemma PersistedWellFormed(file: Option<string>)
    ensures WellFormed(if file.Some? then Parse(file.value) else [])
  {
    if file.Some? {
      ParseWellFormed(file.value);
    }
  }

  predicate PlainKey(k: string) {
    k != "" && Trimmed(k) && k[0] != '#' && '=' !in k && '\n' !in k
  }

  lemma SecretKeysArePlain()
    ensures PlainKey(JWT) && PlainKey(STORAGE) && PlainKey(STORAGE_VERSION) && PlainKey(API)
  {
  }

  lemma HexEntry(k: string, v: string)
    requires PlainKey(k) && IsHex(v)
    ensures WellFormedEntry((k, v))
  {
    assert v[0] in v && v[|v| - 1] in v;
  }

  lemma SecuredWellFormed(persisted: Env, needed: set<Secret>, minted: Secrets)
    requires WellFormed(persisted) && AreHex(minted)
    ensures WellFormed(Secured(persisted, needed, minted))
  {
    SecretKeysArePlain();
    HexEntry(JWT, minted.jwt);
    HexEntry(STORAGE, minted.storage);
    HexEntry(API, minted.api);
    VersionEntry(STORAGE_VERSION);
    var jwt, storage, version, api :=
      (JWT, minted.jwt), (STORAGE, minted.storage), (STORAGE_VERSION, "v1"), (API, minted.api);
    StagesWellFormed(persisted, jwt, storage, version, api,
                     JwtSecret in needed, StorageKey in needed, ApiSecret in needed);
  }

  lemma VersionEntry(k: string)
    requires PlainKey(k)
    ensures WellFormedEntry((k, "v1"))
  {
  }

  /** The stages of Secured with any well-formed entries. */
  lemma StagesWellFormed(
      env: Env, a: (string, string), b: (string, string), c: (string, string), d: (string, string),
      first: bool, second: bool, third: bool)
    requires WellFormed(env) && WellFormedEntry(a) && WellFormedEntry(b) && WellFormedEntry(c) && WellFormedEntry(d)
    ensures var p1 := if first then Put(env, a.0, a.1) else env;
            var p2 := if second then Put(Put(p1, b.0, b.1), c.0, c.1) else p1;
            WellFormed(if third then Put(p2, d.0, d.1) else p2)
  {
    PutWellFormed(env, a);
    var p1 := if first then Put(env, a.0, a.1) else env;
    PutWellFormed(p1, b);
    PutWellFormed(Put(p1, b.0, b.1), c);
    PutWellFormed(if second then Put(Put(p1, b.0, b.1), c.0, c.1) else p1, d);
  }

  /** What a start leaves under each key. */
  lemma SecuredLookup(persisted: Env, needed: set<Secret>, minted: Secrets, k: string)
    ensures Get(Secured(persisted, needed, minted), k) ==
            if k == JWT && JwtSecret in needed then Some(minted.jwt)
            else if k == STORAGE && StorageKey in needed then Some(minted.storage)
            else if k == STORAGE_VERSION && StorageKey in needed then Some("v1")
            else if k == API && ApiSecret in needed then Some(minted.api)
            else Get(persisted, k)
  {
    var p1 := if JwtSecret in needed then Put(persisted, JWT, minted.jwt) else persisted;
    var p2 := if StorageKey in needed then Put(Put(p1, STORAGE, minted.storage), STORAGE_VERSION, "v1") else p1;
    GetPut(persisted, JWT, minted.jwt, k);
    GetPut(p1, STORAGE, minted.storage, k);
    GetPut(Put(p1, STORAGE, minted.storage), STORAGE_VERSION, "v1", k);
    GetPut(p2, API, minted.api, k);
    KeysDiffer();
  }

  lemma KeysDiffer()
    ensures JWT != STORAGE && JWT != STORAGE_VERSION && JWT != API
    ensures STORAGE != STORAGE_VERSION && STORAGE != API && STORAGE_VERSION != API
  {
    assert JWT[0] == 'J' && API[0] == 'A' && STORAGE[0] == 'S' && STORAGE_VERSION[0] == 'S';
    assert |STORAGE| == 22 && |STORAGE_VERSION| == 30;
  }

  /**
   * A persisted value a start replaces: a secret that the process environment or the preferred file sets
   * to empty, and the key version whenever a storage key is generated.
   */
  predicate Replaced(persisted: Env, preferred: Env, process: Env, k: string) {
    || (k in {JWT, STORAGE, API} && Masked(preferred, process, k))
    || (k == STORAGE_VERSION && Effective(persisted, preferred, process, STORAGE) == "")
  }

  function Minted(minted: Secrets, k: string): string {
    if k == JWT then minted.jwt else if k == STORAGE then minted.storage else if k == API then minted.api else "v1"
  }

  /** A start keeps every non-empty persisted value but exactly the replaced ones, which get a fresh value. */
  lemma PersistedKeptExactly(persisted: Env, preferred: Env, process: Env, encrypted: bool, minted: Secrets, k: string)
    requires Bootstrap(persisted, preferred, process, encrypted, minted).Started?
    requires Get(persisted, k).Some? && Get(persisted, k).value != ""
    ensures Get(Bootstrap(persisted, preferred, process, encrypted, minted).persisted, k) ==
            if Replaced(persisted, preferred, process, k) then Some(Minted(minted, k)) else Get(persisted, k)
  {
    SecuredLookup(persisted, Needed(persisted, preferred, process), minted, k);
    KeysDiffer();
  }

  /** After a start a secret is effectively empty only when it is masked. */
  lemma EmptyAfterStart(persisted: Env, preferred: Env, process: Env, encrypted: bool, minted: Secrets, s: Secret)
    requires AreHex(minted)
    requires Bootstrap(persisted, preferred, process, encrypted, minted).Started?
    ensures var first := Bootstrap(persisted, preferred, process, encrypted, minted).persisted;
            Effective(first, preferred, process, KeyOf(s)) == "" <==> Masked(preferred, process, KeyOf(s))
  {
    KeysDiffer();
    SecuredLookup(persisted, Needed(persisted, preferred, process), minted, KeyOf(s));
  }

  /**
   * A second start on the written file generates exactly the secrets that are masked; so it generates
   * nothing when neither source sets one of the three to empty.
   */
  lemma SecondStartGeneratesMasked(persisted: Env, preferred: Env, process: Env, encrypted: bool,
                                   minted: Secrets, encrypted2: bool, minted2: Secrets)
    requires AreHex(minted)
    requires Bootstrap(persisted, preferred, process, encrypted, minted).Started?
    ensures var first := Bootstrap(persisted, preferred, process, encrypted, minted);
            var second := Bootstrap(first.persisted, preferred, process, encrypted2, minted2);
            && (second.Refused? <==> encrypted2 && Masked(preferred, process, STORAGE))
            && (second.Started? ==> forall s :: s in second.generated <==> Masked(preferred, process, KeyOf(s)))
            && (second.Started? && second.generated == {} ==> second.persisted == first.persisted)
  {
    var first := Bootstrap(persisted, preferred, process, encrypted, minted).persisted;
    forall s: Secret
      ensures s in Needed(first, preferred, process) <==> Masked(preferred, process, KeyOf(s))
    {
      EmptyAfterStart(persisted, preferred, process, encrypted, minted, s);
    }
    assert KeyOf(StorageKey) == STORAGE;
  }

  /**
   * A persisted secret under an environment that sets it to empty: the first start replaces it, and a second
   * start replaces it again.
   */
  lemma MaskedSecretIsLost(secret: string, minted: Secrets, minted2: Secrets)
    requires secret != "" && AreHex(minted)
    ensures var first := Bootstrap([(JWT, secret)], [], [(JWT, "")], false, minted);
            && first.Started? && Get(first.persisted, JWT) == Some(minted.jwt)
            && var second := Bootstrap(first.persisted, [], [(JWT, "")], false, minted2);
               second.Started? && JwtSecret in second.generated
  {
    var persisted: Env, masked: Env := [(JWT, secret)], [(JWT, "")];
    PersistedKeptExactly(persisted, [], masked, false, minted, JWT);
    SecondStartGeneratesMasked(persisted, [], masked, false, minted, false, minted2);
    assert Masked([], masked, KeyOf(JwtSecret));
  }

  /** Process environment before preferred file before persisted file, the first that has the key leaves it empty. */
  predicate LeftEmpty(persisted: Env, preferred: Env, process: Env, k: string) {
    || Get(process, k) == Some("")
    || (Get(process, k) == None && Get(preferred, k) == Some(""))
    || (Get(process, k) == None && Get(preferred, k) == None && Get(persisted, k) in {None, Some("")})
  }

  /** What a start refuses, what it generates, and what it leaves under every key. */
  lemma BootstrapDecides(persisted: Env, preferred: Env, process: Env, encrypted: bool, minted: Secrets)
    ensures var outcome := Bootstrap(persisted, preferred, process, encrypted, minted);
            var jwt := LeftEmpty(persisted, preferred, process, "JWT_SECRET");
            var storage := LeftEmpty(persisted, preferred, process, "STORAGE_ENCRYPTION_KEY");
            var api := LeftEmpty(persisted, preferred, process, "API_KEY_SECRET");
            && (outcome.Refused? <==> storage && encrypted)
            && (outcome.Started? ==>
                  && (JwtSecret in outcome.generated <==> jwt)
                  && (StorageKey in outcome.generated <==> storage)
                  && (ApiSecret in outcome.generated <==> api)
                  && forall k :: Get(outcome.persisted, k) ==
                       if k == "JWT_SECRET" && jwt then Some(minted.jwt)
                       else if k == "STORAGE_ENCRYPTION_KEY" && storage then Some(minted.storage)
                       else if k == "STORAGE_ENCRYPTION_KEY_VERSION" && storage then Some("v1")
                       else if k == "API_KEY_SECRET" && api then Some(minted.api)
                       else Get(persisted, k))
  {
    var needed := Needed(persisted, preferred, process);
    EmptyExactly(persisted, preferred, process, JWT);
    EmptyExactly(persisted, preferred, process, STORAGE);
    EmptyExactly(persisted, preferred, process, API);
    forall k {
      SecuredLookup(persisted, needed, minted, k);
    }
  }

  lemma EmptyExactly(persisted: Env, preferred: Env, process: Env, k: string)
    ensures Effective(persisted, preferred, process, k) == "" <==> LeftEmpty(persisted, preferred, process, k)
  {
  }
}
