/** The env file: how it is parsed, how a value is written to it, and setting a variable. */
module EnvFile {
  import opened Wrappers
  import opened Text

  datatype Parsed = Parsed(vars: map<string, string>, skipped: set<string>)

  datatype SetError = NotDeclared | EmptyValue | NotSingleLine | AlreadyDifferent

  // ----- quoting

  predicate NeedsQuotes(value: string) {
    (exists c | c in value :: IsSpace(c)) || '"' in value || '#' in value
  }

  /** The value with every double quote escaped. */
  function Escaped(value: string): string {
    if value == "" then ""
    else (if value[0] == '"' then "\\\"" else [value[0]]) + Escaped(value[1..])
  }

  function Unescaped(s: string): string {
    if s == "" then ""
    else if |s| > 1 && s[0] == '\\' && s[1] == '"' then "\"" + Unescaped(s[2..])
    else [s[0]] + Unescaped(s[1..])
  }

  predicate Wrapped(s: string, quote: char) {
    |s| >= 2 && s[0] == quote && s[|s| - 1] == quote
  }

  function Inner(s: string): string
    requires |s| >= 2
  {
    s[1..|s| - 1]
  }

  function Unquoted(s: string): string {
    if Wrapped(s, '"') then Unescaped(Inner(s))
    else if Wrapped(s, '\'') then Inner(s)
    else s
  }

  function Quoted(value: string): string {
    if NeedsQuotes(value) then "\"" + Escaped(value) + "\"" else value
  }

  lemma {:induction false} UnescapesEscaped(value: string)
    ensures Unescaped(Escaped(value)) == value
  {
    if value != "" {
      var c, rest := value[0], value[1..];
      UnescapesEscaped(rest);
      assert value == [c] + rest;
      if c == '"' {
        assert Escaped(value)[2..] == Escaped(rest);
      } else {
        assert Escaped(value)[1..] == Escaped(rest);
        assert Escaped(rest) != "" ==> Escaped(rest)[0] != '"';
      }
    }
  }

  /** Quoting is undone by unquoting, exactly unless a value that needs no quotes comes in single quotes. */
  lemma UnquotesQuotedIff(value: string)
    ensures Unquoted(Quoted(value)) == value <==> NeedsQuotes(value) || !Wrapped(value, '\'')
  {
    if NeedsQuotes(value) {
      var q := "\"" + Escaped(value) + "\"";
      assert Inner(q) == Escaped(value);
      UnescapesEscaped(value);
    } else {
      assert value != "" ==> value[0] in value;
    }
  }

  lemma {:induction false} EscapedIsLonger(value: string)
    ensures |Escaped(value)| >= |value|
  {
    if value != "" {
      EscapedIsLonger(value[1..]);
    }
  }

  /** A value is written as it is exactly without white space, double quotes and hashes, and else in double quotes. */
  lemma StaysBareIff(value: string)
    ensures Quoted(value) == value <==> forall c :: c in value ==> !IsSpace(c) && c != '"' && c != '#'
    ensures Quoted(value) != value ==> Wrapped(Quoted(value), '"')
  {
    EscapedIsLonger(value);
  }

  // ----- parsing

  /** The text before and after the first `c`. */
  function SplitOnce(s: string, c: char): Option<(string, string)> {
    if s == "" then None
    else if s[0] == c then Some(("", s[1..]))
    else match SplitOnce(s[1..], c) case Some((a, b)) => Some(([s[0]] + a, b)) case None => None
  }

  predicate IsNameChar(c: char) {
    'a' <= c <= 'z' || 'A' <= c <= 'Z' || '0' <= c <= '9' || c == '_'
  }

  predicate IsName(key: string) {
    key != "" && forall c | c in key :: IsNameChar(c)
  }

  /** One line: an assignment, a commented-out assignment, or nothing. */
  function ParsedLine(p: Parsed, line: string): Parsed {
    var trimmed := Trim(line);
    if trimmed == "" then p
    else if trimmed[0] == '#' then
      match SplitOnce(Trim(trimmed[1..]), '=')
      case Some((key, _)) => if IsName(Trim(key)) then p.(skipped := p.skipped + {Trim(key)}) else p
      case None => p
    else
      match SplitOnce(trimmed, '=')
      case Some((key, raw)) =>
        if Trim(key) != "" then p.(vars := p.vars[Trim(key) := Unquoted(Trim(raw))]) else p
      case None => p
  }

  function ParsedLines(p: Parsed, lines: seq<string>): Parsed
    decreases lines
  {
    if lines == [] then p else ParsedLines(ParsedLine(p, lines[0]), lines[1..])
  }

  const NOTHING := Parsed(map[], {})

  function ParseOf(content: string): Parsed {
    ParsedLines(NOTHING, Lines(content))
  }

  /** A later assignment to a name wins. */
  method ParseEnvContents(content: string) returns (p: Parsed)
    ensures p == ParseOf(content)
  {
    hide ParsedLine, Lines, Trim, SplitOnce;
    var vars: map<string, string>, skipped: set<string> := map[], {};
    var lines := Lines(content);
    assert lines[0..] == lines;
    for i := 0 to |lines|
      invariant ParsedLines(Parsed(vars, skipped), lines[i..]) == ParseOf(content)
    {
      assert lines[i..][0] == lines[i] && lines[i..][1..] == lines[i + 1..];
      p := ParseLine(lines[i], vars, skipped);
      vars, skipped := p.vars, p.skipped;
    }
    assert lines[|lines|..] == [];
    p := Parsed(vars, skipped);
  }

  method ParseLine(line: string, vars: map<string, string>, skipped: set<string>) returns (p: Parsed)
    ensures p == ParsedLine(Parsed(vars, skipped), line)
  {
    hide Trim, SplitOnce, Unquoted;
    p := Parsed(vars, skipped);
    var trimmed := Trim(line);
    if trimmed == "" {
      return;
    }
    if trimmed[0] == '#' {
      var rest := Trim(trimmed[1..]);
      var parts := SplitOnce(rest, '=');
      if parts.Some? {
        var key := Trim(parts.value.0);
        if IsName(key) {
          p := p.(skipped := skipped + {key});
        }
      }
      return;
    }
    var parts := SplitOnce(trimmed, '=');
    if parts.Some? {
      var key := Trim(parts.value.0);
      var value := Unquoted(Trim(parts.value.1));
      if key != "" {
        p := p.(vars := vars[key := value]);
      }
    }
  }

  // ----- what a line means

  lemma SplitsNowhere(s: string, c: char)
    requires c !in s
    ensures SplitOnce(s, c) == None
  {
  }

  lemma {:induction false} SplitsAtFirst(a: string, c: char, b: string)
    requires c !in a
    ensures SplitOnce(a + [c] + b, c) == Some((a, b))
  {
    var s := a + [c] + b;
    if a == "" {
      assert s[1..] == b;
    } else {
      assert a[0] in a && a == [a[0]] + a[1..] && s[1..] == a[1..] + [c] + b;
      SplitsAtFirst(a[1..], c, b);
    }
  }

  lemma NoSpaceIs(s: string, c: char)
    requires AllSpace(s) && !IsSpace(c)
    ensures c !in s
  {
  }

  /** White space, a key without "=", white space, "=" and a value in white space: the key is assigned the value
      without its quotes, and nothing else changes. */
  lemma AssignmentIsRead(p: Parsed, indent: string, key: string, gap: string, left: string, raw: string, right: string)
    requires AllSpace(indent) && AllSpace(gap) && AllSpace(left) && AllSpace(right)
    requires IsTrimmed(key) && '=' !in key && key[0] != '#' && IsTrimmed(raw)
    ensures ParsedLine(p, indent + (key + gap + "=" + left + raw) + right) == p.(vars := p.vars[key := Unquoted(raw)])
  {
    hide Trim, SplitOnce, Unquoted;
    var text := key + gap + "=" + left + raw;
    assert text[0] == key[0] && text[|text| - 1] == raw[|raw| - 1];
    TrimPadded(indent, text, right);
    NoSpaceIs(gap, '=');
    assert text == (key + gap) + ['='] + (left + raw);
    SplitsAtFirst(key + gap, '=', left + raw);
    TrimPadded("", key, gap);
    assert "" + key + gap == key + gap;
    TrimPadded(left, raw, "");
    assert left + raw + "" == left + raw;
  }

  /** A commented-out assignment, whatever its value, marks its key as skipped, if that is a name, and changes
      nothing else. */
  lemma CommentIsRead(p: Parsed, indent: string, left: string, key: string, gap: string, rest: string)
    requires AllSpace(indent) && AllSpace(left) && AllSpace(gap) && IsTrimmed(key) && '=' !in key
    ensures ParsedLine(p, indent + ("#" + left + key + gap + "=" + rest)) ==
            if forall c | c in key :: 'a' <= c <= 'z' || 'A' <= c <= 'Z' || '0' <= c <= '9' || c == '_'
            then p.(skipped := p.skipped + {key}) else p
  {
    hide Trim, SplitOnce, Unquoted;
    var head, tail := key + gap + "=", TrimEnd(rest);
    assert head[0] == key[0] && head[|head| - 1] == '=';
    var text := "#" + left + head;
    assert text[0] == '#' && text[|text| - 1] == '=';
    assert indent + ("#" + left + key + gap + "=" + rest) == indent + text + rest;
    TrimsAround(indent, text, rest);
    assert (text + tail)[1..] == left + head + tail;
    TrimEndOnce(rest);
    TrimsAround(left, head, tail);
    NoSpaceIs(gap, '=');
    assert head + tail == (key + gap) + ['='] + tail;
    SplitsAtFirst(key + gap, '=', tail);
    TrimPadded("", key, gap);
    assert "" + key + gap == key + gap;
  }

  lemma {:induction false} TrimEndOnce(s: string)
    ensures TrimEnd(TrimEnd(s)) == TrimEnd(s)
  {
    TrimShape(s);
  }

  /** A line without "=" means nothing. */
  lemma OtherLinesMeanNothing(p: Parsed, line: string)
    requires '=' !in line
    ensures ParsedLine(p, line) == p
  {
    hide SplitOnce;
    TrimTakes(line, '=');
    if Trim(line) != "" {
      TrimTakes(Trim(line)[1..], '=');
      assert forall c :: c in Trim(line)[1..] ==> c in Trim(line);
      SplitsNowhere(Trim(line), '=');
      SplitsNowhere(Trim(Trim(line)[1..]), '=');
    }
  }

  lemma TrimTakes(s: string, c: char)
    requires c !in s
    ensures c !in Trim(s)
  {
    TrimShape(s);
    TrimStartTakes(TrimEnd(s), c);
  }

  lemma {:induction false} TrimStartTakes(s: string, c: char)
    requires c !in s
    ensures c !in TrimStart(s)
    decreases |s|
  {
    if s != "" && IsSpace(s[0]) {
      assert forall d :: d in s[1..] ==> d in s;
      TrimStartTakes(s[1..], c);
    }
  }

  // ----- writing one variable

  function WrittenVar(key: string, value: string): string {
    key + "=" + Quoted(value)
  }

  /** A value that can be stored. */
  predicate Storable(value: string) {
    !IsBlank(value) && '\n' !in value && '\r' !in value && '\0' !in value
  }

  lemma NameHasNoSpace(c: char)
    requires IsNameChar(c)
    ensures !IsSpace(c) && c != '=' && c != '#'
  {
  }

  lemma TrimName(key: string)
    requires IsName(key)
    ensures Trim(key) == key && '=' !in key && !IsSpace(key[0]) && key[0] != '#'
  {
    forall c | c in key ensures !IsSpace(c) && c != '=' && c != '#' {
      NameHasNoSpace(c);
    }
    assert key[0] in key && key[|key| - 1] in key;
    TrimNothing(key);
  }

  /** What is written for a storable value begins and ends with something trimming leaves. */
  lemma TrimQuoted(value: string)
    requires Storable(value)
    ensures Quoted(value) != "" && Trim(Quoted(value)) == Quoted(value)
    ensures !IsSpace(Quoted(value)[|Quoted(value)| - 1])
  {
    var q := Quoted(value);
    if NeedsQuotes(value) {
      assert q[0] == '"' && q[|q| - 1] == '"';
    } else {
      assert value != "" by {
        assert TrimEnd("") == "";
      }
      assert value[0] in value && value[|value| - 1] in value;
    }
    TrimNothing(q);
  }

  /** The written line is read as an assignment of the unquoted value. */
  lemma WrittenIsRead(p: Parsed, key: string, value: string)
    requires IsName(key) && Storable(value)
    ensures ParsedLine(p, WrittenVar(key, value)) == p.(vars := p.vars[key := Unquoted(Quoted(value))])
  {
    hide Trim, SplitOnce, Quoted, Unquoted, Storable;
    var q, line := Quoted(value), WrittenVar(key, value);
    TrimName(key);
    TrimQuoted(value);
    assert line[0] == key[0] && line[|line| - 1] == q[|q| - 1];
    TrimNothing(line);
    assert line == key + ['='] + q;
    SplitsAtFirst(key, '=', q);
  }

  // ----- appending to the file

  /** The contents with the last line ended. */
  function Ended(content: string): string {
    if content != "" && !EndsWith(content, '\n') then content + "\n" else content
  }

  function Appended(content: string, key: string, value: string): string {
    Ended(content) + WrittenVar(key, value) + "\n"
  }

  lemma {:induction false} ParsedJoin(p: Parsed, a: seq<string>, b: seq<string>)
    ensures ParsedLines(p, a + b) == ParsedLines(ParsedLines(p, a), b)
    decreases a
  {
    hide ParsedLine;
    if a == [] {
      assert a + b == b;
    } else {
      assert (a + b)[1..] == a[1..] + b;
      ParsedJoin(ParsedLine(p, a[0]), a[1..], b);
    }
  }

  /** Ending the last line makes no difference to what is parsed. */
  lemma EndingIsNeutral(content: string)
    ensures ParseOf(Ended(content)) == ParseOf(content)
  {
    hide ParsedLines, Lines;
    if content != "" && !EndsWith(content, '\n') {
      LinesEnded(content);
      var lines := Lines(content);
      var front, last := lines[..|lines| - 1], lines[|lines| - 1];
      assert lines == front + [last];
      ParsedJoin(NOTHING, front, [last]);
      ParsedJoin(NOTHING, front, [Chomp(last)]);
      SameLine(ParsedLines(NOTHING, front), last);
    }
  }

  lemma SameLine(p: Parsed, line: string)
    ensures ParsedLines(p, [Chomp(line)]) == ParsedLines(p, [line])
  {
    hide Trim, SplitOnce, Unquoted;
    TrimChomp(line);
    assert [line][1..] == [] && [Chomp(line)][1..] == [];
  }

  lemma WrittenIsOneLine(key: string, value: string)
    requires IsName(key) && Storable(value)
    ensures Lines(WrittenVar(key, value) + "\n") == [WrittenVar(key, value)]
  {
    hide Trim;
    var line := WrittenVar(key, value);
    forall c | c in key ensures c != '\n' {
    }
    NoBreakInEscaped(value);
    TrimQuoted(value);
    assert line[|line| - 1] == Quoted(value)[|Quoted(value)| - 1];
    assert !EndsWith(line, '\r');
    LinesCons(line, "");
    assert line + "\n" + "" == line + "\n";
    LinesOfNone();
  }

  lemma {:induction false} NoBreakInEscaped(value: string)
    requires '\n' !in value
    ensures '\n' !in Escaped(value)
  {
    if value != "" {
      assert value[0] in value && forall c :: c in value[1..] ==> c in value;
      NoBreakInEscaped(value[1..]);
    }
  }

  /** What is read first, and what is read after it and wins. */
  function Merged(p: Parsed, q: Parsed): Parsed {
    Parsed(p.vars + q.vars, p.skipped + q.skipped)
  }

  lemma MergedOnce(p: Parsed, line: string)
    ensures ParsedLine(p, line) == Merged(p, ParsedLine(NOTHING, line))
  {
    hide Trim, SplitOnce, Unquoted;
  }

  lemma MergedThrice(p: Parsed, q: Parsed, r: Parsed)
    ensures Merged(Merged(p, q), r) == Merged(p, Merged(q, r))
  {
  }

  lemma {:induction false} ParsedMerges(p: Parsed, lines: seq<string>)
    ensures ParsedLines(p, lines) == Merged(p, ParsedLines(NOTHING, lines))
    decreases lines
  {
    hide ParsedLine, Merged;
    if lines == [] {
      MergedNothing(p);
    } else {
      var one := ParsedLine(NOTHING, lines[0]);
      ParsedMerges(ParsedLine(p, lines[0]), lines[1..]);
      ParsedMerges(one, lines[1..]);
      MergedOnce(p, lines[0]);
      MergedThrice(p, one, ParsedLines(NOTHING, lines[1..]));
    }
  }

  lemma MergedNothing(p: Parsed)
    ensures Merged(p, NOTHING) == p
  {
  }

  /** What is written behind a file is read after it, whatever both are. */
  lemma AppendsMerge(content: string, more: string)
    ensures ParseOf(Ended(content) + more) == Merged(ParseOf(content), ParseOf(more))
  {
    hide ParsedLines, Lines, Merged;
    EndingIsNeutral(content);
    LinesSplit(Ended(content), more);
    ParsedJoin(NOTHING, Lines(Ended(content)), Lines(more));
    ParsedMerges(ParseOf(content), Lines(more));
  }

  /** After an append the parser sees the old contents and the new assignment, and nothing else. */
  lemma AppendedIsRead(content: string, key: string, value: string)
    requires IsName(key) && Storable(value)
    ensures ParseOf(Appended(content, key, value)) ==
            ParseOf(content).(vars := ParseOf(content).vars[key := Unquoted(Quoted(value))])
  {
    hide ParsedLine, Lines, WrittenVar, Quoted, Unquoted, Storable, IsName;
    var line := WrittenVar(key, value);
    EndingIsNeutral(content);
    WrittenIsOneLine(key, value);
    assert Ended(content) + line + "\n" == Ended(content) + (line + "\n");
    LinesSplit(Ended(content), line + "\n");
    ParsedJoin(NOTHING, Lines(Ended(content)), [line]);
    WrittenIsRead(ParseOf(content), key, value);
    assert [line][1..] == [];
  }

  // ----- setting a variable

  /** What setting a variable does: the new contents, or why they are not written. */
  function SetOf(declared: set<string>, content: string, name: string, value: string): Result<string, SetError> {
    if name !in declared then Err(NotDeclared)
    else if IsBlank(value) then Err(EmptyValue)
    else if '\n' in value || '\r' in value || '\0' in value then Err(NotSingleLine)
    else
      var vars := ParseOf(content).vars;
      if name in vars && !IsBlank(vars[name]) then
        (if vars[name] == value then Ok(content) else Err(AlreadyDifferent))
      else Ok(Appended(content, name, value))
  }

  predicate IsSet(content: string, name: string) {
    name in ParseOf(content).vars && !IsBlank(ParseOf(content).vars[name])
  }

  /** Setting a missing or blank variable succeeds and touches no other variable. The parser then
      returns exactly the value, and a second identical set writes nothing, exactly unless the value
      needs no quotes and comes in single quotes. */
  lemma SetRoundTripIff(declared: set<string>, content: string, name: string, value: string)
    requires name in declared && IsName(name) && Storable(value) && !IsSet(content, name)
    ensures var r := SetOf(declared, content, name, value);
            && r.Ok?
            && (forall n :: n != name ==> Get(ParseOf(r.value).vars, n) == Get(ParseOf(content).vars, n))
            && ParseOf(r.value).skipped == ParseOf(content).skipped
            && (Get(ParseOf(r.value).vars, name) == Some(value) <==> NeedsQuotes(value) || !Wrapped(value, '\''))
            && (SetOf(declared, r.value, name, value) == Ok(r.value) <==> NeedsQuotes(value) || !Wrapped(value, '\''))
  {
    hide ParseOf, Appended, Quoted, Unquoted, NeedsQuotes, Trim;
    AppendedIsRead(content, name, value);
    UnquotesQuotedIff(value);
    AppendedIsLonger(content, name, value);
    AppendedIsLonger(Appended(content, name, value), name, value);
  }

  lemma AppendedIsLonger(content: string, name: string, value: string)
    ensures |Appended(content, name, value)| > |content|
  {
  }

  /** A set succeeds exactly if the variable is declared, the value can be stored, and the variable is missing, blank
      or has that value already; what has a value already leaves the file as it is. */
  lemma SetSucceedsIff(declared: set<string>, content: string, name: string, value: string)
    ensures SetOf(declared, content, name, value).Ok? <==>
            && name in declared && Storable(value)
            && (IsSet(content, name) ==> ParseOf(content).vars[name] == value)
    ensures SetOf(declared, content, name, value).Ok? && IsSet(content, name) ==>
              SetOf(declared, content, name, value) == Ok(content)
    ensures match SetOf(declared, content, name, value)
            case Ok(_) => true
            case Err(NotDeclared) => name !in declared
            case Err(EmptyValue) => name in declared && IsBlank(value)
            case Err(NotSingleLine) => name in declared && !IsBlank(value) && !Storable(value)
            case Err(AlreadyDifferent) =>
              && name in declared && Storable(value)
              && IsSet(content, name) && ParseOf(content).vars[name] != value
  {
    hide ParseOf, Appended, IsBlank;
  }

  /** What is read from the line that a set writes. */
  function LineAlone(name: string, value: string): Parsed {
    ParseOf(WrittenVar(name, value) + "\n")
  }

  /** A set that writes adds just that to what was read, whatever the file, the name and the value. */
  lemma SetAdds(declared: set<string>, content: string, name: string, value: string)
    ensures match SetOf(declared, content, name, value)
            case Ok(next) =>
              ParseOf(next) ==
              if IsSet(content, name) then ParseOf(content) else Merged(ParseOf(content), LineAlone(name, value))
            case Err(_) => true
  {
    hide ParseOf, WrittenVar, Merged, IsBlank;
    AppendsMerge(content, WrittenVar(name, value) + "\n");
    assert Ended(content) + (WrittenVar(name, value) + "\n") == Appended(content, name, value);
  }

  /** Whatever is set in the file reads as before. */
  ghost predicate KeepsWhatIsSet(declared: set<string>, content: string, name: string, value: string) {
    match SetOf(declared, content, name, value)
    case Ok(next) => forall k :: IsSet(content, k) ==> Get(ParseOf(next).vars, k) == Get(ParseOf(content).vars, k)
    case Err(_) => true
  }

  /** A set never changes a variable that is already set, whatever the file, exactly if the line it writes is read
      as no other variable. */
  lemma SetKeepsIff(name: string, value: string)
    requires Storable(value)
    ensures (forall content :: KeepsWhatIsSet({name}, content, name, value)) <==>
            LineAlone(name, value).vars.Keys <= {name}
  {
    hide ParseOf, WrittenVar, IsBlank, KeepsWhatIsSet, Storable;
    if LineAlone(name, value).vars.Keys <= {name} {
      forall content ensures KeepsWhatIsSet({name}, content, name, value) {
        SetKeeps(content, name, value);
      }
    } else {
      var k :| k in LineAlone(name, value).vars && k != name;
      var content := SetElsewhere(name, value, k);
      assert !KeepsWhatIsSet({name}, content, name, value);
    }
  }

  lemma SetKeeps(content: string, name: string, value: string)
    requires LineAlone(name, value).vars.Keys <= {name}
    ensures KeepsWhatIsSet({name}, content, name, value)
  {
    hide ParseOf, IsBlank, Appended, WrittenVar;
    SetAdds({name}, content, name, value);
  }

  /** A file in which the other variable has another value. */
  lemma SetElsewhere(name: string, value: string, k: string) returns (content: string)
    requires Storable(value) && k in LineAlone(name, value).vars && k != name
    ensures !KeepsWhatIsSet({name}, content, name, value)
  {
    KeysAreTrimmed(WrittenVar(name, value) + "\n", k);
    hide ParseOf, Appended, WrittenVar, IsTrimmed, Storable, Trim;
    var v := LineAlone(name, value).vars[k];
    var other := if v == "a" then "b" else "a";
    content := k + "=" + other + "\n";
    OneAssignment(k, other);
    TrimNothing(other);
    assert IsSet(content, k) && !IsSet(content, name);
    SetSucceedsIff({name}, content, name, value);
    SetAdds({name}, content, name, value);
    assert Get(Merged(ParseOf(content), LineAlone(name, value)).vars, k) == Some(v);
  }

  /** Names that are read have no white space around them, no "=" in them, and begin no comment. */
  ghost predicate IsKey(k: string) {
    IsTrimmed(k) && '=' !in k && '\n' !in k && k[0] != '#'
  }

  lemma OneLine(line: string)
    requires '\n' !in line
    ensures ParseOf(line + "\n") == ParsedLine(NOTHING, Chomp(line))
  {
    hide Lines, ParsedLine;
    LinesCons(line, "");
    assert line + "\n" + "" == line + "\n";
    LinesOfNone();
    var one := [Chomp(line)];
    assert one + [] == one && one[1..] == [];
    assert ParsedLines(NOTHING, one) == ParsedLines(ParsedLine(NOTHING, one[0]), one[1..]);
  }

  lemma TrimOfNothing()
    ensures Trim("") == ""
  {
  }

  lemma OneAssignment(k: string, v: string)
    requires IsKey(k) && v in {"a", "b"}
    ensures ParseOf(k + "=" + v + "\n") == Parsed(map[k := v], {})
  {
    hide Trim, SplitOnce, ParsedLine, Lines;
    var line := k + "=" + v;
    assert line[|line| - 1] == v[0] && '\n' !in line;
    assert Chomp(line) == line;
    OneLine(line);
    assert IsTrimmed(v) && Unquoted(v) == v;
    AssignmentIsRead(NOTHING, "", k, "", "", v, "");
    assert "" + (k + "" + "=" + "" + v) + "" == line;
  }

  lemma KeysAreTrimmed(content: string, k: string)
    requires k in ParseOf(content).vars
    ensures IsKey(k)
  {
    LinesHaveNoBreaks(content);
    KeysOfLines(NOTHING, Lines(content), k);
  }

  lemma {:induction false} KeysOfLines(p: Parsed, lines: seq<string>, k: string)
    requires NoBreaks(lines) && k in ParsedLines(p, lines).vars && k !in p.vars
    ensures IsKey(k)
    decreases lines
  {
    hide ParsedLine, IsKey;
    if lines != [] {
      var q := ParsedLine(p, lines[0]);
      assert lines[0] in lines && forall l :: l in lines[1..] ==> l in lines;
      if k in q.vars {
        KeyOfLine(p, lines[0], k);
      } else {
        KeysOfLines(q, lines[1..], k);
      }
    }
  }

  lemma KeyOfLine(p: Parsed, line: string, k: string)
    requires '\n' !in line && k in ParsedLine(p, line).vars && k !in p.vars
    ensures IsKey(k)
  {
    hide TrimEnd, TrimStart, SplitOnce, Unquoted;
    var trimmed := Trim(line);
    TrimTakes(line, '\n');
    var parts := SplitOnce(trimmed, '=').value;
    SplitIs(trimmed, '=');
    TrimTakes(parts.0, '=');
    TrimTakes(parts.0, '\n');
    TrimmedShape(line);
    TrimmedShape(parts.0);
    KeyBegins(parts.0, trimmed);
  }

  lemma {:induction false} SplitIs(s: string, c: char)
    ensures match SplitOnce(s, c)
            case Some((a, b)) => s == a + [c] + b && c !in a
            case None => c !in s
  {
    if s != "" {
      SplitIs(s[1..], c);
      assert s == [s[0]] + s[1..];
    }
  }

  lemma TrimmedShape(s: string)
    ensures Trim(s) != "" ==> IsTrimmed(Trim(s))
  {
    TrimShape(s);
    TrimStartShape(TrimEnd(s));
  }

  lemma {:induction false} TrimStartShape(s: string)
    ensures |TrimStart(s)| <= |s| && TrimStart(s) == s[|s| - |TrimStart(s)|..]
    ensures TrimStart(s) != "" ==> !IsSpace(TrimStart(s)[0])
    decreases |s|
  {
    if s != "" && IsSpace(s[0]) {
      TrimStartShape(s[1..]);
    }
  }

  /** A key at the beginning of a trimmed line begins as the line does. */
  lemma KeyBegins(a: string, trimmed: string)
    requires a <= trimmed && IsTrimmed(trimmed) && Trim(a) != ""
    ensures Trim(a)[0] == trimmed[0]
  {
    TrimShape(a);
    assert a != "" && TrimEnd(a) != "" && TrimEnd(a)[0] == a[0] == trimmed[0];
  }

  /** So it is for every name without line feeds, "=" and white space around it. */
  lemma PlainNamesKeep(name: string, value: string)
    requires '=' !in name && '\n' !in name && (name == "" || IsTrimmed(name)) && Storable(value)
    ensures LineAlone(name, value).vars.Keys <= {name}
  {
    hide Trim, SplitOnce, Unquoted, ParsedLine, Lines, Quoted;
    var q, line := Quoted(value), WrittenVar(name, value);
    TrimQuoted(value);
    QuotedIsOneLine(value);
    assert line[|line| - 1] == q[|q| - 1] && '\n' !in line && !EndsWith(line, '\r');
    OneLine(line);
    TrimmedShape(q);
    PlainLine(name, q);
  }

  lemma QuotedIsOneLine(value: string)
    requires Storable(value)
    ensures '\n' !in Quoted(value)
  {
    NoBreakInEscaped(value);
  }

  lemma PlainLine(name: string, q: string)
    requires '=' !in name && (name == "" || IsTrimmed(name)) && IsTrimmed(q)
    ensures ParsedLine(NOTHING, name + "=" + q).vars.Keys <= {name}
  {
    hide TrimEnd, TrimStart, SplitOnce, Unquoted;
    var line := name + "=" + q;
    assert line[|line| - 1] == q[|q| - 1] && line[0] == if name == "" then '=' else name[0];
    TrimNothing(line);
    assert line == name + ['='] + q;
    SplitsAtFirst(name, '=', q);
    if name != "" {
      TrimNothing(name);
    } else {
      TrimOfNothing();
    }
  }

  /** A name with "=" in it sets another variable, although that one is set. */
  lemma OtherNamesOverride()
    ensures var content := "A=a\n";
            && ParseOf(content).vars == map["A" := "a"]
            && SetOf({"A=b"}, content, "A=b", "c") == Ok("A=a\nA=b=c\n")
            && ParseOf("A=a\nA=b=c\n").vars == map["A" := "b=c"]
  {
    hide ParseOf, Trim, ParsedLine, NeedsQuotes, AllSpace;
    var content, line := "A=a\n", "A=b=c";
    OneAssignment("A", "a");
    assert "A" + "=" + "a" + "\n" == content;
    PlainValue();
    assert WrittenVar("A=b", "c") == line && Ended(content) == content;
    SetSucceedsIff({"A=b"}, content, "A=b", "c");
    AppendsMerge(content, line + "\n");
    assert content + (line + "\n") == "A=a\nA=b=c\n" == Appended(content, "A=b", "c");
    OneLine(line);
    OtherAssignment();
    assert map["A" := "a"] + map["A" := "b=c"] == map["A" := "b=c"];
  }

  lemma PlainValue()
    ensures Storable("c") && !NeedsQuotes("c")
  {
    TrimNothing("c");
  }

  lemma OtherAssignment()
    ensures ParsedLine(NOTHING, "A=b=c") == Parsed(map["A" := "b=c"], {})
  {
    AssignmentIsRead(NOTHING, "", "A", "", "", "b=c", "");
    assert "" + ("A" + "" + "=" + "" + "b=c") + "" == "A=b=c";
  }

  /** The exception: a pair of single quotes reads back as an empty value, and is appended again and again. */
  lemma QuotesAreLost()
    ensures var once := SetOf({"TOKEN"}, "", "TOKEN", "''");
            && once == Ok("TOKEN=''\n") && ParseOf("TOKEN=''\n").vars == map["TOKEN" := ""]
            && SetOf({"TOKEN"}, "TOKEN=''\n", "TOKEN", "''") == Ok("TOKEN=''\nTOKEN=''\n")
  {
    hide ParseOf;
    var name, value := "TOKEN", "''";
    TrimNothing(value);
    assert !NeedsQuotes(value);
    assert Storable(value) && IsName(name);
    assert Unquoted(value) == "" && IsBlank("");
    AppendedIsRead("", name, value);
    ParseOfNothing();
    assert Appended("", name, value) == "TOKEN=''\n";
    AppendedIsRead("TOKEN=''\n", name, value);
    assert Appended("TOKEN=''\n", name, value) == "TOKEN=''\nTOKEN=''\n";
  }

  lemma ParseOfNothing()
    ensures ParseOf("") == NOTHING
  {
  }

  // ----- appending several at once

  function VarLines(vars: seq<(string, string)>): string {
    if vars == [] then ""
    else VarLines(vars[..|vars| - 1]) + WrittenVar(vars[|vars| - 1].0, vars[|vars| - 1].1) + "\n"
  }

  function SkippedLines(keys: seq<string>): string {
    if keys == [] then "" else SkippedLines(keys[..|keys| - 1]) + "# " + keys[|keys| - 1] + "=\n"
  }

  function AppendedAll(content: string, vars: seq<(string, string)>, skipped: seq<string>): string {
    if vars == [] && skipped == [] then content else Ended(content) + VarLines(vars) + SkippedLines(skipped)
  }

  /** After the lines of `lines` one more is read. */
  lemma ReadsOn(lines: string, line: string)
    requires (lines == "" || EndsWith(lines, '\n')) && '\n' !in line
    ensures ParseOf(lines + line + "\n") == ParsedLine(ParseOf(lines), Chomp(line))
    ensures EndsWith(lines + line + "\n", '\n')
  {
    hide Lines, ParsedLines, ParsedLine, Merged;
    assert lines + line + "\n" == Ended(lines) + (line + "\n");
    AppendsMerge(lines, line + "\n");
    OneLine(line);
    MergedOnce(ParseOf(lines), Chomp(line));
  }

  /** The last assignment to each key. */
  ghost predicate Assigns(vars: seq<(string, string)>, p: map<string, string>, q: map<string, string>) {
    && (forall i :: 0 <= i < |vars| && (forall j :: i < j < |vars| ==> vars[j].0 != vars[i].0) ==>
                      Get(q, vars[i].0) == Some(Unquoted(Quoted(vars[i].1))))
    && forall k :: (forall i :: 0 <= i < |vars| ==> vars[i].0 != k) ==> Get(q, k) == Get(p, k)
  }

  lemma NoVarLines(content: string, p: map<string, string>)
    ensures content + VarLines([]) == content && Assigns([], p, p)
  {
  }

  lemma AssignsOn(
      vars: seq<(string, string)>, p: map<string, string>, q: map<string, string>, key: string, value: string)
    requires Assigns(vars, p, q)
    ensures Assigns(vars + [(key, value)], p, q[key := Unquoted(Quoted(value))])
  {
    hide Quoted, Unquoted;
    var all, next := vars + [(key, value)], q[key := Unquoted(Quoted(value))];
    forall i | 0 <= i < |all| && forall j :: i < j < |all| ==> all[j].0 != all[i].0
      ensures Get(next, all[i].0) == Some(Unquoted(Quoted(all[i].1)))
    {
      if i < |vars| {
        assert all[|vars|].0 != all[i].0 && all[i] == vars[i];
        assert forall j :: i < j < |vars| ==> vars[j] == all[j];
      }
    }
    forall k | forall i :: 0 <= i < |all| ==> all[i].0 != k ensures Get(next, k) == Get(p, k) {
      assert all[|vars|].0 != k;
      assert forall i :: 0 <= i < |vars| ==> vars[i] == all[i];
    }
  }

  lemma OneMoreLine(content: string, lines: string, line: string)
    ensures content + (lines + line + "\n") == content + lines + line + "\n"
  {
  }

  lemma VarLinesLast(vars: seq<(string, string)>)
    requires vars != []
    ensures var front, last := vars[..|vars| - 1], vars[|vars| - 1];
            vars == front + [last] && VarLines(vars) == VarLines(front) + WrittenVar(last.0, last.1) + "\n"
  {
    hide WrittenVar;
  }

  lemma {:induction false} VarLinesAreRead(content: string, vars: seq<(string, string)>)
    requires content == "" || EndsWith(content, '\n')
    requires forall v :: v in vars ==> IsName(v.0) && Storable(v.1)
    ensures var all := content + VarLines(vars);
            && (all == "" || EndsWith(all, '\n'))
            && Assigns(vars, ParseOf(content).vars, ParseOf(all).vars)
            && ParseOf(all).skipped == ParseOf(content).skipped
    decreases |vars|
  {
    hide ParseOf, Quoted, Unquoted, IsName, Storable, WrittenVar, VarLines, Assigns;
    if vars == [] {
      NoVarLines(content, ParseOf(content).vars);
    } else {
      var front, last := vars[..|vars| - 1], vars[|vars| - 1];
      VarLinesAreRead(content, front);
      VarLinesLast(vars);
      var lines, line := content + VarLines(front), WrittenVar(last.0, last.1);
      WrittenEnds(last.0, last.1);
      ReadsOn(lines, line);
      WrittenIsRead(ParseOf(lines), last.0, last.1);
      OneMoreLine(content, VarLines(front), line);
      AssignsOn(front, ParseOf(content).vars, ParseOf(lines).vars, last.0, last.1);
    }
  }

  lemma WrittenEnds(key: string, value: string)
    requires IsName(key) && Storable(value)
    ensures '\n' !in WrittenVar(key, value) && Chomp(WrittenVar(key, value)) == WrittenVar(key, value)
  {
    hide Trim, Quoted;
    QuotedIsOneLine(value);
    TrimQuoted(value);
    var line := WrittenVar(key, value);
    assert line[|line| - 1] == Quoted(value)[|Quoted(value)| - 1];
    forall c | c in key ensures c != '\n' {
    }
  }

  lemma SkippedIsRead(p: Parsed, key: string)
    requires IsName(key)
    ensures ParsedLine(p, "# " + key + "=") == p.(skipped := p.skipped + {key}) && '\n' !in "# " + key + "="
  {
    hide Trim, SplitOnce, ParsedLine;
    TrimName(key);
    assert key[|key| - 1] in key && !IsSpace(key[|key| - 1]);
    CommentIsRead(p, "", " ", key, "", "");
    assert "" + ("#" + " " + key + "" + "=" + "") == "# " + key + "=";
    forall c | c in key ensures c != '\n' {
    }
  }

  lemma NoSkippedLines(content: string)
    ensures content + SkippedLines([]) == content
  {
  }

  lemma SkippedLast(keys: seq<string>)
    requires keys != []
    ensures var front, last := keys[..|keys| - 1], keys[|keys| - 1];
            && keys == front + [last]
            && SkippedLines(keys) == SkippedLines(front) + ("# " + last + "=") + "\n"
  {
    var front, last := SkippedLines(keys[..|keys| - 1]), keys[|keys| - 1];
    assert front + "# " + last + "=\n" == front + ("# " + last + "=") + "\n";
  }

  lemma {:induction false} SkippedLinesAreRead(content: string, keys: seq<string>)
    requires (content == "" || EndsWith(content, '\n')) && forall k :: k in keys ==> IsName(k)
    ensures var all := content + SkippedLines(keys);
            && (all == "" || EndsWith(all, '\n'))
            && ParseOf(all) == ParseOf(content).(skipped := ParseOf(content).skipped + set k | k in keys)
    decreases |keys|
  {
    hide ParseOf, IsName, SkippedLines;
    if keys == [] {
      NoSkippedLines(content);
      assert (set k | k in keys) == {};
    } else {
      var front, last := keys[..|keys| - 1], keys[|keys| - 1];
      SkippedLinesAreRead(content, front);
      SkippedLast(keys);
      var lines, line := content + SkippedLines(front), "# " + last + "=";
      SkippedIsRead(ParseOf(lines), last);
      ReadsOn(lines, line);
      OneMoreLine(content, SkippedLines(front), line);
      assert (set k | k in keys) == (set k | k in front) + {last};
    }
  }

  /** After an append of values and skipped names the parser sees, besides what was there, the last value of each
      variable, without its quotes, and every name as skipped. */
  lemma AppendedAllIsRead(content: string, vars: seq<(string, string)>, skipped: seq<string>)
    requires forall v :: v in vars ==> IsName(v.0) && Storable(v.1)
    requires forall k :: k in skipped ==> IsName(k)
    ensures var p, q := ParseOf(content), ParseOf(AppendedAll(content, vars, skipped));
            Assigns(vars, p.vars, q.vars) && q.skipped == p.skipped + set k | k in skipped
  {
    hide ParseOf, IsName, Storable, Quoted, Unquoted;
    if vars != [] || skipped != [] {
      EndingIsNeutral(content);
      VarLinesAreRead(Ended(content), vars);
      SkippedLinesAreRead(Ended(content) + VarLines(vars), skipped);
    } else {
      assert (set k | k in skipped) == {};
    }
  }

  class File {
    var contents: string

    constructor (contents: string)
      ensures this.contents == contents
    {
      this.contents := contents;
    }

    /** Sets a declared variable that has no value yet. */
    method SetEnvValue(declared: set<string>, name: string, value: string) returns (error: Option<SetError>)
      modifies this
      ensures match SetOf(declared, old(contents), name, value)
              case Ok(next) => error == None && contents == next
              case Err(e) => error == Some(e) && contents == old(contents)
      ensures error == None <==>
              && name in declared && Storable(value)
              && (IsSet(old(contents), name) ==> ParseOf(old(contents)).vars[name] == value)
      ensures IsSet(old(contents), name) || error.Some? ==> contents == old(contents)
    {
      SetSucceedsIff(declared, contents, name, value);
      if name !in declared {
        return Some(NotDeclared);
      }
      if IsBlank(value) {
        return Some(EmptyValue);
      }
      if '\n' in value || '\r' in value || '\0' in value {
        return Some(NotSingleLine);
      }
      var parsed := ParseEnvContents(contents);
      if name in parsed.vars && !IsBlank(parsed.vars[name]) {
        if parsed.vars[name] == value {
          return None;
        }
        return Some(AlreadyDifferent);
      }
      if contents != "" && !EndsWith(contents, '\n') {
        contents := contents + "\n";
      }
      WriteEnvVar(name, value);
      return None;
    }

    method WriteEnvVar(key: string, value: string)
      modifies this
      ensures contents == old(contents) + WrittenVar(key, value) + "\n"
    {
      if NeedsQuotes(value) {
        contents := contents + (key + "=\"" + Escaped(value) + "\"" + "\n");
        assert key + "=\"" + Escaped(value) + "\"" == WrittenVar(key, value);
      } else {
        contents := contents + (key + "=" + value + "\n");
      }
    }

    /** Appends the values given and the names skipped. */
    method AppendToEnvFile(vars: seq<(string, string)>, skipped: seq<string>)
      modifies this
      ensures contents == AppendedAll(old(contents), vars, skipped)
    {
      if vars == [] && skipped == [] {
        return;
      }
      if contents != "" && !EndsWith(contents, '\n') {
        contents := contents + "\n";
      }
      hide VarLines, SkippedLines, WrittenVar;
      ghost var ended := contents;
      NoVarLines(ended, map[]);
      for i := 0 to |vars|
        invariant contents == ended + VarLines(vars[..i])
      {
        VarLinesLast(vars[..i + 1]);
        OneMoreLine(ended, VarLines(vars[..i]), WrittenVar(vars[i].0, vars[i].1));
        assert vars[..i + 1][..i] == vars[..i];
        WriteEnvVar(vars[i].0, vars[i].1);
      }
      assert vars[..|vars|] == vars;
      ghost var written := contents;
      NoSkippedLines(written);
      for i := 0 to |skipped|
        invariant contents == written + SkippedLines(skipped[..i])
      {
        SkippedLast(skipped[..i + 1]);
        OneMoreLine(written, SkippedLines(skipped[..i]), "# " + skipped[i] + "=");
        assert skipped[..i + 1][..i] == skipped[..i];
        contents := contents + ("# " + skipped[i] + "=") + "\n";
      }
      assert skipped[..|skipped|] == skipped;
    }
  }
}
