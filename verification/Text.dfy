/** Lines and white space, as the text transformations read them. */
module Text {
  /** The characters that trimming takes away. */
  predicate IsSpace(c: char) {
    var n := c as int;
    || 9 <= n <= 13 || n == 32 || n == 0x85 || n == 0xA0 || n == 0x1680 || 0x2000 <= n <= 0x200A
    || n == 0x2028 || n == 0x2029 || n == 0x202F || n == 0x205F || n == 0x3000
  }

  function TrimEnd(s: string): string {
    if s != "" && IsSpace(s[|s| - 1]) then TrimEnd(s[..|s| - 1]) else s
  }

  function TrimStart(s: string): string {
    if s != "" && IsSpace(s[0]) then TrimStart(s[1..]) else s
  }

  function Trim(s: string): string {
    TrimStart(TrimEnd(s))
  }

  predicate IsBlank(s: string) {
    Trim(s) == ""
  }

  predicate StartsWith(s: string, prefix: string) {
    prefix <= s
  }

  predicate EndsWith(s: string, c: char) {
    s != "" && s[|s| - 1] == c
  }

  /** A line without the carriage return before its line feed. */
  function Chomp(line: string): string {
    if EndsWith(line, '\r') then line[..|line| - 1] else line
  }

  function Chomped(lines: seq<string>): seq<string> {
    if lines == [] then [] else [Chomp(lines[0])] + Chomped(lines[1..])
  }

  /** The index of the first line feed, or the length if there is none. */
  function Break(s: string): (k: nat)
    ensures k <= |s| && (k < |s| ==> s[k] == '\n') && '\n' !in s[..k]
  {
    if s == "" || s[0] == '\n' then 0
    else
      var k := Break(s[1..]) + 1;
      assert s[..k] == [s[0]] + s[1..][..k - 1];
      k
  }

  /** The lines of a text; a carriage return goes with the line feed it precedes. */
  function Lines(s: string): seq<string>
    decreases |s|
  {
    if s == "" then []
    else if Break(s) == |s| then [s]
    else [Chomp(s[..Break(s)])] + Lines(s[Break(s) + 1..])
  }

  function Joined(lines: seq<string>): string {
    if lines == [] then "" else if |lines| == 1 then lines[0] else lines[0] + "\n" + Joined(lines[1..])
  }

  /** The text an edit writes back. */
  function Unlines(lines: seq<string>): string {
    Joined(lines) + "\n"
  }

  predicate NoBreaks(lines: seq<string>) {
    forall l | l in lines :: '\n' !in l
  }

  predicate NoReturns(lines: seq<string>) {
    forall l | l in lines :: !EndsWith(l, '\r')
  }

  lemma {:induction false} TrimShape(s: string)
    ensures |TrimEnd(s)| <= |s| && TrimEnd(s) == s[..|TrimEnd(s)|]
    ensures TrimEnd(s) != "" ==> !IsSpace(TrimEnd(s)[|TrimEnd(s)| - 1])
  {
    if s != "" && IsSpace(s[|s| - 1]) {
      TrimShape(s[..|s| - 1]);
    }
  }

  /** A text that begins and ends with other characters stays as it is. */
  lemma TrimNothing(s: string)
    requires s != "" && !IsSpace(s[0]) && !IsSpace(s[|s| - 1])
    ensures Trim(s) == s
  {
  }

  predicate AllSpace(s: string) {
    forall c | c in s :: IsSpace(c)
  }

  lemma {:induction false} TrimEndPad(s: string, pad: string)
    requires AllSpace(pad) && (s == "" || !IsSpace(s[|s| - 1]))
    ensures TrimEnd(s + pad) == s
    decreases |pad|
  {
    if pad == "" {
      assert s + pad == s;
    } else {
      var all := s + pad;
      assert pad[|pad| - 1] in pad && all[|all| - 1] == pad[|pad| - 1];
      assert all[..|all| - 1] == s + pad[..|pad| - 1];
      assert forall c :: c in pad[..|pad| - 1] ==> c in pad;
      TrimEndPad(s, pad[..|pad| - 1]);
    }
  }

  lemma {:induction false} TrimStartPad(pad: string, s: string)
    requires AllSpace(pad) && (s == "" || !IsSpace(s[0]))
    ensures TrimStart(pad + s) == s
    decreases |pad|
  {
    if pad == "" {
      assert pad + s == s;
    } else {
      assert pad[0] in pad && (pad + s)[0] == pad[0] && (pad + s)[1..] == pad[1..] + s;
      assert forall c :: c in pad[1..] ==> c in pad;
      TrimStartPad(pad[1..], s);
    }
  }

  /** Trimming takes the white space off both ends, and nothing else. */
  lemma TrimPadded(left: string, s: string, right: string)
    requires AllSpace(left) && AllSpace(right)
    requires s != "" && !IsSpace(s[0]) && !IsSpace(s[|s| - 1])
    ensures Trim(left + s + right) == s
  {
    hide TrimEnd, TrimStart;
    var most := left + s;
    assert most[|most| - 1] == s[|s| - 1];
    TrimEndPad(most, right);
    TrimStartPad(left, s);
  }

  /** A word that trimming leaves as it is. */
  predicate IsTrimmed(s: string) {
    s != "" && !IsSpace(s[0]) && !IsSpace(s[|s| - 1])
  }

  lemma {:induction false} TrimsBehind(front: string, rest: string)
    requires front != "" && !IsSpace(front[|front| - 1])
    ensures TrimEnd(front + rest) == front + TrimEnd(rest)
    decreases |rest|
  {
    if rest != "" && IsSpace(rest[|rest| - 1]) {
      var all := front + rest;
      assert all[|all| - 1] == rest[|rest| - 1] && all[..|all| - 1] == front + rest[..|rest| - 1];
      TrimsBehind(front, rest[..|rest| - 1]);
    }
  }

  /** Trimming a word with white space before it and anything behind. */
  lemma TrimsAround(indent: string, word: string, rest: string)
    requires AllSpace(indent) && IsTrimmed(word)
    ensures Trim(indent + word + rest) == word + TrimEnd(rest)
  {
    hide TrimStart, TrimEnd, AllSpace;
    assert (indent + word)[|indent + word| - 1] == word[|word| - 1];
    TrimsBehind(indent + word, rest);
    assert (indent + word) + TrimEnd(rest) == indent + (word + TrimEnd(rest));
    assert (word + TrimEnd(rest))[0] == word[0];
    TrimStartPad(indent, word + TrimEnd(rest));
  }

  lemma TrimChomp(line: string)
    ensures Trim(Chomp(line)) == Trim(line)
  {
  }

  lemma {:induction false} BreakAt(front: string, rest: string)
    requires '\n' !in front
    ensures Break(front + "\n" + rest) == |front|
  {
    if front == "" {
      assert (front + "\n" + rest)[0] == '\n';
    } else {
      assert front[0] in front && front == [front[0]] + front[1..];
      assert (front + "\n" + rest)[1..] == front[1..] + "\n" + rest;
      BreakAt(front[1..], rest);
    }
  }

  lemma {:induction false} NoBreak(s: string)
    requires '\n' !in s
    ensures Break(s) == |s|
  {
    if s != "" {
      assert s[0] in s && forall c :: c in s[1..] ==> c in s;
      NoBreak(s[1..]);
    }
  }

  /** A text is empty, a single unended line, or a line and the text behind it. */
  lemma LinesCons(front: string, rest: string)
    requires '\n' !in front
    ensures Lines(front + "\n" + rest) == [Chomp(front)] + Lines(rest)
  {
    BreakAt(front, rest);
    var s := front + "\n" + rest;
    assert s[..|front|] == front && s[|front| + 1..] == rest;
  }

  lemma LinesSingle(s: string)
    requires '\n' !in s && s != ""
    ensures Lines(s) == [s]
  {
    NoBreak(s);
  }

  lemma SplitAt(s: string, k: nat)
    requires k < |s| && s[k] == '\n'
    ensures s == s[..k] + "\n" + s[k + 1..] && '\n' in s
  {
  }

  lemma FirstLine(s: string)
    ensures '\n' !in s <==> Break(s) == |s|
    ensures Break(s) < |s| ==> s == s[..Break(s)] + "\n" + s[Break(s) + 1..] && '\n' !in s[..Break(s)]
  {
    hide Break;
    if Break(s) < |s| {
      SplitAt(s, Break(s));
    } else {
      assert s[..|s|] == s;
    }
  }

  lemma {:induction false} LinesHaveNoBreaks(s: string)
    ensures NoBreaks(Lines(s))
    decreases |s|
  {
    if s != "" && Break(s) < |s| {
      LinesHaveNoBreaks(s[Break(s) + 1..]);
      assert forall c :: c in Chomp(s[..Break(s)]) ==> c in s[..Break(s)];
    } else if s != "" {
      assert s[..|s|] == s;
    }
  }

  /** What is written for each line, its line feed included. */
  function Terminated(lines: seq<string>): string {
    if lines == [] then "" else lines[0] + "\n" + Terminated(lines[1..])
  }

  lemma {:induction false} UnlinesTerminates(lines: seq<string>)
    requires lines != []
    ensures Unlines(lines) == Terminated(lines)
  {
    if |lines| > 1 {
      UnlinesTerminates(lines[1..]);
      assert lines[0] + "\n" + Joined(lines[1..]) + "\n" == lines[0] + "\n" + (Joined(lines[1..]) + "\n");
    } else {
      assert lines[1..] == [];
      assert lines[0] + "\n" + "" == lines[0] + "\n";
    }
  }

  lemma {:induction false} LinesOfTerminated(lines: seq<string>)
    requires NoBreaks(lines)
    ensures Lines(Terminated(lines)) == Chomped(lines)
  {
    if lines != [] {
      var front, rest := lines[0], Terminated(lines[1..]);
      assert front in lines && forall l :: l in lines[1..] ==> l in lines;
      LinesCons(front, rest);
      LinesOfTerminated(lines[1..]);
    }
  }

  /** Reading back what was written takes one carriage return off every line. */
  lemma ReadBack(lines: seq<string>)
    requires NoBreaks(lines) && lines != []
    ensures Lines(Unlines(lines)) == Chomped(lines)
  {
    UnlinesTerminates(lines);
    LinesOfTerminated(lines);
  }

  lemma {:induction false} ChompedAt(lines: seq<string>)
    ensures |Chomped(lines)| == |lines| && forall i :: 0 <= i < |lines| ==> Chomped(lines)[i] == Chomp(lines[i])
  {
    if lines != [] {
      ChompedAt(lines[1..]);
    }
  }

  lemma ChompedSame(lines: seq<string>)
    ensures Chomped(lines) == lines <==> NoReturns(lines)
  {
    ChompedAt(lines);
    if NoReturns(lines) {
      assert forall i :: 0 <= i < |lines| ==> lines[i] in lines;
    }
    if Chomped(lines) == lines {
      forall l | l in lines ensures !EndsWith(l, '\r') {
        var i :| 0 <= i < |lines| && lines[i] == l;
        assert Chomp(l) == l;
      }
    }
  }

  lemma {:induction false} TerminatedInjective(a: seq<string>, b: seq<string>)
    requires NoBreaks(a) && NoBreaks(b) && Terminated(a) == Terminated(b)
    ensures a == b
  {
    if a != [] && b != [] {
      var s := Terminated(a);
      assert a[0] in a && b[0] in b;
      BreakAt(a[0], Terminated(a[1..]));
      BreakAt(b[0], Terminated(b[1..]));
      assert a[0] == s[..|a[0]|] == s[..|b[0]|] == b[0];
      assert Terminated(a[1..]) == s[|a[0]| + 1..] == Terminated(b[1..]);
      assert forall l :: l in a[1..] ==> l in a;
      assert forall l :: l in b[1..] ==> l in b;
      TerminatedInjective(a[1..], b[1..]);
      assert a == [a[0]] + a[1..] && b == [b[0]] + b[1..];
    }
  }

  lemma Regroup(front: string, rest: string, t: string)
    ensures (front + "\n" + rest) + t == front + "\n" + (rest + t)
  {
  }

  /** A text that ends its last line is read line by line before what follows. */
  lemma {:induction false} LinesSplit(s: string, t: string)
    requires s == "" || EndsWith(s, '\n')
    ensures Lines(s + t) == Lines(s) + Lines(t)
    decreases |s|
  {
    hide Lines;
    if s == "" {
      assert s + t == t;
      LinesOfNone();
    } else {
      FirstLine(s);
      var front, rest := s[..Break(s)], s[Break(s) + 1..];
      Regroup(front, rest, t);
      LinesCons(front, rest);
      LinesCons(front, rest + t);
      LinesSplit(rest, t);
    }
  }

  lemma LinesOfNone()
    ensures Lines("") == []
  {
  }

  /** Ending the last line changes at most the carriage return at its end. */
  lemma {:induction false} LinesEnded(s: string)
    requires s != "" && !EndsWith(s, '\n')
    ensures Lines(s) != []
    ensures Lines(s + "\n") == Lines(s)[..|Lines(s)| - 1] + [Chomp(Lines(s)[|Lines(s)| - 1])]
    decreases |s|
  {
    hide Lines;
    FirstLine(s);
    LinesOfNone();
    if Break(s) == |s| {
      LinesSingle(s);
      LinesCons(s, "");
      assert s + "\n" + "" == s + "\n";
    } else {
      var front, rest := s[..Break(s)], s[Break(s) + 1..];
      Regroup(front, rest, "\n");
      LinesCons(front, rest);
      LinesCons(front, rest + "\n");
      LinesEnded(rest);
    }
  }
}
