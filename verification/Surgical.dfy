/** In-place edits of one key in one section of a hand-written configuration file. */
module Surgical {
  import opened Text

  predicate IsHeader(trimmed: string) {
    StartsWith(trimmed, "[") && EndsWith(trimmed, ']')
  }

  function Header(section: string): string {
    "[" + section + "]"
  }

  function Assignment(key: string, value: string): string {
    key + " = " + value
  }

  predicate IsAssignmentFor(trimmed: string, key: string) {
    StartsWith(trimmed, key + " ") || StartsWith(trimmed, key + "=")
  }

  /** The section to edit, its key, and the line to put there. */
  datatype Edit = Edit(header: string, key: string, assignment: string)

  predicate Opens(e: Edit, line: string) {
    Trim(line) == e.header
  }

  predicate IsHeaderLine(line: string) {
    IsHeader(Trim(line))
  }

  predicate Assigns(e: Edit, line: string) {
    !IsHeaderLine(line) && IsAssignmentFor(Trim(line), e.key)
  }

  // ----- what an edit does to the lines

  /** Where a pass over the lines stands: in the section or not, has the section been seen,
      has the assignment been put. */
  datatype Place = Place(inside: bool, found: bool, inserted: bool)

  const START := Place(false, false, false)

  /** What one line becomes, and where the pass stands after it. */
  function Pass(e: Edit, line: string, p: Place): (seq<string>, Place) {
    if IsHeaderLine(line) then
      (if p.inside && !p.inserted then [e.assignment, line] else [line],
       Place(Opens(e, line), p.found || Opens(e, line), p.inserted || p.inside))
    else if p.inside && Assigns(e, line) then ([e.assignment], p.(inserted := true))
    else ([line], p)
  }

  function Scan(e: Edit, lines: seq<string>, p: Place): (seq<string>, Place) {
    if lines == [] then ([], p)
    else
      var (first, q) := Pass(e, lines[0], p);
      var (rest, r) := Scan(e, lines[1..], q);
      (first + rest, r)
  }

  /** What is added behind the last line. */
  function Tail(e: Edit, lines: seq<string>, p: Place): seq<string> {
    if !p.found then
      (if lines != [] && !IsBlank(lines[|lines| - 1]) then [""] else []) + [e.header, e.assignment]
    else if !p.inserted then [e.assignment]
    else []
  }

  function Upserted(e: Edit, lines: seq<string>): seq<string> {
    var (result, p) := Scan(e, lines, START);
    result + Tail(e, result, p)
  }

  /** The lines without the assignments to the key in the section. */
  function Removed(e: Edit, lines: seq<string>, inside: bool): seq<string> {
    if lines == [] then []
    else if IsHeaderLine(lines[0]) then [lines[0]] + Removed(e, lines[1..], Opens(e, lines[0]))
    else if inside && Assigns(e, lines[0]) then Removed(e, lines[1..], inside)
    else [lines[0]] + Removed(e, lines[1..], inside)
  }

  /** The assignments to the key in the section. */
  function Assigned(e: Edit, lines: seq<string>, inside: bool): seq<string> {
    if lines == [] then []
    else if IsHeaderLine(lines[0]) then Assigned(e, lines[1..], Opens(e, lines[0]))
    else if inside && Assigns(e, lines[0]) then [lines[0]] + Assigned(e, lines[1..], inside)
    else Assigned(e, lines[1..], inside)
  }

  /** Is the pass inside the section behind these lines? */
  function Ends(e: Edit, lines: seq<string>, inside: bool): bool {
    if lines == [] then inside
    else Ends(e, lines[1..], if IsHeaderLine(lines[0]) then Opens(e, lines[0]) else inside)
  }

  predicate HasSection(e: Edit, lines: seq<string>) {
    exists l | l in lines :: Opens(e, l)
  }

  /** The header is a header line, and the assignment is an assignment and not a header. */
  predicate Sane(e: Edit) {
    Trim(e.header) == e.header && IsHeader(e.header) && Assigns(e, e.assignment)
  }

  // ----- what the lines are

  /** A header line is some name in brackets, in white space. */
  lemma HeaderLinesAre(line: string)
    ensures IsHeaderLine(line) <==> exists name :: Trim(line) == "[" + name + "]"
  {
    var t := Trim(line);
    if IsHeaderLine(line) {
      assert t == "[" + t[1..|t| - 1] + "]";
    }
  }

  /** A key without quotes, white space or "=". */
  predicate IsBare(key: string) {
    key != "" && forall c | c in key :: !IsSpace(c) && c != '='
  }

  /** Of bare keys, a line assigns to the one before its "=", and only if nothing but a blank or nothing at all comes
      right behind it: a tab is not seen. */
  lemma AssignmentsAreSeen(indent: string, key: string, gap: string, rest: string, other: string)
    requires AllSpace(indent) && IsBare(key) && AllSpace(gap) && IsBare(other)
    ensures IsAssignmentFor(Trim(indent + (key + gap + "=") + rest), other) <==>
            key == other && (gap == "" || gap[0] == ' ')
  {
    hide Trim, AllSpace;
    var word := key + gap + "=";
    assert word[0] == key[0] && key[0] in key && word[|word| - 1] == '=';
    TrimsAround(indent, word, rest);
    var t := word + TrimEnd(rest);
    assert t == key + (gap + "=" + TrimEnd(rest));
    SpaceIsNone(gap);
    FollowsKey(key, gap + "=" + TrimEnd(rest), other);
  }

  lemma SpaceIsNone(gap: string)
    requires AllSpace(gap)
    ensures gap != "" ==> IsSpace(gap[0]) && gap[0] != '='
  {
    if gap != "" {
      assert gap[0] in gap;
    }
  }

  lemma FollowsKey(key: string, tail: string, other: string)
    requires IsBare(key) && IsBare(other) && tail != ""
    requires IsSpace(tail[0]) || tail[0] == '='
    ensures IsAssignmentFor(key + tail, other) <==> key == other && (tail[0] == ' ' || tail[0] == '=')
  {
    var t := key + tail;
    assert t[|key|] == tail[0] && t[..|key|] == key;
    forall k | 0 <= k < |key| ensures t[k] != ' ' && t[k] != '=' {
      assert key[k] in key;
    }
    forall k | 0 <= k < |other| ensures !IsSpace(other[k]) && other[k] != '=' {
      assert other[k] in other;
    }
    forall c | c in {' ', '='} && other + [c] <= t ensures |other| == |key| && other == key && tail[0] == c {
      assert (other + [c])[|other|] == t[|other|];
      assert forall k :: 0 <= k < |other| ==> (other + [c])[k] == t[k] == other[k];
    }
    assert other + " " == other + [' '] && other + "=" == other + ['='];
    if key == other {
      assert t[..|key| + 1] == key + [tail[0]];
    }
  }

  // ----- the laws on lines

  lemma {:induction false} RemovedJoins(e: Edit, a: seq<string>, b: seq<string>, inside: bool)
    ensures Removed(e, a + b, inside) == Removed(e, a, inside) + Removed(e, b, Ends(e, a, inside))
  {
    hide IsHeader, IsAssignmentFor, Trim, Opens;
    if a == [] {
      assert a + b == b;
    } else {
      assert (a + b)[1..] == a[1..] + b;
      RemovedJoins(e, a[1..], b, if IsHeaderLine(a[0]) then Opens(e, a[0]) else inside);
    }
  }

  lemma {:induction false} AssignedJoins(e: Edit, a: seq<string>, b: seq<string>, inside: bool)
    ensures Assigned(e, a + b, inside) == Assigned(e, a, inside) + Assigned(e, b, Ends(e, a, inside))
  {
    hide IsHeader, IsAssignmentFor, Trim, Opens;
    if a == [] {
      assert a + b == b;
    } else {
      assert (a + b)[1..] == a[1..] + b;
      AssignedJoins(e, a[1..], b, if IsHeaderLine(a[0]) then Opens(e, a[0]) else inside);
    }
  }

  lemma {:induction false} EndsJoins(e: Edit, a: seq<string>, b: seq<string>, inside: bool)
    ensures Ends(e, a + b, inside) == Ends(e, b, Ends(e, a, inside))
  {
    hide IsHeader, IsAssignmentFor, Trim, Opens;
    if a == [] {
      assert a + b == b;
    } else {
      assert (a + b)[1..] == a[1..] + b;
      EndsJoins(e, a[1..], b, if IsHeaderLine(a[0]) then Opens(e, a[0]) else inside);
    }
  }

  lemma RemovedSplit(e: Edit, a: seq<string>, b: seq<string>, inside: bool)
    ensures Removed(e, a + b, inside) == Removed(e, a, inside) + Removed(e, b, Ends(e, a, inside))
    ensures Assigned(e, a + b, inside) == Assigned(e, a, inside) + Assigned(e, b, Ends(e, a, inside))
    ensures Ends(e, a + b, inside) == Ends(e, b, Ends(e, a, inside))
  {
    RemovedJoins(e, a, b, inside);
    AssignedJoins(e, a, b, inside);
    EndsJoins(e, a, b, inside);
  }

  lemma {:induction false} ScanSplit(e: Edit, a: seq<string>, b: seq<string>, p: Place)
    ensures var (x, q) := Scan(e, a, p);
            var (y, r) := Scan(e, b, q);
            Scan(e, a + b, p) == (x + y, r)
  {
    hide Pass;
    if a == [] {
      assert a + b == b && [] + Scan(e, b, p).0 == Scan(e, b, p).0;
    } else {
      assert (a + b)[1..] == a[1..] + b;
      var (first, m) := Pass(e, a[0], p);
      ScanSplit(e, a[1..], b, m);
      var (x, q) := Scan(e, a[1..], m);
      assert first + (x + Scan(e, b, q).0) == (first + x) + Scan(e, b, q).0;
    }
  }

  /** The pass is in the section only after finding it, and leaves it only after putting the assignment. */
  predicate Coherent(p: Place) {
    (p.inside || p.inserted ==> p.found) && (p.found && !p.inserted ==> p.inside)
  }

  lemma OneLine(e: Edit, line: string, inside: bool)
    ensures var taken := inside && Assigns(e, line);
            && Removed(e, [line], inside) == (if taken then [] else [line])
            && Assigned(e, [line], inside) == (if taken then [line] else [])
            && Ends(e, [line], inside) == if IsHeaderLine(line) then Opens(e, line) else inside
  {
  }

  /** The last line in brackets before line `i` is the header. */
  ghost predicate InSection(e: Edit, lines: seq<string>, i: nat)
    requires i <= |lines|
  {
    exists h :: 0 <= h < i && Trim(lines[h]) == e.header &&
                forall j, name :: h < j < i ==> Trim(lines[j]) != "[" + name + "]"
  }

  /** The passes are in the section exactly behind its header and before the next one. */
  lemma {:induction false} EndsIsInSection(e: Edit, lines: seq<string>)
    requires IsHeader(e.header)
    ensures Ends(e, lines, false) <==> InSection(e, lines, |lines|)
    decreases |lines|
  {
    hide Trim, IsHeader;
    if lines != [] {
      var front, last := lines[..|lines| - 1], lines[|lines| - 1];
      assert lines == front + [last];
      EndsIsInSection(e, front);
      EndsJoins(e, front, [last], false);
      OneLine(e, last, Ends(e, front, false));
      HeaderLinesAre(last);
      InSectionOne(e, front, last);
    }
  }

  lemma InSectionOne(e: Edit, front: seq<string>, last: string)
    requires IsHeader(e.header)
    ensures InSection(e, front + [last], |front| + 1) <==>
            Trim(last) == e.header
            || ((forall name :: Trim(last) != "[" + name + "]") && InSection(e, front, |front|))
  {
    hide Trim;
    var all, n := front + [last], |front|;
    assert all[n] == last && forall j :: 0 <= j < n ==> all[j] == front[j];
    if Trim(last) == e.header {
      assert Trim(all[n]) == e.header;
    } else {
      if InSection(e, all, n + 1) {
        var h :| 0 <= h < n + 1 && Trim(all[h]) == e.header
          && forall j, name :: h < j < n + 1 ==> Trim(all[j]) != "[" + name + "]";
        assert h < n && Trim(front[h]) == e.header;
        forall name ensures Trim(last) != "[" + name + "]" {
          assert Trim(all[n]) != "[" + name + "]";
        }
        forall j, name | h < j < n ensures Trim(front[j]) != "[" + name + "]" {
          assert Trim(all[j]) != "[" + name + "]";
        }
      }
      if (forall name :: Trim(last) != "[" + name + "]") && InSection(e, front, n) {
        var h :| 0 <= h < n && Trim(front[h]) == e.header
          && forall j, name :: h < j < n ==> Trim(front[j]) != "[" + name + "]";
        assert Trim(all[h]) == e.header;
      }
    }
  }

  /** The lines of the first `n` that stay: all but the assignments to the key in the section. */
  ghost function Kept(e: Edit, lines: seq<string>, n: nat): seq<string>
    requires n <= |lines|
  {
    if n == 0 then []
    else
      Kept(e, lines, n - 1) +
      if InSection(e, lines, n - 1) && !IsHeaderLine(lines[n - 1]) && IsAssignmentFor(Trim(lines[n - 1]), e.key) then []
      else [lines[n - 1]]
  }

  /** A removal keeps just these, in order. */
  lemma {:induction false} RemovedIsKept(e: Edit, lines: seq<string>, n: nat)
    requires IsHeader(e.header) && n <= |lines|
    ensures Removed(e, lines[..n], false) == Kept(e, lines, n)
    decreases n
  {
    hide Trim, IsHeader, IsAssignmentFor, IsHeaderLine, Opens;
    if n > 0 {
      var front, last := lines[..n - 1], lines[n - 1];
      assert lines[..n] == front + [last];
      RemovedIsKept(e, lines, n - 1);
      RemovedJoins(e, front, [last], false);
      EndsIsInSection(e, front);
      SectionOfFront(e, lines, n - 1);
      OneLine(e, last, Ends(e, front, false));
    }
  }

  lemma SectionOfFront(e: Edit, lines: seq<string>, n: nat)
    requires n <= |lines|
    ensures InSection(e, lines[..n], n) <==> InSection(e, lines, n)
  {
    hide Trim;
    forall h | 0 <= h < n ensures lines[..n][h] == lines[h] {
    }
    if InSection(e, lines, n) {
      var h :| 0 <= h < n && Trim(lines[h]) == e.header
        && forall j, name :: h < j < n ==> Trim(lines[j]) != "[" + name + "]";
      assert Trim(lines[..n][h]) == e.header;
    }
    if InSection(e, lines[..n], n) {
      var h :| 0 <= h < n && Trim(lines[..n][h]) == e.header
        && forall j, name :: h < j < n ==> Trim(lines[..n][j]) != "[" + name + "]";
      assert Trim(lines[h]) == e.header;
      forall j, name | h < j < n ensures Trim(lines[j]) != "[" + name + "]" {
        assert Trim(lines[..n][j]) != "[" + name + "]";
      }
    }
  }

  lemma ScanOne(e: Edit, line: string, p: Place)
    ensures Scan(e, [line], p) == Pass(e, line, p)
  {
    var (first, q) := Pass(e, line, p);
    assert [line][1..] == [] && first + [] == first;
  }

  lemma TabIsSpace()
    ensures AllSpace("") && AllSpace("\t") && IsBare("k")
  {
  }

  /** A key with a tab behind it is assigned a second time. */
  lemma TabsAreNotSeen()
    ensures Upserted(Edit("[a]", "k", "k = 2"), ["[a]", "k\t= 1"]) == ["[a]", "k\t= 1", "k = 2"]
  {
    var e, first, second, inside := Edit("[a]", "k", "k = 2"), "[a]", "k\t= 1", Place(true, true, false);
    TrimNothing(first);
    TrimNothing(second);
    hide Trim, IsAssignmentFor, AllSpace;
    TabIsSpace();
    AssignmentsAreSeen("", "k", "\t", " 1", "k");
    assert "" + ("k" + "\t" + "=") + " 1" == second;
    assert Pass(e, first, START) == ([first], inside) && Pass(e, second, inside) == ([second], inside);
    ScanOne(e, first, START);
    ScanOne(e, second, inside);
    ScanSplit(e, [first], [second], START);
    assert [first] + [second] == [first, second];
  }

  /** One line: the pass keeps what is not an assignment, puts nothing but the assignment, knows
      whether it has, and finds its own output as it left it. */
  lemma PassLaws(e: Edit, line: string, p: Place)
    requires Sane(e) && Coherent(p)
    ensures var (out, q) := Pass(e, line, p);
            && Coherent(q)
            && Removed(e, out, p.inside) == Removed(e, [line], p.inside)
            && (forall l :: l in Assigned(e, out, p.inside) ==> l == e.assignment)
            && (q.inserted <==> p.inserted || Assigned(e, out, p.inside) != [])
            && Ends(e, out, p.inside) == q.inside == Ends(e, [line], p.inside)
            && Scan(e, out, p) == (out, q)
            && (q.found <==> p.found || Opens(e, line))
  {
    hide Removed, Assigned, Ends, Scan;
    OneLine(e, line, p.inside);
    OneLine(e, e.assignment, p.inside);
    ScanOne(e, line, p);
    ScanOne(e, e.assignment, p);
    if p.inside && !p.inserted && IsHeaderLine(line) {
      var put, l := [e.assignment], [line];
      assert put + l == [e.assignment, line];
      RemovedSplit(e, put, l, true);
      ScanSplit(e, put, l, p);
      ScanOne(e, line, p.(inserted := true));
    }
  }

  lemma SectionAhead(e: Edit, line: string, others: seq<string>)
    ensures HasSection(e, [line] + others) <==> Opens(e, line) || HasSection(e, others)
  {
    assert forall l :: l in [line] + others <==> l == line || l in others;
  }

  lemma NothingScanned(e: Edit, p: Place)
    ensures Scan(e, [], p) == ([], p) && !HasSection(e, [])
    ensures Removed(e, [], p.inside) == [] == Assigned(e, [], p.inside) && Ends(e, [], p.inside) == p.inside
  {
  }

  lemma ScanStep(e: Edit, line: string, others: seq<string>, p: Place)
    ensures var (first, m) := Pass(e, line, p);
            Scan(e, [line] + others, p) == (first + Scan(e, others, m).0, Scan(e, others, m).1)
  {
    assert ([line] + others)[1..] == others;
  }

  /** The laws of a line, for all the lines. */
  lemma {:induction false} ScanLaws(e: Edit, lines: seq<string>, p: Place)
    requires Sane(e) && Coherent(p)
    ensures var (out, q) := Scan(e, lines, p);
            && Coherent(q)
            && Removed(e, out, p.inside) == Removed(e, lines, p.inside)
            && (forall l :: l in Assigned(e, out, p.inside) ==> l == e.assignment)
            && (q.inserted <==> p.inserted || Assigned(e, out, p.inside) != [])
            && Ends(e, out, p.inside) == q.inside
            && Scan(e, out, p) == (out, q)
            && (q.found <==> p.found || HasSection(e, lines))
  {
    hide Pass, Scan, Removed, Assigned, Ends, Coherent, Sane, HasSection, Opens;
    if lines == [] {
      NothingScanned(e, p);
    } else {
      var line, others := lines[0], lines[1..];
      var (first, m) := Pass(e, line, p);
      var (rest, q) := Scan(e, others, m);
      PassLaws(e, line, p);
      ScanLaws(e, others, m);
      RemovedSplit(e, first, rest, p.inside);
      RemovedSplit(e, [line], others, p.inside);
      ScanSplit(e, first, rest, p);
      ScanStep(e, line, others, p);
      SectionAhead(e, line, others);
      assert lines == [line] + others;
    }
  }

  // ----- the laws of a whole edit, on lines

  lemma TailLaws(e: Edit, lines: seq<string>, p: Place)
    requires Sane(e) && Coherent(p)
    ensures var tail := Tail(e, lines, p);
            && Removed(e, tail, p.inside) == tail[..|tail| - (if p.inserted then 0 else 1)]
            && Assigned(e, tail, p.inside) == (if p.inserted then [] else [e.assignment])
            && Scan(e, tail, p).0 == tail && Scan(e, tail, p).1.found && Scan(e, tail, p).1.inserted
  {
    hide Removed, Assigned, Ends, Scan, IsAssignmentFor;
    if !p.found {
      assert Trim("") == "";
      var put := [e.header, e.assignment];
      HeaderAndAssignment(e, p);
      if lines != [] && !IsBlank(lines[|lines| - 1]) {
        var all := [""] + put;
        OneLine(e, "", false);
        ScanOne(e, "", p);
        RemovedSplit(e, [""], put, false);
        ScanSplit(e, [""], put, p);
        assert all[..2] == [""] + [e.header];
      } else {
        assert [] + put == put && put[..1] == [e.header];
      }
    } else {
      OneLine(e, e.assignment, p.inside);
      ScanOne(e, e.assignment, p);
      NoLine(e, p);
    }
  }

  lemma NoLine(e: Edit, p: Place)
    ensures Removed(e, [], p.inside) == [] == Assigned(e, [], p.inside) && Scan(e, [], p) == ([], p)
  {
  }

  lemma HeaderAndAssignment(e: Edit, p: Place)
    requires Sane(e) && !p.inside && !p.inserted
    ensures var put := [e.header, e.assignment];
            && Removed(e, put, false) == [e.header] && Assigned(e, put, false) == [e.assignment]
            && Scan(e, put, p) == (put, Place(true, true, true))
  {
    hide Removed, Assigned, Ends, Scan, IsAssignmentFor;
    var a, b := [e.header], [e.assignment];
    assert a + b == [e.header, e.assignment];
    OneLine(e, e.header, false);
    OneLine(e, e.assignment, true);
    RemovedSplit(e, a, b, false);
    ScanOne(e, e.header, p);
    ScanOne(e, e.assignment, Place(true, true, false));
    ScanSplit(e, a, b, p);
  }

  /** What an edit adds besides assignments: nothing, if the section is there. */
  function Added(e: Edit, lines: seq<string>): seq<string> {
    if HasSection(e, lines) then []
    else (if lines != [] && !IsBlank(lines[|lines| - 1]) then [""] else []) + [e.header]
  }

  lemma {:induction false} NothingBelow(e: Edit, lines: seq<string>, p: Place)
    requires Sane(e) && !HasSection(e, lines) && !p.inside
    ensures Scan(e, lines, p) == (lines, p)
  {
    if lines != [] {
      assert lines[0] in lines && lines == [lines[0]] + lines[1..];
      assert forall l :: l in lines[1..] ==> l in lines;
      NothingBelow(e, lines[1..], p);
    }
  }

  /** The laws of an edit: all other lines stay, in order; the key is assigned to the value
      everywhere in the section, and at least once; and a second edit changes nothing. */
  lemma UpsertLaws(e: Edit, lines: seq<string>)
    requires Sane(e)
    ensures Removed(e, Upserted(e, lines), false) == Removed(e, lines, false) + Added(e, lines)
    ensures Assigned(e, Upserted(e, lines), false) != []
    ensures forall l :: l in Assigned(e, Upserted(e, lines), false) ==> l == e.assignment
    ensures Upserted(e, Upserted(e, lines)) == Upserted(e, lines)
  {
    hide Removed, Assigned, Ends, Scan, IsAssignmentFor;
    ScanLaws(e, lines, START);
    var (out, p) := Scan(e, lines, START);
    var tail := Tail(e, out, p);
    TailLaws(e, out, p);
    RemovedSplit(e, out, tail, false);
    ScanSplit(e, out, tail, START);
    if !HasSection(e, lines) {
      NothingBelow(e, lines, START);
    }
    assert out + tail + [] == out + tail;
    assert Removed(e, lines, false) + [] == Removed(e, lines, false);
  }

  lemma {:induction false} NothingToRemove(e: Edit, lines: seq<string>, inside: bool)
    ensures Removed(e, lines, inside) == lines <==> Assigned(e, lines, inside) == []
    ensures |Removed(e, lines, inside)| <= |lines|
  {
    if lines != [] {
      NothingToRemove(e, lines[1..], if IsHeaderLine(lines[0]) then Opens(e, lines[0]) else inside);
      assert lines == [lines[0]] + lines[1..];
    }
  }

  /** What a line becomes where the key is replaced in place. */
  function Replaced(e: Edit, line: string, inside: bool): string {
    if inside && Assigns(e, line) then e.assignment else line
  }

  function ReplacedAll(e: Edit, lines: seq<string>, inside: bool): seq<string> {
    if lines == [] then []
    else [Replaced(e, lines[0], inside)] +
         ReplacedAll(e, lines[1..], if IsHeaderLine(lines[0]) then Opens(e, lines[0]) else inside)
  }

  /** Once the assignment is put, lines are replaced in place and nothing is added. */
  lemma {:induction false} ScanReplaces(e: Edit, lines: seq<string>, p: Place)
    requires p.inserted
    ensures Scan(e, lines, p).0 == ReplacedAll(e, lines, p.inside) && Scan(e, lines, p).1.inserted
  {
    if lines != [] {
      ScanReplaces(e, lines[1..], Pass(e, lines[0], p).1);
    }
  }

  /** The assignment is added before position `k`, behind a part of the lines that holds none and
      ends inside the section, and before a header. */
  ghost predicate AddsAt(e: Edit, lines: seq<string>, out: seq<string>, inside: bool, k: nat) {
    var all := ReplacedAll(e, lines, inside);
    && k < |lines| == |all| && out == all[..k] + [e.assignment] + all[k..]
    && IsHeaderLine(lines[k]) && Ends(e, lines[..k], inside) && Assigned(e, lines[..k], inside) == []
  }

  lemma Shifted<T>(x: T, s: seq<T>, j: nat)
    requires j <= |s|
    ensures ([x] + s)[1..] == s && ([x] + s)[..j + 1] == [x] + s[..j] && ([x] + s)[j + 1..] == s[j..]
  {
  }

  /** What one more line in front makes of the three readings of the lines. */
  lemma InFront(e: Edit, line: string, others: seq<string>, inside: bool)
    ensures var q, lines := if IsHeaderLine(line) then Opens(e, line) else inside, [line] + others;
            && ReplacedAll(e, lines, inside) == [Replaced(e, line, inside)] + ReplacedAll(e, others, q)
            && Ends(e, lines, inside) == Ends(e, others, q)
            && (!(inside && Assigns(e, line)) ==> Assigned(e, lines, inside) == Assigned(e, others, q))
  {
    hide IsHeader, IsAssignmentFor, Trim, Opens;
    Shifted(line, others, 0);
  }

  lemma AddsNow(e: Edit, line: string, others: seq<string>)
    requires IsHeaderLine(line)
    ensures AddsAt(e, [line] + others, [e.assignment, line] + ReplacedAll(e, others, Opens(e, line)), true, 0)
  {
    hide ReplacedAll, Opens;
    var lines, rest := [line] + others, ReplacedAll(e, others, Opens(e, line));
    ReplacedLength(e, others, Opens(e, line));
    InFront(e, line, others, true);
    assert lines[..0] == [];
    var all := [line] + rest;
    assert all[..0] + [e.assignment] + all[0..] == [e.assignment, line] + rest;
  }

  lemma AddsLater(e: Edit, line: string, others: seq<string>, out: seq<string>, inside: bool, j: nat)
    requires !(inside && Assigns(e, line))
    requires AddsAt(e, others, out, if IsHeaderLine(line) then Opens(e, line) else inside, j)
    ensures AddsAt(e, [line] + others, [line] + out, inside, j + 1)
  {
    hide ReplacedAll, Ends, Assigned, IsHeaderLine, Opens, Assigns;
    var q := if IsHeaderLine(line) then Opens(e, line) else inside;
    var rest := ReplacedAll(e, others, q);
    InFront(e, line, others, inside);
    InFront(e, line, others[..j], inside);
    Shifted(line, others, j);
    Shifted(line, rest, j);
    assert [line] + (rest[..j] + [e.assignment] + rest[j..]) == ([line] + rest[..j]) + [e.assignment] + rest[j..];
  }

  /** Before that, the pass either replaces in place all along, or adds the assignment once. */
  lemma {:induction false} ScanAddsOnce(e: Edit, lines: seq<string>, p: Place)
    requires Coherent(p) && !p.inserted
    ensures var (out, q) := Scan(e, lines, p);
            || out == ReplacedAll(e, lines, p.inside)
            || (q.inserted && exists k :: AddsAt(e, lines, out, p.inside, k))
  {
    if lines != [] {
      hide IsHeader, Opens, IsAssignmentFor, Trim;
      var line, others := lines[0], lines[1..];
      assert lines == [line] + others;
      var (first, q) := Pass(e, line, p);
      if q.inserted {
        ScanReplaces(e, others, q);
        if IsHeaderLine(line) {
          AddsNow(e, line, others);
        }
      } else {
        ScanAddsOnce(e, others, q);
        var out := Scan(e, others, q).0;
        if j :| AddsAt(e, others, out, q.inside, j) {
          AddsLater(e, line, others, out, p.inside, j);
        }
      }
    }
  }

  lemma {:induction false} ReplacedLength(e: Edit, lines: seq<string>, inside: bool)
    ensures |ReplacedAll(e, lines, inside)| == |lines|
  {
    if lines != [] {
      ReplacedLength(e, lines[1..], if IsHeaderLine(lines[0]) then Opens(e, lines[0]) else inside);
    }
  }

  /** Where the assignment goes: the lines are replaced in place; if the first stretch of the section
      holds no assignment, one is added at its end; and a missing section is added behind everything. */
  lemma UpsertInPlace(e: Edit, lines: seq<string>) returns (k: nat)
    requires Sane(e)
    ensures var all := ReplacedAll(e, lines, false);
            && k <= |lines| == |all|
            && (|| Upserted(e, lines) == all
                || (&& Upserted(e, lines) == all[..k] + [e.assignment] + all[k..]
                    && (k < |lines| ==> IsHeaderLine(lines[k])) && Ends(e, lines[..k], false)
                      && Assigned(e, lines[..k], false) == [])
                || (!HasSection(e, lines) && Upserted(e, lines) == lines + Added(e, lines) + [e.assignment]))
  {
    hide IsHeaderLine, Opens, Removed, ReplacedAll;
    k := 0;
    ScanAddsOnce(e, lines, START);
    ScanLaws(e, lines, START);
    ReplacedLength(e, lines, false);
    var (out, p) := Scan(e, lines, START);
    var all := ReplacedAll(e, lines, false);
    if !p.found {
      NothingBelow(e, lines, START);
      assert lines + (Added(e, lines) + [e.assignment]) == lines + Added(e, lines) + [e.assignment];
      assert Tail(e, lines, p) == Added(e, lines) + [e.assignment];
    } else if !p.inserted {
      k := |lines|;
      assert all[..k] == all && all[k..] == [] && all + [e.assignment] + [] == all + [e.assignment];
      assert lines[..k] == lines;
      UnputIsUnassigned(e, lines, START);
    } else {
      assert out + [] == out;
      if j :| AddsAt(e, lines, out, false, j) {
        k := j;
      }
    }
  }

  /** A pass that has not put the assignment has met none, and is where the lines end. */
  lemma {:induction false} UnputIsUnassigned(e: Edit, lines: seq<string>, p: Place)
    requires !Scan(e, lines, p).1.inserted
    ensures Assigned(e, lines, p.inside) == [] && Ends(e, lines, p.inside) == Scan(e, lines, p).1.inside
  {
    if lines != [] {
      var q := Pass(e, lines[0], p).1;
      if q.inserted {
        ScanReplaces(e, lines[1..], q);
      }
      UnputIsUnassigned(e, lines[1..], q);
    }
  }

  // ----- reading back

  predicate Clean(e: Edit) {
    Sane(e) && !EndsWith(e.header, '\r') && !EndsWith(e.assignment, '\r') && '\n' !in e.header && '\n' !in e.assignment
  }

  lemma ChompedJoins(a: seq<string>, b: seq<string>)
    ensures Chomped(a + b) == Chomped(a) + Chomped(b)
  {
    ChompedAt(a);
    ChompedAt(b);
    ChompedAt(a + b);
  }

  lemma PassChomped(e: Edit, line: string, p: Place)
    requires Clean(e)
    ensures Pass(e, Chomp(line), p) == (Chomped(Pass(e, line, p).0), Pass(e, line, p).1)
  {
    hide Trim;
    TrimChomp(line);
    assert Chomp(e.assignment) == e.assignment;
    ChompedAt([line]);
    ChompedAt([e.assignment]);
    ChompedAt([e.assignment, line]);
    assert Chomped([line]) == [Chomp(line)] && Chomped([e.assignment]) == [e.assignment];
    assert Chomped([e.assignment, line]) == [e.assignment, Chomp(line)];
  }

  /** A carriage return at the end of a line makes no difference to the edit. */
  lemma {:induction false} ScanChomped(e: Edit, lines: seq<string>, p: Place)
    requires Clean(e)
    ensures Scan(e, Chomped(lines), p) == (Chomped(Scan(e, lines, p).0), Scan(e, lines, p).1)
  {
    hide Pass;
    if lines != [] {
      PassChomped(e, lines[0], p);
      var (first, q) := Pass(e, lines[0], p);
      ScanChomped(e, lines[1..], q);
      ChompedJoins(first, Scan(e, lines[1..], q).0);
    }
  }

  lemma {:induction false} RemovedChomped(e: Edit, lines: seq<string>, inside: bool)
    ensures Removed(e, Chomped(lines), inside) == Chomped(Removed(e, lines, inside))
  {
    if lines != [] {
      TrimChomp(lines[0]);
      RemovedChomped(e, lines[1..], if IsHeaderLine(lines[0]) then Opens(e, lines[0]) else inside);
    }
  }

  lemma UpsertedChomped(e: Edit, lines: seq<string>)
    requires Clean(e)
    ensures Upserted(e, Chomped(lines)) == Chomped(Upserted(e, lines))
  {
    hide Scan, Trim;
    ScanChomped(e, lines, START);
    var (out, p) := Scan(e, lines, START);
    ChompedAt(out);
    if out != [] {
      TrimChomp(out[|out| - 1]);
    }
    var tail := Tail(e, out, p);
    assert Tail(e, Chomped(out), p) == tail;
    ChompedJoins(out, tail);
    assert NoReturns(tail);
    ChompedSame(tail);
  }

  lemma {:induction false} ScanOutput(e: Edit, lines: seq<string>, p: Place)
    ensures forall l :: l in Scan(e, lines, p).0 ==> l in lines || l == e.assignment
  {
    if lines != [] {
      var (first, q) := Pass(e, lines[0], p);
      ScanOutput(e, lines[1..], q);
      assert lines[0] in lines && forall l :: l in lines[1..] ==> l in lines;
    }
  }

  lemma UpsertedHasNoBreaks(e: Edit, lines: seq<string>)
    requires Clean(e) && NoBreaks(lines)
    ensures NoBreaks(Upserted(e, lines)) && Upserted(e, lines) != []
  {
    hide Scan, Trim;
    ScanOutput(e, lines, START);
    var (out, p) := Scan(e, lines, START);
    forall l | l in out + Tail(e, out, p) ensures '\n' !in l {
      assert l in out || l in Tail(e, out, p);
    }
    UpsertLaws(e, lines);
    NoLine(e, START);
  }

  // ----- the edit of a file's contents

  function EditOf(section: string, key: string, value: string): Edit {
    Edit(Header(section), key, Assignment(key, value))
  }

  /** One-line names and value, and a key that can stand at the start of a line. */
  predicate Plain(section: string, key: string, value: string) {
    && '\n' !in section && '\n' !in key && '\n' !in value && '\r' !in value
    && key != "" && !IsSpace(key[0]) && key[0] != '['
  }

  function Upsert(content: string, section: string, key: string, value: string): string {
    Unlines(Upserted(EditOf(section, key, value), Lines(content)))
  }

  function Remove(content: string, section: string, key: string): string {
    Unlines(Removed(EditOf(section, key, ""), Lines(content), false))
  }

  lemma {:induction false} TrimEndKeeps(s: string, i: nat)
    requires i < |s| && !IsSpace(s[i])
    ensures |TrimEnd(s)| > i
  {
    if IsSpace(s[|s| - 1]) {
      TrimEndKeeps(s[..|s| - 1], i);
    }
  }

  lemma AssignmentIsAssignment(key: string, value: string)
    requires key != "" && !IsSpace(key[0]) && key[0] != '['
    ensures var t := Trim(Assignment(key, value)); StartsWith(t, key + " ") && t[0] != '['
  {
    var s := Assignment(key, value);
    assert s[|key|] == ' ' && s[|key| + 1] == '=';
    TrimEndKeeps(s, |key| + 1);
    TrimShape(s);
    assert TrimEnd(s)[0] == key[0];
    assert s[..|key| + 1] == key + " ";
    assert TrimEnd(s)[..|key| + 1] == s[..|key| + 1];
  }

  lemma PlainIsClean(section: string, key: string, value: string)
    requires Plain(section, key, value)
    ensures Clean(EditOf(section, key, value))
  {
    AssignmentIsAssignment(key, value);
    var h, a := Header(section), Assignment(key, value);
    assert h[0] == '[' && h[|h| - 1] == ']';
    TrimNothing(h);
    if value == "" {
      assert a[|a| - 1] == ' ';
    } else {
      assert a[|a| - 1] == value[|value| - 1] && value[|value| - 1] in value;
    }
  }

  lemma UnlinesInjective(a: seq<string>, b: seq<string>)
    requires NoBreaks(a) && NoBreaks(b) && a != [] && b != []
    ensures Unlines(a) == Unlines(b) <==> a == b
  {
    UnlinesTerminates(a);
    UnlinesTerminates(b);
    if Unlines(a) == Unlines(b) {
      TerminatedInjective(a, b);
    }
  }

  lemma ChompedHasNoBreaks(lines: seq<string>)
    requires NoBreaks(lines)
    ensures NoBreaks(Chomped(lines)) && |Chomped(lines)| == |lines|
  {
    ChompedAt(lines);
    forall l | l in Chomped(lines) ensures '\n' !in l {
      var i :| 0 <= i < |lines| && Chomped(lines)[i] == l;
      assert lines[i] in lines && forall c :: c in Chomp(lines[i]) ==> c in lines[i];
    }
  }

  lemma NoReturnsJoins(a: seq<string>, b: seq<string>)
    ensures NoReturns(a + b) <==> NoReturns(a) && NoReturns(b)
  {
  }

  /** The assignments and the rest are all the lines. */
  lemma {:induction false} ReturnsSplit(e: Edit, lines: seq<string>, inside: bool)
    ensures NoReturns(lines) <==> NoReturns(Removed(e, lines, inside)) && NoReturns(Assigned(e, lines, inside))
  {
    hide IsHeaderLine, Assigns, Opens;
    if lines != [] {
      var line, others := [lines[0]], lines[1..];
      assert lines == line + others;
      RemovedJoins(e, line, others, inside);
      AssignedJoins(e, line, others, inside);
      OneLine(e, lines[0], inside);
      ReturnsSplit(e, others, Ends(e, line, inside));
      NoReturnsJoins(line, others);
      NoReturnsJoins(Removed(e, line, inside), Removed(e, others, Ends(e, line, inside)));
      NoReturnsJoins(Assigned(e, line, inside), Assigned(e, others, Ends(e, line, inside)));
    }
  }

  /** An edit brings no carriage return in, and takes away only those of the assignments it replaces. */
  lemma UpsertedReturns(e: Edit, lines: seq<string>)
    requires Clean(e)
    ensures NoReturns(Upserted(e, lines)) <==> NoReturns(Removed(e, lines, false))
  {
    hide Upserted, Removed, Assigned, Sane, HasSection;
    CleanIsSane(e);
    UpsertLaws(e, lines);
    ReturnsSplit(e, Upserted(e, lines), false);
    NoReturnsJoins(Removed(e, lines, false), Added(e, lines));
  }

  /** A second identical edit changes nothing exactly if no line that is to stay ends in a carriage
      return, as a line does where two of them come before a line feed. */
  lemma UpsertIsIdempotentIff(content: string, section: string, key: string, value: string)
    requires Plain(section, key, value)
    ensures var once := Upsert(content, section, key, value);
            Upsert(once, section, key, value) == once <==>
            NoReturns(Removed(EditOf(section, key, value), Lines(content), false))
  {
    var e := EditOf(section, key, value);
    hide Upserted, Removed, Unlines, Lines, Clean, Header, Assignment;
    PlainIsClean(section, key, value);
    LinesHaveNoBreaks(content);
    UpsertedHasNoBreaks(e, Lines(content));
    UpsertedReturns(e, Lines(content));
    var r := Upserted(e, Lines(content));
    ReadBack(r);
    UpsertedChomped(e, r);
    CleanIsSane(e);
    UpsertLaws(e, Lines(content));
    ChompedHasNoBreaks(r);
    UnlinesInjective(Chomped(r), r);
    ChompedSame(r);
  }

  lemma CleanIsSane(e: Edit)
    requires Clean(e)
    ensures Sane(e)
  {
  }

  /** The file after an edit: every other line is there, in order and without a carriage return
      before its line feed; the key is assigned to the value everywhere in its section, at least once. */
  lemma UpsertKeepsTheRest(content: string, section: string, key: string, value: string)
    requires Plain(section, key, value)
    ensures var e, was := EditOf(section, key, value), Lines(content);
            var now := Lines(Upsert(content, section, key, value));
            && Removed(e, now, false) == Chomped(Removed(e, was, false) + Added(e, was))
            && Assigned(e, now, false) != [] && forall l :: l in Assigned(e, now, false) ==> l == Assignment(key, value)
  {
    var e := EditOf(section, key, value);
    PlainIsClean(section, key, value);
    assert e.assignment == Assignment(key, value);
    hide Upserted, Unlines, Lines, Clean, Assignment, Header;
    LinesHaveNoBreaks(content);
    UpsertedHasNoBreaks(e, Lines(content));
    var r := Upserted(e, Lines(content));
    ReadBack(r);
    CleanIsSane(e);
    UpsertLaws(e, Lines(content));
    UpsertLaws(e, r);
    UpsertedChomped(e, r);
    RemovedChomped(e, r, false);
    UpsertLaws(e, Chomped(r));
  }

  /** Where the section is there without the key, removing the key after setting it gives back the
      original lines, exactly if none of them ends in a carriage return. */
  lemma RemoveUndoesUpsertIff(content: string, section: string, key: string, value: string)
    requires Plain(section, key, value)
    requires HasSection(EditOf(section, key, value), Lines(content))
    requires Assigned(EditOf(section, key, value), Lines(content), false) == []
    ensures Remove(Upsert(content, section, key, value), section, key) == Unlines(Chomped(Lines(content)))
    ensures Remove(Upsert(content, section, key, value), section, key) == Unlines(Lines(content)) <==>
            NoReturns(Lines(content))
  {
    var e, lines := EditOf(section, key, value), Lines(content);
    RemovalIgnoresValue(section, key, value, Lines(Upsert(content, section, key, value)), false);
    PlainIsClean(section, key, value);
    hide Upserted, Unlines, Lines, Clean, Assignment, Header;
    LinesHaveNoBreaks(content);
    UpsertedHasNoBreaks(e, lines);
    var r := Upserted(e, lines);
    ReadBack(r);
    CleanIsSane(e);
    UpsertLaws(e, lines);
    RemovedChomped(e, r, false);
    NothingToRemove(e, lines, false);
    assert Removed(e, lines, false) + [] == lines;
    ChompedHasNoBreaks(lines);
    UnlinesInjective(Chomped(lines), lines);
    ChompedSame(lines);
  }

  lemma {:induction false} RemovalIgnoresValue(section: string, key: string, value: string, lines: seq<string>,
      inside: bool)
    ensures Removed(EditOf(section, key, value), lines, inside) == Removed(EditOf(section, key, ""), lines, inside)
  {
    if lines != [] {
      var e := EditOf(section, key, value);
      RemovalIgnoresValue(section, key, value, lines[1..], if IsHeaderLine(lines[0]) then Opens(e, lines[0])
        else inside);
    }
  }

  /** The lines are not kept where a line holds two carriage returns before its line feed: each edit takes one. */
  lemma ReturnsAreEatenOneByOne()
    ensures Upsert(Upsert("\r\r\n", "tui", "theme", "1"), "tui", "theme", "1") != Upsert("\r\r\n", "tui", "theme", "1")
  {
    hide Upsert, Lines;
    var e := EditOf("tui", "theme", "1");
    UpsertIsIdempotentIff("\r\r\n", "tui", "theme", "1");
    LinesOfReturns();
    OneLine(e, "\r", false);
    assert !IsHeaderLine("\r");
    assert "\r" in Removed(e, ["\r"], false);
  }

  lemma LinesOfReturns()
    ensures Lines("\r\r\n") == ["\r"]
  {
    var front := "\r\r";
    LinesCons(front, "");
    assert front + "\n" + "" == "\r\r\n";
    assert Chomp(front) == "\r";
  }

  // ----- the loops

  /** The result of a pass over all lines: what is put out, whether the section was found, whether the key was put. */
  function Ran(e: Edit, lines: seq<string>, p: Place): (seq<string>, bool, bool) {
    var (out, q) := Scan(e, lines, p);
    (out, q.found, q.inserted)
  }

  /** With `result` put out and the pass at `p`, the rest of the lines completes the whole pass. */
  ghost predicate Runs(e: Edit, lines: seq<string>, result: seq<string>, i: nat, p: Place) {
    && i <= |lines|
    && var (rest, found, inserted) := Ran(e, lines[i..], p);
       Ran(e, lines, START) == (result + rest, found, inserted)
  }

  lemma RunsOn(e: Edit, lines: seq<string>, result: seq<string>, i: nat, p: Place)
    requires i < |lines| && Runs(e, lines, result, i, p)
    ensures Runs(e, lines, result + Pass(e, lines[i], p).0, i + 1, Pass(e, lines[i], p).1)
  {
    hide Pass;
    assert lines[i..][0] == lines[i] && lines[i..][1..] == lines[i + 1..];
    var (first, q) := Pass(e, lines[i], p);
    var rest := Ran(e, lines[i + 1..], q).0;
    assert result + (first + rest) == (result + first) + rest;
  }

  /** Before a header the pass may leave the section, once the assignment is put. */
  lemma LeaveSection(e: Edit, lines: seq<string>, result: seq<string>, i: nat, p: Place)
    requires Runs(e, lines, result, i, p) && p.inside && p.found
    requires i < |lines| ==> IsHeaderLine(lines[i])
    ensures i < |lines| && !p.inserted ==> Runs(e, lines, result + [e.assignment], i, Place(false, true, true))
    ensures i == |lines| || p.inserted ==> Runs(e, lines, result, i, p.(inside := false))
  {
    if i < |lines| {
      var line, rest := lines[i], lines[i + 1..];
      assert lines[i..][0] == line && lines[i..][1..] == rest;
      var q := Place(Opens(e, line), true, true);
      if !p.inserted {
        var out := Scan(e, rest, q).0;
        assert result + ([e.assignment, line] + out) == (result + [e.assignment]) + ([line] + out);
      }
    }
  }

  lemma RunsFromStart(e: Edit, lines: seq<string>)
    ensures Runs(e, lines, [], 0, START)
  {
    assert lines[0..] == lines && [] + Scan(e, lines, START).0 == Scan(e, lines, START).0;
  }

  lemma PassIsOver(e: Edit, lines: seq<string>, result: seq<string>, i: nat, p: Place)
    requires Runs(e, lines, result, i, p) && i >= |lines|
    ensures Upserted(e, lines) == result + Tail(e, result, p)
  {
    assert lines[i..] == [] && result + [] == result;
  }

  lemma HeaderIsHeaderLine(section: string, line: string)
    requires Trim(line) == Header(section)
    ensures IsHeaderLine(line)
  {
    var h := Header(section);
    assert h[0] == '[' && h[|h| - 1] == ']';
  }

  /** The body of the section: the key is replaced in place, or put before the next header. */
  method WalkBody(e: Edit, lines: seq<string>, before: seq<string>, start: nat, insertedBefore: bool)
    returns (result: seq<string>, i: nat, inserted: bool)
    requires Runs(e, lines, before, start, Place(true, true, insertedBefore))
    ensures start <= i && Runs(e, lines, result, i, Place(false, true, inserted))
  {
    hide Scan, Trim, IsHeader, IsAssignmentFor;
    result, i, inserted := before, start, insertedBefore;
    while i < |lines|
      invariant start <= i && Runs(e, lines, result, i, Place(true, true, inserted))
    {
      var current := lines[i];
      var trimmed := Trim(current);
      if IsHeader(trimmed) {
        LeaveSection(e, lines, result, i, Place(true, true, inserted));
        if !inserted {
          result := result + [e.assignment];
          inserted := true;
        }
        return;
      }
      RunsOn(e, lines, result, i, Place(true, true, inserted));
      if IsAssignmentFor(trimmed, e.key) {
        result := result + [e.assignment];
        inserted := true;
      } else {
        result := result + [current];
      }
      i := i + 1;
    }
    LeaveSection(e, lines, result, i, Place(true, true, inserted));
  }

  /** Inserts or replaces `key = value` in `[section]`, creating the section if it is missing. */
  method UpsertSectionValue(content: string, section: string, key: string, value: string) returns (text: string)
    ensures text == Upsert(content, section, key, value)
  {
    hide Scan, Trim, Lines, Header, Assignment, Runs, IsHeader, IsAssignmentFor;
    var header, assignment := Header(section), Assignment(key, value);
    var e := EditOf(section, key, value);
    var lines := Lines(content);
    var result: seq<string> := [];
    var i, foundSection, inserted := 0, false, false;
    RunsFromStart(e, lines);
    while i < |lines|
      invariant Runs(e, lines, result, i, Place(false, foundSection, inserted))
    {
      var line := lines[i];
      RunsOn(e, lines, result, i, Place(false, foundSection, inserted));
      if Trim(line) == header {
        HeaderIsHeaderLine(section, line);
        foundSection := true;
        result := result + [line];
        i := i + 1;
        result, i, inserted := WalkBody(e, lines, result, i, inserted);
      } else {
        result := result + [line];
        i := i + 1;
      }
    }
    PassIsOver(e, lines, result, i, Place(false, foundSection, inserted));
    ghost var passed := result;
    if !foundSection {
      if result != [] && !IsBlank(result[|result| - 1]) {
        result := result + [""];
      }
      result := result + [header];
      result := result + [assignment];
    } else if !inserted {
      result := result + [assignment];
    }
    assert result == passed + Tail(e, passed, Place(false, foundSection, inserted));
    text := Unlines(result);
  }

  /** With `result` kept, the rest of the lines completes the removal. */
  ghost predicate Keeps(e: Edit, lines: seq<string>, result: seq<string>, i: nat, inside: bool) {
    i <= |lines| && Removed(e, lines, false) == result + Removed(e, lines[i..], inside)
  }

  lemma KeepOne(e: Edit, lines: seq<string>, result: seq<string>, i: nat, inside: bool)
    requires i < |lines| && Keeps(e, lines, result, i, inside)
    ensures var l := lines[i];
            var kept := if !IsHeaderLine(l) && inside && Assigns(e, l) then result else result + [l];
            Keeps(e, lines, kept, i + 1, if IsHeaderLine(l) then Opens(e, l) else inside)
  {
    hide Removed, IsHeaderLine, Assigns, Opens;
    var l := lines[i];
    RemovedOne(e, lines, i, inside);
    var rest := Removed(e, lines[i + 1..], if IsHeaderLine(l) then Opens(e, l) else inside);
    assert result + ([l] + rest) == (result + [l]) + rest && result + ([] + rest) == result + rest;
  }

  lemma AllKept(e: Edit, lines: seq<string>, result: seq<string>, inside: bool)
    requires Keeps(e, lines, result, |lines|, inside)
    ensures Removed(e, lines, false) == result
  {
    assert lines[|lines|..] == [] && result + [] == result;
  }

  lemma NoneKept(e: Edit, lines: seq<string>)
    ensures Keeps(e, lines, [], 0, false)
  {
    assert lines[0..] == lines && [] + Removed(e, lines, false) == Removed(e, lines, false);
  }

  /** Removes the key from the section and leaves every other line. */
  method RemoveSectionKey(content: string, section: string, key: string) returns (text: string)
    ensures text == Remove(content, section, key)
  {
    var header := Header(section);
    var e := EditOf(section, key, "");
    var lines := Lines(content);
    var result: seq<string> := [];
    var inSection := false;
    NoneKept(e, lines);
    hide Removed, Trim, Lines, Header, IsHeader, IsAssignmentFor, Assignment, Keeps;
    for i := 0 to |lines|
      invariant Keeps(e, lines, result, i, inSection)
    {
      var line := lines[i];
      var trimmed := Trim(line);
      KeepOne(e, lines, result, i, inSection);
      if IsHeader(trimmed) {
        inSection := trimmed == header;
        result := result + [line];
        continue;
      }
      if inSection && IsAssignmentFor(trimmed, key) {
        continue;
      }
      result := result + [line];
    }
    AllKept(e, lines, result, inSection);
    text := Unlines(result);
  }

  lemma RemovedOne(e: Edit, lines: seq<string>, i: nat, inside: bool)
    requires i < |lines|
    ensures Removed(e, lines[i..], inside) ==
            (if !IsHeaderLine(lines[i]) && inside && Assigns(e, lines[i]) then [] else [lines[i]]) +
            Removed(e, lines[i + 1..], if IsHeaderLine(lines[i]) then Opens(e, lines[i]) else inside)
  {
    assert lines[i..][0] == lines[i] && lines[i..][1..] == lines[i + 1..];
  }
}
